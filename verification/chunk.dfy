/** `Chunkify`: cut a file into consecutive chunks of lines, one output file
    per chunk, numbered with a fixed number of decimal digits. */
module Chunk {
  import opened Lines
  import Count

  /** `chunksCount = linesCount / chunkSize + (linesCount % chunkSize > 0 ? 1 : 0)`
      with C#'s operators. */
  function ChunksCount(linesCount: int, chunkSize: int): int
    requires chunkSize != 0
  {
    CsDiv(linesCount, chunkSize) + (if CsRem(linesCount, chunkSize) > 0 then 1 else 0)
  }

  /** For a positive chunk size the formula is the ceiling of
      `linesCount / chunkSize`: the fewest chunks of at most `chunkSize`
      lines that hold every line. */
  lemma ChunksCountIsCeiling(linesCount: nat, chunkSize: int)
    requires chunkSize > 0
    ensures ChunksCount(linesCount, chunkSize) == CeilDiv(linesCount, chunkSize)
    ensures linesCount > 0 ==>
      (ChunksCount(linesCount, chunkSize) - 1) * chunkSize < linesCount <= ChunksCount(linesCount, chunkSize) * chunkSize
  {
    if linesCount > 0 {
      var q, m := linesCount / chunkSize, linesCount % chunkSize;
      assert linesCount == q * chunkSize + m;
      if m > 0 {
        assert (q + 1) * chunkSize == q * chunkSize + chunkSize;
        CeilDivUnique(linesCount, chunkSize, q + 1);
      } else {
        assert (q - 1) * chunkSize == q * chunkSize - chunkSize;
        CeilDivUnique(linesCount, chunkSize, q);
      }
    }
  }

  function Pow10(d: nat): (p: nat)
    ensures p >= 1
  {
    if d == 0 then 1 else 10 * Pow10(d - 1)
  }

  /** `n` has exactly `d` decimal digits. */
  predicate HasDigits(n: int, d: nat) {
    if n <= 0 then d == 0 else d >= 1 && Pow10(d - 1) <= n < Pow10(d)
  }

  /** Dividing twice is dividing by the product. */
  lemma DivDiv(x: nat, p: nat)
    requires p >= 1
    ensures x / p / 10 == x / (p * 10)
  {
    var q, r := x / p, x % p;
    var q2, r2 := q / 10, q % 10;
    assert x == q * p + r;
    assert q == q2 * 10 + r2;
    assert x == q2 * (p * 10) + (r2 * p + r) by {
      assert q * p == q2 * (p * 10) + r2 * p;
    }
    assert r2 * p + r < p * 10 by {
      MulMonotone(r2, 9, p);
    }
    DivModUnique(x, p * 10, q2, r2 * p + r);
  }

  /** `x / p` is zero exactly when `x` is below `p`. */
  lemma DivZero(x: nat, p: nat)
    requires p >= 1
    ensures x / p == 0 <==> x < p
  {
    if x < p {
      DivModUnique(x, p, 0, x);
    } else {
      var q := x / p;
      assert x == q * p + x % p;
    }
  }

  /** The digit-counting loop: divides by ten until nothing is left. The
      result is the number of decimal digits of `chunksCount`, and 0 when the
      count is not positive. */
  method NumberOfDigits(chunksCount: int) returns (numberOfDigits: nat)
    ensures HasDigits(chunksCount, numberOfDigits)
  {
    var tmp := chunksCount;
    numberOfDigits := 0;
    while tmp > 0
      invariant chunksCount <= 0 ==> tmp == chunksCount && numberOfDigits == 0
      invariant chunksCount > 0 ==> tmp == chunksCount / Pow10(numberOfDigits)
      invariant chunksCount > 0 && numberOfDigits > 0 ==> Pow10(numberOfDigits - 1) <= chunksCount
      decreases tmp
    {
      DivDiv(chunksCount, Pow10(numberOfDigits));
      DivZero(chunksCount, Pow10(numberOfDigits));
      numberOfDigits := numberOfDigits + 1;
      tmp := tmp / 10;
    }
    if chunksCount > 0 {
      DivZero(chunksCount, Pow10(numberOfDigits));
    }
  }

  /** The lines of the chunks, one chunk after the other. */
  function Flatten(chunks: seq<seq<string>>): seq<string> {
    if chunks == [] then [] else Flatten(chunks[..|chunks| - 1]) + chunks[|chunks| - 1]
  }

  /** The layout the counter produces: the first chunk holds the first
      `first` lines (fewer when the file is shorter, and it exists even for
      an empty file), every later chunk holds `later` lines except the last,
      which holds between 1 and `later`. */
  ghost predicate ChunkShape(chunks: seq<seq<string>>, linesCount: nat, first: nat, later: nat) {
    && |chunks| >= 1
    && |chunks[0]| == Min(linesCount, first)
    && (forall k :: 0 < k < |chunks| - 1 ==> |chunks[k]| == later)
    && (|chunks| > 1 ==> 1 <= |chunks[|chunks| - 1]| <= later)
  }

  /** Appending a line to the open chunk. */
  lemma FlattenSnoc(done: seq<seq<string>>, current: seq<string>, x: string)
    ensures Flatten(done + [current + [x]]) == Flatten(done + [current]) + [x]
  {
    assert (done + [current + [x]])[..|done|] == done;
    assert (done + [current])[..|done|] == done;
  }

  /** Closing the open chunk and opening an empty one. */
  lemma FlattenClose(done: seq<seq<string>>, current: seq<string>)
    ensures Flatten(done + [current] + [[]]) == Flatten(done + [current])
  {
    assert (done + [current] + [[]])[..|done| + 1] == done + [current];
  }

  /** Opening a new chunk for line `k + 1` once the open chunk is full. */
  lemma OpenChunk(done: seq<seq<string>>, current: seq<string>, x: string, k: nat, first: nat, later: nat)
    requires ChunkShape(done + [current], k, first, later) && later >= 1
    requires done == [] ==> |current| == first
    requires done != [] ==> |current| == later && first <= k
    ensures ChunkShape(done + [current] + [[x]], k + 1, first, later)
  {
    var before, after := done + [current], done + [current] + [[x]];
    assert forall j :: 0 <= j < |before| ==> after[j] == before[j];
  }

  /** Adding line `k + 1` to the open chunk while it has room. */
  lemma ExtendChunk(done: seq<seq<string>>, current: seq<string>, x: string, k: nat, first: nat, later: nat)
    requires ChunkShape(done + [current], k, first, later)
    requires done == [] ==> |current| < first
    requires done != [] ==> |current| < later && first <= k
    ensures ChunkShape(done + [current + [x]], k + 1, first, later)
  {
    var before, after := done + [current], done + [current + [x]];
    assert forall j :: 0 <= j < |done| ==> after[j] == before[j];
  }

  /** The line-to-chunk loop of `Chunkify`: `lineIndex` counts the lines of
      the open chunk and restarts from `resetTo` when a new chunk is opened;
      opening a chunk closes the previous writer. The output holds every line
      once, in order, in the layout ChunkShape describes. */
  method AssignToChunks(lines: seq<string>, chunkSize: int, resetTo: int) returns (chunks: seq<seq<string>>)
    requires resetTo == 0 || resetTo == 1
    ensures Flatten(chunks) == lines
    ensures ChunkShape(chunks, |lines|, Max(chunkSize, 0), Max(chunkSize + 1 - resetTo, 1))
  {
    var first, later := Max(chunkSize, 0), Max(chunkSize + 1 - resetTo, 1);
    var done: seq<seq<string>> := [];
    var current: seq<string> := [];
    var lineIndex := 0;
    for k := 0 to |lines|
      invariant ChunkShape(done + [current], k, first, later)
      invariant Flatten(done + [current]) == lines[..k]
      invariant done == [] ==> lineIndex == |current|
      invariant done != [] ==> lineIndex == resetTo + |current| - 1 && first <= k
    {
      assert lines[..k + 1] == lines[..k] + [lines[k]];
      lineIndex := lineIndex + 1;
      if lineIndex > chunkSize {
        OpenChunk(done, current, lines[k], k, first, later);
        FlattenClose(done, current);
        FlattenSnoc(done + [current], [], lines[k]);
        lineIndex := resetTo;
        done := done + [current];
        current := [lines[k]];
      } else {
        ExtendChunk(done, current, lines[k], k, first, later);
        FlattenSnoc(done, current, lines[k]);
        current := current + [lines[k]];
      }
    }
    assert lines[..|lines|] == lines;
    chunks := done + [current];
  }

  /** What a chunking run leaves behind: the chunks, and the two numbers
      that pick the file names (`chunksCount` stays -1 when the caller gave
      the digit count). */
  datatype ChunkOutput = ChunkOutput(chunks: seq<seq<string>>, chunksCount: int, numberOfDigits: int)

  /** `Chunkify` as written: without a digit count it counts the non-blank
      lines, derives the number of chunks and its digit count, and then
      restarts the counter at 0, so every chunk after the first holds
      `chunkSize + 1` lines. A zero chunk size with no digit count divides
      by zero. */
  method Chunkify(lines: seq<string>, chunkSize: int, numberOfDigits: int) returns (r: Result<ChunkOutput>)
    ensures r.Err? <==> numberOfDigits < 0 && chunkSize == 0
    ensures r.Err? ==> r.error == DivideByZero
    ensures r.Ok? && numberOfDigits >= 0 ==> r.value.chunksCount == -1 && r.value.numberOfDigits == numberOfDigits
    ensures r.Ok? && numberOfDigits < 0 ==>
      && r.value.chunksCount == ChunksCount(|Count.NonBlankIndices(lines)|, chunkSize)
      && r.value.numberOfDigits >= 0 && HasDigits(r.value.chunksCount, r.value.numberOfDigits)
    ensures r.Ok? ==> Flatten(r.value.chunks) == lines
    ensures r.Ok? ==> ChunkShape(r.value.chunks, |lines|, Max(chunkSize, 0), Max(chunkSize, 0) + 1)
  {
    var chunksCount := -1;
    var digits := numberOfDigits;
    if numberOfDigits < 0 {
      var linesCount := Count.CountLines(lines);
      if chunkSize == 0 {
        return Err(DivideByZero);
      }
      chunksCount := ChunksCount(linesCount, chunkSize);
      digits := NumberOfDigits(chunksCount);
    }
    var chunks := AssignToChunks(lines, chunkSize, 0);
    r := Ok(ChunkOutput(chunks, chunksCount, digits));
  }

  /** `Chunkify` with the counter restarted at 1, as the usage text ("each
      having <chunkSize> lines") describes: every chunk holds `chunkSize`
      lines except the last. */
  method ChunkifyIntended(lines: seq<string>, chunkSize: int, numberOfDigits: int) returns (r: Result<ChunkOutput>)
    ensures r.Err? <==> numberOfDigits < 0 && chunkSize == 0
    ensures r.Err? ==> r.error == DivideByZero
    ensures r.Ok? && numberOfDigits >= 0 ==> r.value.chunksCount == -1 && r.value.numberOfDigits == numberOfDigits
    ensures r.Ok? && numberOfDigits < 0 ==>
      && r.value.chunksCount == ChunksCount(|Count.NonBlankIndices(lines)|, chunkSize)
      && r.value.numberOfDigits >= 0 && HasDigits(r.value.chunksCount, r.value.numberOfDigits)
    ensures r.Ok? ==> Flatten(r.value.chunks) == lines
    ensures r.Ok? && chunkSize > 0 ==> ChunkShape(r.value.chunks, |lines|, chunkSize, chunkSize)
    ensures r.Ok? && chunkSize > 0 && |lines| > 0 ==> |r.value.chunks| == CeilDiv(|lines|, chunkSize)
  {
    var chunksCount := -1;
    var digits := numberOfDigits;
    if numberOfDigits < 0 {
      var linesCount := Count.CountLines(lines);
      if chunkSize == 0 {
        return Err(DivideByZero);
      }
      chunksCount := ChunksCount(linesCount, chunkSize);
      digits := NumberOfDigits(chunksCount);
    }
    var chunks := AssignToChunks(lines, chunkSize, 1);
    if chunkSize > 0 && |lines| > 0 {
      EvenChunksCount(chunks, |lines|, chunkSize);
    }
    r := Ok(ChunkOutput(chunks, chunksCount, digits));
  }

  /** Chunks whose widths are all `w` hold `|chunks| * w` lines. */
  lemma {:induction false} FlattenLength(chunks: seq<seq<string>>, w: nat)
    requires forall k :: 0 <= k < |chunks| ==> |chunks[k]| == w
    ensures |Flatten(chunks)| == |chunks| * w
  {
    if chunks != [] {
      FlattenLength(chunks[..|chunks| - 1], w);
    }
  }

  /** With the counter restarted at 1, the number of chunks is the ceiling
      of the line count over the chunk size, the same number the name
      width is derived from. */
  lemma EvenChunksCount(chunks: seq<seq<string>>, linesCount: nat, chunkSize: int)
    requires chunkSize > 0 && linesCount > 0
    requires ChunkShape(chunks, linesCount, chunkSize, chunkSize) && |Flatten(chunks)| == linesCount
    ensures |chunks| == CeilDiv(linesCount, chunkSize)
  {
    var m := |chunks|;
    FlattenPrepend(chunks[0], chunks[1..]);
    assert chunks == [chunks[0]] + chunks[1..];
    if m == 1 {
      CeilDivUnique(linesCount, chunkSize, 1);
    } else {
      ShapeLength(chunks, linesCount, chunkSize, chunkSize);
      var last := chunks[m - 1];
      assert linesCount == chunkSize + (m - 2) * chunkSize + |last|;
      assert (m - 1) * chunkSize == chunkSize + (m - 2) * chunkSize;
      assert m * chunkSize == (m - 1) * chunkSize + chunkSize;
      CeilDivUnique(linesCount, chunkSize, m);
    }
  }

  /** As written, when the file is longer than one chunk the output has one
      chunk of `chunkSize` lines followed by chunks of `chunkSize + 1`, so
      there are fewer files than the derived `chunksCount`. */
  lemma WrittenChunksCount(chunks: seq<seq<string>>, linesCount: nat, chunkSize: int)
    requires chunkSize > 0 && linesCount > chunkSize
    requires ChunkShape(chunks, linesCount, chunkSize, chunkSize + 1) && |Flatten(chunks)| == linesCount
    ensures |chunks| == 1 + CeilDiv(linesCount - chunkSize, chunkSize + 1)
  {
    var m := |chunks|;
    FlattenPrepend(chunks[0], chunks[1..]);
    assert chunks == [chunks[0]] + chunks[1..];
    assert m >= 2;
    ShapeLength(chunks, linesCount, chunkSize, chunkSize + 1);
    var last := chunks[m - 1];
    assert linesCount - chunkSize == (m - 2) * (chunkSize + 1) + |last|;
    assert (m - 1) * (chunkSize + 1) == (m - 2) * (chunkSize + 1) + (chunkSize + 1);
    CeilDivUnique(linesCount - chunkSize, chunkSize + 1, m - 1);
  }

  /** The number of lines in a layout of at least two chunks. */
  lemma ShapeLength(chunks: seq<seq<string>>, linesCount: nat, first: nat, later: nat)
    requires ChunkShape(chunks, linesCount, first, later) && |chunks| >= 2
    ensures |Flatten(chunks)| == |chunks[0]| + (|chunks| - 2) * later + |chunks[|chunks| - 1]|
  {
    var m := |chunks|;
    var middle, last := chunks[1..m - 1], chunks[m - 1];
    assert chunks == [chunks[0]] + (middle + [last]);
    assert forall k :: 0 <= k < |middle| ==> middle[k] == chunks[k + 1];
    FlattenLength(middle, later);
    FlattenPrepend(chunks[0], middle + [last]);
    assert (middle + [last])[..|middle|] == middle;
  }

  /** Flatten of a sequence that starts with `c`. */
  lemma {:induction false} FlattenPrepend(c: seq<string>, chunks: seq<seq<string>>)
    ensures Flatten([c] + chunks) == c + Flatten(chunks)
  {
    if chunks != [] {
      var init := chunks[..|chunks| - 1];
      assert ([c] + chunks)[..|chunks|] == [c] + init;
      FlattenPrepend(c, init);
    }
  }

  /** Seven lines in chunks of three: as written the files hold 3 and 4
      lines, where 3, 3 and 1 were meant. */
  lemma SevenLinesWritten(chunks: seq<seq<string>>)
    requires ChunkShape(chunks, 7, 3, 4) && |Flatten(chunks)| == 7
    ensures |chunks| == 2 && |chunks[0]| == 3 && |chunks[1]| == 4
  {
    WrittenChunksCount(chunks, 7, 3);
    assert CeilDiv(4, 4) == 1;
    FlattenPrepend(chunks[0], [chunks[1]]);
    assert chunks == [chunks[0]] + [chunks[1]];
    assert Flatten([chunks[1]]) == Flatten([]) + chunks[1];
  }

  lemma SevenLinesIntended(chunks: seq<seq<string>>)
    requires ChunkShape(chunks, 7, 3, 3) && |Flatten(chunks)| == 7
    ensures |chunks| == 3 && |chunks[0]| == 3 && |chunks[1]| == 3 && |chunks[2]| == 1
  {
    EvenChunksCount(chunks, 7, 3);
    assert CeilDiv(7, 3) == 3;
    FlattenPrepend(chunks[0], chunks[1..]);
    assert chunks == [chunks[0]] + chunks[1..];
    assert chunks[1..] == [chunks[1]] + [chunks[2]];
    FlattenPrepend(chunks[1], [chunks[2]]);
    assert Flatten([chunks[2]]) == Flatten([]) + chunks[2];
  }
}

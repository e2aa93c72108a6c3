/** `MainShuffle`: count the lines, draw the order array, then emit the
    output batch by batch, each batch costing one full scan of the file. */
module Shuffle {
  import opened Lines
  import opened Permutations
  import opened OrderArray
  import opened Count
  import opened Batch

  /** The output positions `[start, end]` (both inclusive) of one batch. */
  datatype BatchRange = BatchRange(start: int, end: int)

  /** The batches the loop `for (batchStart = start; batchStart < n;
      batchStart += b)` visits, each clipped at `n - 1`. */
  function BatchesFrom(start: nat, n: nat, b: int): seq<BatchRange>
    requires b > 0
    decreases n - start
  {
    if start >= n then [] else [BatchRange(start, Min(start + b - 1, n - 1))] + BatchesFrom(start + b, n, b)
  }

  /** Output position `p` falls in one of the batches `bs`. */
  ghost predicate Covered(bs: seq<BatchRange>, p: int) {
    exists k :: 0 <= k < |bs| && bs[k].start <= p <= bs[k].end
  }

  /** There are `ceil((n - start) / b)` batches; the first starts at `start`
      and the last ends at `n - 1`. */
  lemma {:induction false} BatchesCount(start: nat, n: nat, b: int)
    requires b > 0
    ensures var bs := BatchesFrom(start, n, b);
      && |bs| == CeilDiv(n - start, b)
      && (start < n ==> bs[0].start == start && bs[|bs| - 1].end == n - 1)
    decreases n - start
  {
    if start < n {
      BatchesCount(start + b, n, b);
    }
  }

  /** Batch `r` lies inside `start..n-1` and is at most `b` wide. */
  predicate InRange(r: BatchRange, start: int, n: int, b: int) {
    start <= r.start <= r.end < n && r.end - r.start + 1 <= b
  }

  /** Each batch lies inside `start..n-1` and is at most `b` wide. */
  lemma {:induction false} BatchesInRange(start: nat, n: nat, b: int)
    requires b > 0
    ensures forall k :: 0 <= k < |BatchesFrom(start, n, b)| ==> InRange(BatchesFrom(start, n, b)[k], start, n, b)
    decreases n - start
  {
    if start < n {
      BatchesInRange(start + b, n, b);
      var bs, rest := BatchesFrom(start, n, b), BatchesFrom(start + b, n, b);
      assert bs == [BatchRange(start, Min(start + b - 1, n - 1))] + rest;
      forall k | 0 <= k < |bs|
        ensures InRange(bs[k], start, n, b)
      {
        if k == 0 {
          assert bs[0] == BatchRange(start, Min(start + b - 1, n - 1));
        } else {
          assert bs[k] == rest[k - 1];
          assert InRange(rest[k - 1], start + b, n, b);
        }
      }
    }
  }

  /** All batches but the last are exactly `b` wide and are followed by the
      next position. */
  lemma {:induction false} BatchesContiguous(start: nat, n: nat, b: int)
    requires b > 0
    ensures var bs := BatchesFrom(start, n, b);
      forall k :: 0 <= k < |bs| - 1 ==> bs[k].end - bs[k].start + 1 == b && bs[k + 1].start == bs[k].end + 1
    decreases n - start
  {
    if start < n {
      BatchesContiguous(start + b, n, b);
      BatchesCount(start + b, n, b);
      var bs, rest := BatchesFrom(start, n, b), BatchesFrom(start + b, n, b);
      assert forall k :: 0 < k < |bs| ==> bs[k] == rest[k - 1];
    }
  }

  lemma {:induction false} BatchesDisjoint(start: nat, n: nat, b: int)
    requires b > 0
    ensures var bs := BatchesFrom(start, n, b);
      forall j, k :: 0 <= j < k < |bs| ==> bs[j].end < bs[k].start
    decreases n - start
  {
    if start < n {
      BatchesDisjoint(start + b, n, b);
      BatchesInRange(start + b, n, b);
      BatchesCount(start + b, n, b);
      var bs, rest := BatchesFrom(start, n, b), BatchesFrom(start + b, n, b);
      forall j, k | 0 <= j < k < |bs| ensures bs[j].end < bs[k].start {
        assert bs[k] == rest[k - 1];
        if j > 0 {
          assert bs[j] == rest[j - 1];
        }
      }
    }
  }

  /** Every position of `start..n-1` falls in some batch. */
  lemma {:induction false} BatchesCover(start: nat, n: nat, b: int)
    requires b > 0
    ensures forall p :: start <= p < n ==> Covered(BatchesFrom(start, n, b), p)
    decreases n - start
  {
    if start < n {
      BatchesCover(start + b, n, b);
      var bs, rest := BatchesFrom(start, n, b), BatchesFrom(start + b, n, b);
      forall p | start <= p < n ensures Covered(bs, p) {
        if p > bs[0].end {
          assert Covered(rest, p);
          var k :| 0 <= k < |rest| && rest[k].start <= p <= rest[k].end;
          assert bs[k + 1] == rest[k];
        }
      }
    }
  }

  /** For a positive batch size the batches of the shuffle loop partition the
      output positions `0..n-1` into `ceil(n / b)` contiguous ranges. */
  lemma BatchesPartition(n: nat, b: int)
    requires b > 0
    ensures var bs := BatchesFrom(0, n, b);
      && |bs| == CeilDiv(n, b)
      && (n > 0 ==> bs[0].start == 0 && bs[|bs| - 1].end == n - 1)
      && (forall k :: 0 <= k < |bs| ==> 0 <= bs[k].start <= bs[k].end < n && bs[k].end - bs[k].start + 1 <= b)
      && (forall k :: 0 <= k < |bs| - 1 ==> bs[k].end - bs[k].start + 1 == b && bs[k + 1].start == bs[k].end + 1)
      && (forall j, k :: 0 <= j < k < |bs| ==> bs[j].end < bs[k].start)
      && (forall p :: 0 <= p < n ==> Covered(bs, p))
  {
    BatchesCount(0, n, b);
    BatchesInRange(0, n, b);
    BatchesContiguous(0, n, b);
    BatchesDisjoint(0, n, b);
    BatchesCover(0, n, b);
  }

  /** The shuffled output for order `P`: output line `k` is source line
      `P[k]`, or an empty line when the file has no such line. */
  function GatherOrEmpty(lines: seq<string>, order: seq<int>): (r: seq<string>)
    ensures |r| == |order|
  {
    seq(|order|, k requires 0 <= k < |order| => if 0 <= order[k] < |lines| then lines[order[k]] else "")
  }

  lemma GatherAppend(lines: seq<string>, a: seq<int>, b: seq<int>)
    ensures GatherOrEmpty(lines, a + b) == GatherOrEmpty(lines, a) + GatherOrEmpty(lines, b)
  {
  }

  /** Gathering by two orders that hold the same indices yields the same
      lines, up to order. */
  lemma {:induction false} GatherRespectsMultiset(lines: seq<string>, p: seq<int>, q: seq<int>)
    requires multiset(p) == multiset(q)
    ensures multiset(GatherOrEmpty(lines, p)) == multiset(GatherOrEmpty(lines, q))
    decreases |p|
  {
    if p != [] {
      var x := p[0];
      assert x in multiset(q);
      var j :| 0 <= j < |q| && q[j] == x;
      var q' := q[..j] + q[j + 1..];
      assert q == q[..j] + [x] + q[j + 1..];
      assert p == [x] + p[1..];
      assert multiset(q) == multiset(q[..j]) + multiset([x]) + multiset(q[j + 1..]);
      assert multiset(q') == multiset(q[..j]) + multiset(q[j + 1..]);
      assert multiset(p) == multiset([x]) + multiset(p[1..]);
      assert multiset(p[1..]) == multiset(p) - multiset([x]);
      GatherRespectsMultiset(lines, p[1..], q');
      GatherAppend(lines, [x], p[1..]);
      GatherAppend(lines, q[..j], [x]);
      GatherAppend(lines, q[..j] + [x], q[j + 1..]);
      GatherAppend(lines, q[..j], q[j + 1..]);
    }
  }

  /** Gathering by a permutation of `0..n-1`, with `n` no more than the
      number of lines, rearranges exactly the first `n` lines. */
  lemma GatherPermutation(lines: seq<string>, order: seq<int>, n: nat)
    requires IsPermutation(order, n) && n <= |lines|
    ensures multiset(GatherOrEmpty(lines, order)) == multiset(lines[..n])
  {
    GatherRespectsMultiset(lines, order, Range(n));
    assert GatherOrEmpty(lines, Range(n)) == lines[..n];
  }

  /** A batch of a permutation has distinct, in-range keys, so ProcessBatch
      fetches every line it asks for and nothing else. */
  lemma BlockOfDistinctKeys(lines: seq<string>, keys: seq<int>, block: seq<string>, linesRead: int)
    requires BlockFacts(lines, keys, block, linesRead)
    requires Distinct(keys) && forall i :: 0 <= i < |keys| ==> 0 <= keys[i]
    ensures block == GatherOrEmpty(lines, keys)
  {
    forall i | 0 <= i < |keys| ensures block[i] == GatherOrEmpty(lines, keys)[i] {
      assert UniqueKey(keys, i) by {
        forall j | 0 <= j < |keys| && j != i ensures keys[j] != keys[i] {
          if j < i { assert keys[j] != keys[i]; } else { assert keys[i] != keys[j]; }
        }
      }
    }
  }

  /** Appending the block of batch `[batchStart, batchEnd]` of a permutation
      extends the gathered output by exactly that batch. */
  lemma NextBatch(lines: seq<string>, order: seq<int>, n: nat, batchStart: nat, batchEnd: int, block: seq<string>, linesRead: int)
    requires IsPermutation(order, n) && |order| == n && batchStart <= batchEnd < n
    requires BlockFacts(lines, order[batchStart..batchEnd + 1], block, linesRead)
    ensures GatherOrEmpty(lines, order[..batchStart]) + block == GatherOrEmpty(lines, order[..batchEnd + 1])
  {
    PermutationFacts(order, n);
    var keys := order[batchStart..batchEnd + 1];
    assert Distinct(keys) by {
      forall a, c | 0 <= a < c < |keys| ensures keys[a] != keys[c] {
        assert keys[a] == order[batchStart + a] && keys[c] == order[batchStart + c];
      }
    }
    BlockOfDistinctKeys(lines, keys, block, linesRead);
    assert order[..batchEnd + 1] == order[..batchStart] + keys;
    GatherAppend(lines, order[..batchStart], keys);
  }

  /** One turn of the batch loop: the block of the first remaining batch
      extends the output by exactly that batch of the order, and the loop
      moves on to the remaining batches. */
  lemma BatchStep(lines: seq<string>, order: seq<int>, n: nat, b: int, batchStart: nat, batchEnd: int,
                  batches: seq<BatchRange>, output: seq<string>, block: seq<string>)
    requires |order| == n && b > 0 && batchStart < n
    requires batchEnd == Min(batchStart + b - 1, n - 1)
    requires output == GatherOrEmpty(lines, order[..batchStart])
    requires batches + BatchesFrom(batchStart, n, b) == BatchesFrom(0, n, b)
    requires output + block == GatherOrEmpty(lines, order[..batchEnd + 1])
    ensures output + block == GatherOrEmpty(lines, order[..Min(batchStart + b, n)])
    ensures (batches + [BatchRange(batchStart, batchEnd)]) + BatchesFrom(batchStart + b, n, b) == BatchesFrom(0, n, b)
  {
    assert Min(batchStart + b, n) == batchEnd + 1;
    assert BatchesFrom(batchStart, n, b) == [BatchRange(batchStart, batchEnd)] + BatchesFrom(batchStart + b, n, b);
  }

  /** One call of `ProcessBatch` inside the batch loop: for a batch of the
      order array, what it writes extends the gathered output by exactly
      that batch. */
  method EmitBatch(lines: seq<string>, orderArray: array<int>, ghost n: nat, batchStart: nat, batchEnd: int)
    returns (r: Result<seq<string>>)
    requires IsPermutation(orderArray[..], n) && orderArray.Length == n && batchStart < n && batchEnd < n
    ensures r.Err? <==> batchEnd - batchStart + 1 < 0
    ensures r.Err? ==> r.error == NegativeArraySize
    ensures r.Ok? && batchStart <= batchEnd ==>
      GatherOrEmpty(lines, orderArray[..batchStart]) + r.value == GatherOrEmpty(lines, orderArray[..batchEnd + 1])
  {
    ghost var linesRead;
    r, linesRead := ProcessBatch(lines, orderArray, batchStart, batchEnd);
    if r.Ok? && batchStart <= batchEnd {
      NextBatch(lines, orderArray[..], n, batchStart, batchEnd, r.value, linesRead);
      assert orderArray[..][..batchStart] == orderArray[..batchStart];
      assert orderArray[..][..batchEnd + 1] == orderArray[..batchEnd + 1];
    }
  }

  /** Lines 114-140 of `MainShuffle` for a given `linesCount`: draw the order
      array, then process the batches `[batchStart, batchEnd]` in turn and
      append what each one writes. A batch size of 0 never advances
      `batchStart`; a negative one makes the first `new` fail. */
  method ShuffleInBatches(lines: seq<string>, linesCount: nat, batchSizeLines: int)
    returns (r: Result<seq<string>>, ghost order: seq<int>, ghost batches: seq<BatchRange>)
    ensures IsPermutation(order, linesCount)
    ensures r.Err? <==> linesCount > 0 && batchSizeLines <= 0
    ensures linesCount > 0 && batchSizeLines == 0 ==> r == Err(NonTermination)
    ensures linesCount > 0 && batchSizeLines < 0 ==> r == Err(NegativeArraySize)
    ensures r.Ok? ==> r.value == GatherOrEmpty(lines, order)
    ensures r.Ok? && batchSizeLines > 0 ==> batches == BatchesFrom(0, linesCount, batchSizeLines)
  {
    var orderArray := GetOrderArray(linesCount);
    order := orderArray[..];
    batches := [];
    if linesCount > 0 && batchSizeLines == 0 {
      return Err(NonTermination), order, batches;
    }
    var output: seq<string> := [];
    var batchStart := 0;
    while batchStart < linesCount
      invariant 0 <= batchStart
      invariant batchStart > 0 ==> batchSizeLines > 0
      invariant orderArray[..] == order
      invariant batchSizeLines > 0 ==>
        batches + BatchesFrom(batchStart, linesCount, batchSizeLines) == BatchesFrom(0, linesCount, batchSizeLines)
      invariant output == GatherOrEmpty(lines, order[..Min(batchStart, linesCount)])
      decreases linesCount - batchStart
    {
      var batchEnd := batchStart + batchSizeLines - 1;
      if batchEnd >= linesCount {
        batchEnd := linesCount - 1;
      }
      var block := EmitBatch(lines, orderArray, linesCount, batchStart, batchEnd);
      if block.Err? {
        return Err(block.error), order, batches;
      }
      BatchStep(lines, order, linesCount, batchSizeLines, batchStart, batchEnd, batches, output, block.value);
      output := output + block.value;
      batches := batches + [BatchRange(batchStart, batchEnd)];
      batchStart := batchStart + batchSizeLines;
    }
    assert order[..Min(batchStart, linesCount)] == order;
    r := Ok(output);
  }

  /** `MainShuffle`: the line count comes from CountLines, which skips blank
      lines, while the batches re-read the raw lines. The output therefore
      rearranges the first `count` raw lines, whatever they are. */
  method MainShuffle(lines: seq<string>, batchSizeLines: int)
    returns (r: Result<seq<string>>, ghost order: seq<int>, ghost batches: seq<BatchRange>)
    ensures |order| == |NonBlankIndices(lines)| <= |lines|
    ensures IsPermutation(order, |NonBlankIndices(lines)|)
    ensures r.Err? <==> |NonBlankIndices(lines)| > 0 && batchSizeLines <= 0
    ensures r.Ok? ==> r.value == GatherOrEmpty(lines, order)
    ensures r.Ok? ==> multiset(r.value) == multiset(lines[..|NonBlankIndices(lines)|])
    ensures r.Ok? && batchSizeLines > 0 ==> batches == BatchesFrom(0, |NonBlankIndices(lines)|, batchSizeLines)
  {
    var linesCount := CountLines(lines);
    r, order, batches := ShuffleInBatches(lines, linesCount, batchSizeLines);
    PermutationFacts(order, linesCount);
    if r.Ok? {
      GatherPermutation(lines, order, linesCount);
    }
  }

  /** The shuffle as evidently intended: the order covers every raw line, so
      the output is a rearrangement of the whole file. */
  method MainShuffleAllLines(lines: seq<string>, batchSizeLines: int)
    returns (r: Result<seq<string>>, ghost order: seq<int>)
    ensures IsPermutation(order, |lines|)
    ensures r.Err? <==> |lines| > 0 && batchSizeLines <= 0
    ensures r.Ok? ==> r.value == GatherOrEmpty(lines, order)
    ensures r.Ok? ==> multiset(r.value) == multiset(lines)
  {
    ghost var batches;
    r, order, batches := ShuffleInBatches(lines, |lines|, batchSizeLines);
    if r.Ok? {
      GatherPermutation(lines, order, |lines|);
      assert lines[..|lines|] == lines;
    }
  }

  /** A file whose blank line comes first: CountLines gives 1, so every
      order draws line 0 only and the one non-blank line is never written. */
  lemma BlankLineHidesLastLine(order: seq<int>)
    requires IsPermutation(order, |NonBlankIndices(["", "a"])|)
    ensures GatherOrEmpty(["", "a"], order) == [""]
    ensures multiset(GatherOrEmpty(["", "a"], order)) != multiset(["", "a"])
  {
    var lines := ["", "a"];
    assert !IsWhiteSpace(lines[1][0]);
    assert NonBlankIndices(lines) == {1};
    PermutationFacts(order, 1);
    assert "a" !in multiset(GatherOrEmpty(lines, order));
  }

  /** Ten lines in batches of three: four scans, of 3, 3, 3 and 1 lines. */
  lemma TenLinesInBatchesOfThree()
    ensures BatchesFrom(0, 10, 3) == [BatchRange(0, 2), BatchRange(3, 5), BatchRange(6, 8), BatchRange(9, 9)]
  {
  }

  /** A batch as large as the file gives a single in-memory batch. */
  lemma {:induction false} OneBatchWhenSizeIsCount(n: nat)
    requires n > 0
    ensures BatchesFrom(0, n, n) == [BatchRange(0, n - 1)]
  {
    assert BatchesFrom(n, n, n) == [];
  }
}

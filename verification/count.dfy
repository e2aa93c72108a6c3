/** `CountLines`: one pass over the file counting the lines that are not
    blank. */
module Count {
  import opened Lines

  /** Number of non-blank lines, defined line by line from the front. */
  function NonBlankCount(lines: seq<string>): nat {
    if lines == [] then 0
    else (if IsBlank(lines[0]) then 0 else 1) + NonBlankCount(lines[1..])
  }

  /** The positions of the non-blank lines. */
  ghost function NonBlankIndices(lines: seq<string>): set<nat> {
    set k: nat | k < |lines| && !IsBlank(lines[k])
  }

  /** Counting a file is the same as counting its non-blank positions; the
      count never exceeds the number of raw lines and reaches it exactly when
      no line is blank. */
  lemma {:induction false} NonBlankCountIsIndexCount(lines: seq<string>)
    ensures NonBlankCount(lines) == |NonBlankIndices(lines)|
    ensures NonBlankCount(lines) <= |lines|
    ensures NonBlankCount(lines) == |lines| <==> forall k :: 0 <= k < |lines| ==> !IsBlank(lines[k])
  {
    if lines != [] {
      var init, last := lines[..|lines| - 1], lines[|lines| - 1];
      assert lines == init + [last];
      NonBlankCountIsIndexCount(init);
      NonBlankCountSnoc(init, last);
      NonBlankIndicesSnoc(init, last);
      if forall k :: 0 <= k < |lines| ==> !IsBlank(lines[k]) {
        forall k | 0 <= k < |init| ensures !IsBlank(init[k]) {
          assert init[k] == lines[k];
        }
      }
    }
  }

  /** The non-blank positions of `lines + [s]`: those of `lines`, plus the
      new last position when `s` is not blank. */
  lemma NonBlankIndicesSnoc(lines: seq<string>, s: string)
    ensures |NonBlankIndices(lines + [s])| == |NonBlankIndices(lines)| + (if IsBlank(s) then 0 else 1)
  {
    var step := if IsBlank(s) then {} else {|lines|};
    assert NonBlankIndices(lines + [s]) == NonBlankIndices(lines) + step by {
      forall k | k in NonBlankIndices(lines + [s]) && k < |lines| ensures k in NonBlankIndices(lines) {
        assert lines[k] == (lines + [s])[k];
      }
      forall k | k in NonBlankIndices(lines) ensures k in NonBlankIndices(lines + [s]) {
        assert lines[k] == (lines + [s])[k];
      }
    }
    assert |lines| !in NonBlankIndices(lines);
  }

  /** Counting appends one line at a time: the count of `lines + [s]`. */
  lemma {:induction false} NonBlankCountSnoc(lines: seq<string>, s: string)
    ensures NonBlankCount(lines + [s]) == NonBlankCount(lines) + (if IsBlank(s) then 0 else 1)
  {
    if lines != [] {
      assert (lines + [s])[1..] == lines[1..] + [s];
      NonBlankCountSnoc(lines[1..], s);
    }
  }

  /** `CountLines`: scans the lines in order, skipping blank ones. The
      elapsed-time out parameter and the progress messages are not modelled. */
  method CountLines(lines: seq<string>) returns (linesCount: nat)
    ensures linesCount == |NonBlankIndices(lines)|
    ensures linesCount <= |lines|
  {
    linesCount := 0;
    for k := 0 to |lines|
      invariant linesCount == NonBlankCount(lines[..k])
    {
      assert lines[..k + 1] == lines[..k] + [lines[k]];
      NonBlankCountSnoc(lines[..k], lines[k]);
      if IsBlank(lines[k]) {
        continue;
      }
      linesCount := linesCount + 1;
    }
    assert lines[..|lines|] == lines;
    NonBlankCountIsIndexCount(lines);
  }

  /** Counting is deterministic: two scans of an unchanged file agree. */
  method CountTwice(lines: seq<string>) returns (first: nat, second: nat)
    ensures first == second
  {
    first := CountLines(lines);
    second := CountLines(lines);
  }
}

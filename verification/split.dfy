/** `MainSplit`: route each line of the file to the `.test` or the `.train`
    output by a periodic test on its position. */
module Split {
  import opened Lines

  /** The routing test: line number `lineIndex` (counted from 1) goes to the
      test output when `(lineIndex - 1) % testFracDown < testFracUp`, with
      C#'s remainder. */
  predicate GoesToTest(lineIndex: int, testFracUp: int, testFracDown: int)
    requires testFracDown != 0
  {
    CsRem(lineIndex - 1, testFracDown) < testFracUp
  }

  /** In the first period, lines `1..testFracUp` go to test and the rest of
      the period to train. */
  lemma GoesToTestFirstPeriod(lineIndex: int, testFracUp: int, testFracDown: int)
    requires testFracDown != 0 && 1 <= lineIndex <= Abs(testFracDown)
    ensures GoesToTest(lineIndex, testFracUp, testFracDown) <==> lineIndex <= testFracUp
  {
    DivModUnique(lineIndex - 1, Abs(testFracDown), 0, lineIndex - 1);
  }

  /** The routing repeats every `|testFracDown|` lines. */
  lemma GoesToTestPeriodic(lineIndex: int, testFracUp: int, testFracDown: int)
    requires testFracDown != 0 && lineIndex >= 1
    ensures GoesToTest(lineIndex + Abs(testFracDown), testFracUp, testFracDown) == GoesToTest(lineIndex, testFracUp, testFracDown)
  {
    var d, x := Abs(testFracDown), lineIndex - 1;
    var q, m := x / d, x % d;
    assert x == q * d + m;
    assert x + d == (q + 1) * d + m;
    DivModUnique(x + d, d, q + 1, m);
  }

  /** The lines of `s` routed to the test output, in their original order. */
  function TestLines(s: seq<string>, testFracUp: int, testFracDown: int): seq<string>
    requires testFracDown != 0
  {
    if s == [] then []
    else TestLines(s[..|s| - 1], testFracUp, testFracDown) +
         (if GoesToTest(|s|, testFracUp, testFracDown) then [s[|s| - 1]] else [])
  }

  /** The lines of `s` routed to the train output, in their original order. */
  function TrainLines(s: seq<string>, testFracUp: int, testFracDown: int): seq<string>
    requires testFracDown != 0
  {
    if s == [] then []
    else TrainLines(s[..|s| - 1], testFracUp, testFracDown) +
         (if GoesToTest(|s|, testFracUp, testFracDown) then [] else [s[|s| - 1]])
  }

  /** Routing one more line appends it to exactly one of the outputs. */
  lemma RouteStep(s: seq<string>, x: string, testFracUp: int, testFracDown: int)
    requires testFracDown != 0
    ensures TestLines(s + [x], testFracUp, testFracDown) ==
            TestLines(s, testFracUp, testFracDown) + (if GoesToTest(|s| + 1, testFracUp, testFracDown) then [x] else [])
    ensures TrainLines(s + [x], testFracUp, testFracDown) ==
            TrainLines(s, testFracUp, testFracDown) + (if GoesToTest(|s| + 1, testFracUp, testFracDown) then [] else [x])
  {
    assert (s + [x])[..|s|] == s;
  }

  /** Rebuilds `n` lines from the two outputs by replaying the routing test
      from the last line backwards. */
  function Merge(test: seq<string>, train: seq<string>, n: nat, testFracUp: int, testFracDown: int): seq<string>
    requires testFracDown != 0
  {
    if n == 0 then []
    else if GoesToTest(n, testFracUp, testFracDown) then
      if test == [] then []
      else Merge(test[..|test| - 1], train, n - 1, testFracUp, testFracDown) + [test[|test| - 1]]
    else
      if train == [] then []
      else Merge(test, train[..|train| - 1], n - 1, testFracUp, testFracDown) + [train[|train| - 1]]
  }

  /** The split loses nothing and duplicates nothing: every line lands in
      exactly one of the two outputs. */
  lemma {:induction false} SplitSizes(s: seq<string>, testFracUp: int, testFracDown: int)
    requires testFracDown != 0
    ensures |TestLines(s, testFracUp, testFracDown)| + |TrainLines(s, testFracUp, testFracDown)| == |s|
  {
    if s != [] {
      SplitSizes(s[..|s| - 1], testFracUp, testFracDown);
    }
  }

  /** The split keeps the order: interleaving the two outputs by the
      routing test gives back the input. */
  lemma {:induction false} SplitRoundTrip(s: seq<string>, testFracUp: int, testFracDown: int)
    requires testFracDown != 0
    ensures Merge(TestLines(s, testFracUp, testFracDown), TrainLines(s, testFracUp, testFracDown), |s|, testFracUp, testFracDown) == s
  {
    if s != [] {
      var init, last := s[..|s| - 1], s[|s| - 1];
      SplitRoundTrip(init, testFracUp, testFracDown);
      MergeStep(init, testFracUp, testFracDown, last);
      assert s == init + [last];
    }
  }

  /** One step of the merge undoes one step of the split. */
  lemma MergeStep(init: seq<string>, testFracUp: int, testFracDown: int, last: string)
    requires testFracDown != 0
    ensures
      var s := init + [last];
      Merge(TestLines(s, testFracUp, testFracDown), TrainLines(s, testFracUp, testFracDown), |s|, testFracUp, testFracDown) ==
      Merge(TestLines(init, testFracUp, testFracDown), TrainLines(init, testFracUp, testFracDown), |init|, testFracUp, testFracDown) + [last]
  {
    var s := init + [last];
    RouteStep(init, last, testFracUp, testFracDown);
    var test0, train0 := TestLines(init, testFracUp, testFracDown), TrainLines(init, testFracUp, testFracDown);
    var test, train := TestLines(s, testFracUp, testFracDown), TrainLines(s, testFracUp, testFracDown);
    if GoesToTest(|s|, testFracUp, testFracDown) {
      assert test == test0 + [last] && train == train0;
      assert test[..|test| - 1] == test0;
    } else {
      assert test == test0 && train == train0 + [last];
      assert train[..|train| - 1] == train0;
    }
  }

  /** With `testFracUp <= 0` no line is routed to test, so the missing test
      writer is never used. */
  lemma {:induction false} NoTestLinesWhenUpNotPositive(s: seq<string>, testFracUp: int, testFracDown: int)
    requires testFracDown != 0 && testFracUp <= 0
    ensures TestLines(s, testFracUp, testFracDown) == []
    ensures TrainLines(s, testFracUp, testFracDown) == s
  {
    if s != [] {
      NoTestLinesWhenUpNotPositive(s[..|s| - 1], testFracUp, testFracDown);
      assert s == s[..|s| - 1] + [s[|s| - 1]];
    }
  }

  /** With `0 <= testFracUp <= testFracDown`, every full period of
      `testFracDown` lines gives `testFracUp` test lines, and a partial period
      of `r` lines gives `min(r, testFracUp)`. */
  lemma {:induction false} TestLinesCount(s: seq<string>, testFracUp: int, testFracDown: int)
    requires 0 <= testFracUp <= testFracDown && testFracDown > 0
    ensures |TestLines(s, testFracUp, testFracDown)| ==
            (|s| / testFracDown) * testFracUp + Min(|s| % testFracDown, testFracUp)
  {
    if s != [] {
      var n := |s| - 1;
      TestLinesCount(s[..n], testFracUp, testFracDown);
      assert GoesToTest(n + 1, testFracUp, testFracDown) <==> n % testFracDown < testFracUp;
      PeriodStep(n, testFracUp, testFracDown);
    }
  }

  /** One more line advances the closed form by one exactly when that line
      is routed to test. */
  lemma PeriodStep(n: nat, up: int, down: int)
    requires 0 <= up <= down && down > 0
    ensures ((n + 1) / down) * up + Min((n + 1) % down, up) ==
            (n / down) * up + Min(n % down, up) + (if n % down < up then 1 else 0)
  {
    var q, m := n / down, n % down;
    if m + 1 < down {
      DivModUnique(n + 1, down, q, m + 1);
    } else {
      assert n + 1 == (q + 1) * down + 0;
      DivModUnique(n + 1, down, q + 1, 0);
      assert (q + 1) * up == q * up + up;
    }
  }

  /** Five lines split 1/5: the first goes to test, the other four to train
      in their order. */
  lemma OneFifthOfFiveLines(a: string, b: string, c: string, d: string, e: string)
    ensures TestLines([a, b, c, d, e], 1, 5) == [a]
    ensures TrainLines([a, b, c, d, e], 1, 5) == [b, c, d, e]
  {
    OneFifthOfThreeLines(a, b, c);
    assert TestLines([a, b, c, d], 1, 5) == [a] && TrainLines([a, b, c, d], 1, 5) == [b, c, d] by {
      RouteStep([a, b, c], d, 1, 5);
      assert !GoesToTest(4, 1, 5) && [a, b, c] + [d] == [a, b, c, d];
    }
    RouteStep([a, b, c, d], e, 1, 5);
    assert !GoesToTest(5, 1, 5) && [a, b, c, d] + [e] == [a, b, c, d, e];
  }

  /** The first three lines of a 1/5 split. */
  lemma OneFifthOfThreeLines(a: string, b: string, c: string)
    ensures TestLines([a, b, c], 1, 5) == [a]
    ensures TrainLines([a, b, c], 1, 5) == [b, c]
  {
    assert TestLines([a], 1, 5) == [a] && TrainLines([a], 1, 5) == [] by {
      RouteStep([], a, 1, 5);
      assert GoesToTest(1, 1, 5) && [] + [a] == [a];
    }
    assert TestLines([a, b], 1, 5) == [a] && TrainLines([a, b], 1, 5) == [b] by {
      RouteStep([a], b, 1, 5);
      assert !GoesToTest(2, 1, 5) && [a] + [b] == [a, b];
    }
    RouteStep([a, b], c, 1, 5);
    assert !GoesToTest(3, 1, 5) && [a, b] + [c] == [a, b, c];
  }

  /** How many lines the loop handles: a negative limit means
      `Int32.MaxValue`, and since the limit is checked only after a line has
      been written, a limit of 0 still lets the first line through. */
  function ProcessedCount(total: nat, processLinesLimit: int): (m: nat)
    ensures m <= total
    ensures processLinesLimit < 0 ==> m == Min(total, Int32Max)
    ensures processLinesLimit > 0 ==> m == Min(total, processLinesLimit)
    ensures processLinesLimit == 0 ==> m == Min(total, 1)
  {
    var limit := if processLinesLimit < 0 then Int32Max else processLinesLimit;
    Min(total, Max(1, limit))
  }

  /** The files a split writes: `.train` always, `.test` only when
      `testFracUp > 0`. */
  datatype SplitOutput = SplitOutput(train: seq<string>, test: Option<seq<string>>)

  /** `MainSplit`: reads the lines in order, routes each by GoesToTest and
      stops once `lineIndex` reaches the limit. A zero `testFracDown` throws
      on the first line. */
  method MainSplit(lines: seq<string>, testFracUp: int, testFracDown: int, processLinesLimit: int)
    returns (r: Result<SplitOutput>)
    ensures r.Err? <==> testFracDown == 0 && |lines| > 0
    ensures r.Err? ==> r.error == DivideByZero
    ensures r.Ok? ==> (r.value.test.None? <==> testFracUp <= 0)
    ensures r.Ok? && testFracDown != 0 ==>
      var processed := lines[..ProcessedCount(|lines|, processLinesLimit)];
      && r.value.train == TrainLines(processed, testFracUp, testFracDown)
      && (testFracUp > 0 ==> r.value.test == Some(TestLines(processed, testFracUp, testFracDown)))
    ensures r.Ok? && testFracDown == 0 ==> r.value.train == [] && (testFracUp > 0 ==> r.value.test == Some([]))
  {
    var limit := processLinesLimit;
    if limit < 0 {
      limit := Int32Max;
    }
    // The test writer exists only for a positive numerator.
    var hasTestWriter := testFracUp > 0;
    var train: seq<string> := [];
    var test: seq<string> := [];
    var lineIndex := 0;
    while lineIndex < |lines|
      invariant 0 <= lineIndex <= |lines|
      invariant lineIndex > 0 ==> testFracDown != 0 && lineIndex < limit
      invariant testFracDown != 0 ==> train == TrainLines(lines[..lineIndex], testFracUp, testFracDown)
      invariant testFracDown != 0 ==> test == TestLines(lines[..lineIndex], testFracUp, testFracDown)
      invariant testFracDown == 0 ==> train == [] && test == []
    {
      var sourceLine := lines[lineIndex];
      lineIndex := lineIndex + 1;
      if testFracDown == 0 {
        return Err(DivideByZero);
      }
      assert lines[..lineIndex] == lines[..lineIndex - 1] + [sourceLine];
      RouteStep(lines[..lineIndex - 1], sourceLine, testFracUp, testFracDown);
      if CsRem(lineIndex - 1, testFracDown) < testFracUp {
        assert hasTestWriter;
        test := test + [sourceLine];
      } else {
        train := train + [sourceLine];
      }
      if lineIndex >= limit {
        break;
      }
    }
    if testFracDown != 0 {
      assert lineIndex == ProcessedCount(|lines|, processLinesLimit);
      ghost var processed := lines[..lineIndex];
      assert test == TestLines(processed, testFracUp, testFracDown);
      assert train == TrainLines(processed, testFracUp, testFracDown);
    }
    r := Ok(SplitOutput(train, if hasTestWriter then Some(test) else None));
  }
}

/** `GetOrderArray`: the target order of the shuffle, built by a
    Fisher-Yates pass over the identity. */
module OrderArray {
  import opened Permutations

  /** Returns an array of `linesCount` entries holding each of
      `0..linesCount-1` exactly once. Each step draws `rnd.Next(linesCount - i)`;
      the draw is modelled as an arbitrary choice in `[0, linesCount - i)`, so
      the contract holds whatever values the generator produces. */
  method GetOrderArray(linesCount: nat) returns (orderArray: array<int>)
    ensures orderArray.Length == linesCount
    ensures IsPermutation(orderArray[..], linesCount)
    ensures linesCount <= 1 ==> orderArray[..] == Range(linesCount)
  {
    orderArray := new int[linesCount];
    for i := 0 to linesCount
      invariant forall k :: 0 <= k < i ==> orderArray[k] == k
    {
      orderArray[i] := i;
    }
    assert orderArray[..] == Range(linesCount);
    var i := 0;
    while i < linesCount - 1
      invariant 0 <= i <= linesCount
      invariant i == 0 || i <= linesCount - 1
      invariant IsPermutation(orderArray[..], linesCount)
      invariant i == 0 ==> orderArray[..] == Range(linesCount)
    {
      var draw :| 0 <= draw < linesCount - i;
      var j := i + draw;
      ghost var before := orderArray[..];
      var tmp := orderArray[i];
      orderArray[i] := orderArray[j];
      orderArray[j] := tmp;
      assert orderArray[..] == before[i := before[j]][j := before[i]];
      SwapKeepsPermutation(before, linesCount, i, j);
      i := i + 1;
    }
  }
}

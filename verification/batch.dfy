/** `ProcessBatch`: materialise one batch of output positions with a single
    forward scan of the file. */
module Batch {
  import opened Lines
  import opened Permutations

  /** `KeyValuePair<int, int>`: a source line index and the output slot
      (within the batch) that wants it. */
  datatype KeyValue = KeyValue(key: int, value: int)

  predicate SortedByKey(s: seq<KeyValue>) {
    forall a, b :: 0 <= a < b < |s| ==> s[a].key <= s[b].key
  }

  /** The work items of a batch whose source indices are `keys`. */
  function Pairs(keys: seq<int>): (r: seq<KeyValue>)
    ensures |r| == |keys|
  {
    seq(|keys|, i requires 0 <= i < |keys| => KeyValue(keys[i], i))
  }

  function Insert(x: KeyValue, s: seq<KeyValue>): (r: seq<KeyValue>)
    requires SortedByKey(s)
    ensures SortedByKey(r)
    ensures multiset(r) == multiset(s) + multiset{x}
    ensures r[0] == x || r[0] == s[0]
  {
    if s == [] || x.key <= s[0].key then [x] + s
    else
      var t := Insert(x, s[1..]);
      InsertBehindHead(x, s, t);
      [s[0]] + t
  }

  /** Putting the head of `s` back in front of `x` inserted into the tail. */
  lemma InsertBehindHead(x: KeyValue, s: seq<KeyValue>, t: seq<KeyValue>)
    requires SortedByKey(s) && s != [] && s[0].key < x.key
    requires SortedByKey(t) && multiset(t) == multiset(s[1..]) + multiset{x}
    requires t[0] == x || t[0] == s[1..][0]
    ensures SortedByKey([s[0]] + t)
    ensures multiset([s[0]] + t) == multiset(s) + multiset{x}
  {
    assert s == [s[0]] + s[1..];
    assert forall k :: 0 <= k < |t| ==> s[0].key <= t[0].key <= t[k].key;
  }

  /** Stands for `Array.Sort(batchLines, (a, b) => a.Key.CompareTo(b.Key))`.
      Only what the library sort promises is used about it: the result is
      ordered by key and is a rearrangement of the input. */
  function SortByKey(s: seq<KeyValue>): (r: seq<KeyValue>)
    ensures SortedByKey(r)
    ensures multiset(r) == multiset(s)
  {
    if s == [] then []
    else
      assert s == [s[0]] + s[1..];
      Insert(s[0], SortByKey(s[1..]))
  }

  /** The cursor `lineIndex` when the scan reaches work item `t` of `sorted`:
      the line index of the previous item, or -1 before any line is read. */
  function Cursor(sorted: seq<KeyValue>, t: nat): (c: int)
    requires t <= |sorted|
    ensures -1 <= c
    ensures c == -1 || (t > 0 && c == sorted[t - 1].key)
    ensures SortedByKey(sorted) ==> forall u :: 0 <= u < t ==> sorted[u].key <= c
  {
    if t == 0 then -1 else Max(-1, sorted[t - 1].key)
  }

  /** What the scan stores for work item `u`: the inner `while` reads up to
      the item's key only if the cursor is still behind it; otherwise `s`
      keeps the `null` it was reset to. */
  function Fetched(lines: seq<string>, sorted: seq<KeyValue>, u: nat): (r: Option<string>)
    requires u < |sorted|
    ensures r.Some? ==> 0 <= sorted[u].key < |lines| && r.value == lines[sorted[u].key]
    ensures SortedByKey(sorted) ==>
      (r.Some? <==> 0 <= sorted[u].key < |lines| && forall v :: 0 <= v < u ==> sorted[v].key < sorted[u].key)
  {
    if Cursor(sorted, u) < sorted[u].key then ReadAt(lines, sorted[u].key) else None
  }

  lemma {:induction false} MultisetOfPairs(keys: seq<int>, sorted: seq<KeyValue>)
    requires multiset(sorted) == multiset(Pairs(keys))
    ensures |sorted| == |keys|
    ensures forall u :: 0 <= u < |sorted| ==>
              0 <= sorted[u].value < |keys| && sorted[u].key == keys[sorted[u].value]
    ensures forall u, v :: 0 <= u < v < |sorted| ==> sorted[u].value != sorted[v].value
    ensures forall i :: 0 <= i < |keys| ==> KeyValue(keys[i], i) in sorted
  {
    var pairs := Pairs(keys);
    assert |sorted| == |multiset(sorted)| == |multiset(pairs)| == |keys|;
    forall u | 0 <= u < |sorted|
      ensures 0 <= sorted[u].value < |keys| && sorted[u].key == keys[sorted[u].value]
    {
      assert sorted[u] in multiset(pairs);
    }
    assert Distinct(pairs) by {
      forall a, b | 0 <= a < b < |pairs| ensures pairs[a] != pairs[b] {
        assert pairs[a].value == a && pairs[b].value == b;
      }
    }
    forall u, v | 0 <= u < v < |sorted| ensures sorted[u].value != sorted[v].value {
      if sorted[u].value == sorted[v].value {
        TwoPositionsCountTwice(sorted, u, v);
        DistinctCountsOnce(pairs, sorted[u]);
        assert false;
      }
    }
    forall i | 0 <= i < |keys| ensures KeyValue(keys[i], i) in sorted {
      assert pairs[i] in multiset(sorted);
    }
  }

  /** No other slot of the batch asks for the same source line. */
  predicate UniqueKey(keys: seq<int>, i: nat)
    requires i < |keys|
  {
    forall j :: 0 <= j < |keys| && j != i ==> keys[j] != keys[i]
  }

  /** What the scan leaves in the slot of work item `u`, for any key-sorted
      order of the work items: a line that exists and is wanted by no other
      slot is fetched; an index outside the file gives `null`; anything else
      fetched is the line the slot asked for. */
  lemma FetchedFacts(lines: seq<string>, keys: seq<int>, sorted: seq<KeyValue>, u: nat, i: nat)
    requires multiset(sorted) == multiset(Pairs(keys)) && SortedByKey(sorted)
    requires u < |sorted| && i < |keys| && sorted[u] == KeyValue(keys[i], i)
    ensures 0 <= keys[i] < |lines| && UniqueKey(keys, i) ==> Fetched(lines, sorted, u) == Some(lines[keys[i]])
    ensures Fetched(lines, sorted, u) == None || (0 <= keys[i] < |lines| && Fetched(lines, sorted, u) == Some(lines[keys[i]]))
    ensures keys[i] < 0 || keys[i] >= |lines| ==> Fetched(lines, sorted, u) == None
  {
    if u > 0 && 0 <= keys[i] < |lines| && UniqueKey(keys, i) {
      MultisetOfPairs(keys, sorted);
      assert sorted[u - 1].value != i;
      assert sorted[u - 1].key < keys[i];
    }
  }

  /** Of two work items asking for the same line, the later one in the scan
      finds the cursor already on that line and keeps `null`. */
  lemma RepeatedKeyFetchedOnce(lines: seq<string>, sorted: seq<KeyValue>, u: nat, v: nat)
    requires SortedByKey(sorted)
    requires u < v < |sorted| && sorted[u].key == sorted[v].key
    ensures Fetched(lines, sorted, v) == None
  {
    assert sorted[u].key <= sorted[v - 1].key <= sorted[v].key;
  }

  /** When slot `i` asks for a line of the file, some slot asking for that
      line holds it. */
  predicate Delivered(lines: seq<string>, keys: seq<int>, block: seq<string>, i: nat)
    requires i < |keys| == |block|
  {
    0 <= keys[i] < |lines| ==> exists j :: 0 <= j < |keys| && keys[j] == keys[i] && block[j] == lines[keys[i]]
  }

  /** What the block written for a batch holds, given the slot array left by
      the scan over `sorted` (the facts stated by ProcessBatch). */
  ghost predicate BlockFacts(lines: seq<string>, keys: seq<int>, block: seq<string>, linesRead: int) {
    && |block| == |keys|
    && (forall i :: 0 <= i < |keys| && 0 <= keys[i] < |lines| && UniqueKey(keys, i) ==> block[i] == lines[keys[i]])
    && (forall i :: 0 <= i < |keys| && (keys[i] < 0 || keys[i] >= |lines|) ==> block[i] == "")
    && (forall i :: 0 <= i < |keys| ==> block[i] == "" || (0 <= keys[i] < |lines| && block[i] == lines[keys[i]]))
    && (forall i, j :: 0 <= i < |keys| && 0 <= j < |keys| && i != j && keys[i] == keys[j] ==> block[i] == "" || block[j] == "")
    && (forall i :: 0 <= i < |keys| ==> Delivered(lines, keys, block, i))
    && (forall i :: 0 <= i < |keys| ==> keys[i] < linesRead)
    && (linesRead == 0 || exists i :: 0 <= i < |keys| && keys[i] == linesRead - 1)
  }

  /** The slot `i` of the block, read off the work item that targets it. */
  lemma SlotFacts(lines: seq<string>, keys: seq<int>, sorted: seq<KeyValue>, slots: seq<Option<string>>, block: seq<string>, i: nat)
    requires multiset(sorted) == multiset(Pairs(keys)) && SortedByKey(sorted)
    requires |slots| == |keys| == |block| && i < |keys|
    requires forall u :: 0 <= u < |sorted| ==> 0 <= sorted[u].value < |slots| && slots[sorted[u].value] == Fetched(lines, sorted, u)
    requires block[i] == Text(slots[i])
    ensures 0 <= keys[i] < |lines| && UniqueKey(keys, i) ==> block[i] == lines[keys[i]]
    ensures keys[i] < 0 || keys[i] >= |lines| ==> block[i] == ""
    ensures block[i] == "" || (0 <= keys[i] < |lines| && block[i] == lines[keys[i]])
    ensures keys[i] < Cursor(sorted, |sorted|) + 1
  {
    var u := ItemOfSlot(keys, sorted, i);
    FetchedFacts(lines, keys, sorted, u, i);
    assert sorted[u].key <= sorted[|sorted| - 1].key;
  }

  /** The position in the sorted work items of the item for slot `i`. */
  lemma ItemOfSlot(keys: seq<int>, sorted: seq<KeyValue>, i: nat) returns (u: nat)
    requires multiset(sorted) == multiset(Pairs(keys)) && i < |keys|
    ensures u < |sorted| && sorted[u] == KeyValue(keys[i], i)
  {
    MultisetOfPairs(keys, sorted);
    u :| 0 <= u < |sorted| && sorted[u] == KeyValue(keys[i], i);
  }

  lemma RepeatedSlots(lines: seq<string>, keys: seq<int>, sorted: seq<KeyValue>, slots: seq<Option<string>>, i: nat, j: nat)
    requires multiset(sorted) == multiset(Pairs(keys)) && SortedByKey(sorted)
    requires |slots| == |keys| && i < |keys| && j < |keys| && i != j && keys[i] == keys[j]
    requires forall u :: 0 <= u < |sorted| ==> 0 <= sorted[u].value < |slots| && slots[sorted[u].value] == Fetched(lines, sorted, u)
    ensures slots[i] == None || slots[j] == None
  {
    var u := ItemOfSlot(keys, sorted, i);
    var v := ItemOfSlot(keys, sorted, j);
    if u < v {
      RepeatedKeyFetchedOnce(lines, sorted, u, v);
    } else {
      RepeatedKeyFetchedOnce(lines, sorted, v, u);
    }
  }

  /** The first work item, in scan order, with the key of item `u`. */
  lemma FirstOfKey(sorted: seq<KeyValue>, u: nat) returns (u0: nat)
    requires u < |sorted|
    ensures u0 <= u && sorted[u0].key == sorted[u].key
    ensures u0 == 0 || sorted[u0 - 1].key != sorted[u].key
    decreases u
  {
    if u == 0 || sorted[u - 1].key != sorted[u].key {
      u0 := u;
    } else {
      u0 := FirstOfKey(sorted, u - 1);
    }
  }

  /** The first work item asking for a line of the file receives it: the
      cursor is still behind that line when the scan reaches the item. */
  lemma FirstOfKeyFetched(lines: seq<string>, sorted: seq<KeyValue>, u0: nat)
    requires SortedByKey(sorted) && u0 < |sorted| && 0 <= sorted[u0].key < |lines|
    requires u0 == 0 || sorted[u0 - 1].key != sorted[u0].key
    ensures Fetched(lines, sorted, u0) == Some(lines[sorted[u0].key])
  {
    if u0 > 0 {
      assert sorted[u0 - 1].key <= sorted[u0].key;
    }
  }

  /** A line of the file that some slot asks for is written to one of the
      slots asking for it, even when several do. */
  lemma SomeSlotDelivers(lines: seq<string>, keys: seq<int>, sorted: seq<KeyValue>, slots: seq<Option<string>>, block: seq<string>, i: nat)
    returns (j: nat)
    requires multiset(sorted) == multiset(Pairs(keys)) && SortedByKey(sorted)
    requires |slots| == |keys| == |block| && i < |keys| && 0 <= keys[i] < |lines|
    requires forall u :: 0 <= u < |sorted| ==> 0 <= sorted[u].value < |slots| && slots[sorted[u].value] == Fetched(lines, sorted, u)
    requires forall k :: 0 <= k < |block| ==> block[k] == Text(slots[k])
    ensures j < |keys| && keys[j] == keys[i] && block[j] == lines[keys[i]]
  {
    var u := ItemOfSlot(keys, sorted, i);
    var u0 := FirstOfKey(sorted, u);
    FirstOfKeyFetched(lines, sorted, u0);
    MultisetOfPairs(keys, sorted);
    j := sorted[u0].value;
  }

  lemma ScanGivesBlock(lines: seq<string>, keys: seq<int>, sorted: seq<KeyValue>, slots: seq<Option<string>>, block: seq<string>)
    requires multiset(sorted) == multiset(Pairs(keys)) && SortedByKey(sorted)
    requires |slots| == |keys| == |block|
    requires forall u :: 0 <= u < |sorted| ==> 0 <= sorted[u].value < |slots| && slots[sorted[u].value] == Fetched(lines, sorted, u)
    requires forall i :: 0 <= i < |block| ==> block[i] == Text(slots[i])
    ensures BlockFacts(lines, keys, block, Cursor(sorted, |sorted|) + 1)
  {
    forall i | 0 <= i < |keys|
      ensures 0 <= keys[i] < |lines| && UniqueKey(keys, i) ==> block[i] == lines[keys[i]]
      ensures keys[i] < 0 || keys[i] >= |lines| ==> block[i] == ""
      ensures block[i] == "" || (0 <= keys[i] < |lines| && block[i] == lines[keys[i]])
      ensures keys[i] < Cursor(sorted, |sorted|) + 1
    {
      SlotFacts(lines, keys, sorted, slots, block, i);
    }
    forall i, j | 0 <= i < |keys| && 0 <= j < |keys| && i != j && keys[i] == keys[j]
      ensures block[i] == "" || block[j] == ""
    {
      RepeatedSlots(lines, keys, sorted, slots, i, j);
    }
    forall i | 0 <= i < |keys| ensures Delivered(lines, keys, block, i) {
      if 0 <= keys[i] < |lines| {
        var j := SomeSlotDelivers(lines, keys, sorted, slots, block, i);
      }
    }
    if sorted != [] && Cursor(sorted, |sorted|) != -1 {
      MultisetOfPairs(keys, sorted);
      var last := sorted[|sorted| - 1];
      assert keys[last.value] == Cursor(sorted, |sorted|);
    }
  }

  /** The inner `while` of the scan: reads forward until the cursor reaches
      `key`; `s` holds the last line read, or `null` when the cursor was
      already there. */
  method ReadUpTo(reader: LineReader, lineIndex: int, key: int) returns (s: Option<string>, newIndex: int)
    requires reader.position == lineIndex + 1
    modifies reader
    ensures newIndex == Max(lineIndex, key) && reader.position == newIndex + 1
    ensures s == if lineIndex < key then ReadAt(reader.lines, key) else None
  {
    s := None;
    newIndex := lineIndex;
    while newIndex < key
      invariant lineIndex <= newIndex <= Max(lineIndex, key)
      invariant reader.position == newIndex + 1
      invariant s == if newIndex == lineIndex then None else ReadAt(reader.lines, newIndex)
    {
      s := reader.ReadLine();
      newIndex := newIndex + 1;
    }
  }

  /** The reading part of `ProcessBatch`: one fresh sequential scan of the
      file, walking the work items in key order with the cursor `lineIndex`
      and storing each line read into its slot of `writeLines`. The cursor
      only moves forward, so no line is read twice; `linesRead` is the number
      of `ReadLine` calls, which ends on the largest key. */
  method Scan(lines: seq<string>, sorted: seq<KeyValue>, writeLines: array<Option<string>>)
    returns (ghost linesRead: nat)
    requires SortedByKey(sorted)
    requires forall u :: 0 <= u < |sorted| ==> 0 <= sorted[u].value < writeLines.Length
    requires forall u, v :: 0 <= u < v < |sorted| ==> sorted[u].value != sorted[v].value
    modifies writeLines
    ensures forall u :: 0 <= u < |sorted| ==> writeLines[sorted[u].value] == Fetched(lines, sorted, u)
    ensures linesRead == Cursor(sorted, |sorted|) + 1
  {
    var reader := new LineReader(lines);
    var lineIndex := -1;
    for t := 0 to |sorted|
      invariant lineIndex == Cursor(sorted, t)
      invariant reader.lines == lines && reader.position == lineIndex + 1
      invariant forall u :: 0 <= u < t ==> writeLines[sorted[u].value] == Fetched(lines, sorted, u)
      modifies writeLines, reader
    {
      var pair := sorted[t];
      ghost var cursor := lineIndex;
      var s;
      s, lineIndex := ReadUpTo(reader, lineIndex, pair.key);
      assert s == Fetched(lines, sorted, t) by {
        assert cursor == Cursor(sorted, t);
      }
      assert lineIndex == Cursor(sorted, t + 1) by {
        assert t > 0 ==> sorted[t - 1].key <= pair.key;
      }
      ghost var before := writeLines[..];
      writeLines[pair.value] := s;
      forall u | 0 <= u < t + 1 ensures writeLines[sorted[u].value] == Fetched(lines, sorted, u) {
        if u < t {
          assert sorted[u].value != pair.value;
          assert writeLines[sorted[u].value] == before[sorted[u].value];
        }
      }
    }
    linesRead := reader.position;
  }

  /** The writing part of `ProcessBatch`: `writer.WriteLine` on each slot in
      slot order, a `null` slot giving an empty line. */
  method WriteLines(slots: seq<Option<string>>) returns (block: seq<string>)
    ensures |block| == |slots|
    ensures forall k :: 0 <= k < |slots| ==> block[k] == (if slots[k].Some? then slots[k].value else "")
  {
    block := [];
    for i := 0 to |slots|
      invariant |block| == i
      invariant forall k :: 0 <= k < i ==> block[k] == Text(slots[k])
    {
      block := block + [Text(slots[i])];
    }
  }

  /** The work items of a batch: slot `i` wants source line
      `orderArray[batchStart + i]`. */
  method BatchLines(orderArray: array<int>, batchStart: nat, batchSize: nat) returns (batchLines: array<KeyValue>)
    requires batchStart + batchSize <= orderArray.Length
    ensures batchLines[..] == Pairs(orderArray[batchStart..batchStart + batchSize])
  {
    batchLines := new KeyValue[batchSize];
    for i := 0 to batchSize
      invariant forall k :: 0 <= k < i ==> batchLines[k] == KeyValue(orderArray[batchStart + k], k)
    {
      batchLines[i] := KeyValue(orderArray[batchStart + i], i);
    }
  }

  /** `Array.Sort` on the work items: the sorted items still target each
      slot of the batch once. */
  method SortWorkItems(ghost keys: seq<int>, batchLines: seq<KeyValue>) returns (sorted: seq<KeyValue>)
    requires batchLines == Pairs(keys)
    ensures SortedByKey(sorted) && multiset(sorted) == multiset(Pairs(keys)) && |sorted| == |keys|
    ensures forall u :: 0 <= u < |sorted| ==> 0 <= sorted[u].value < |keys|
    ensures forall u, v :: 0 <= u < v < |sorted| ==> sorted[u].value != sorted[v].value
  {
    sorted := SortByKey(batchLines);
    MultisetOfPairs(keys, sorted);
  }

  /** The rest of `ProcessBatch` once the work items are sorted: scan the
      file into the slot array, then write the slots in order. */
  method ScanAndWrite(lines: seq<string>, ghost keys: seq<int>, sorted: seq<KeyValue>)
    returns (block: seq<string>, ghost linesRead: nat)
    requires SortedByKey(sorted) && multiset(sorted) == multiset(Pairs(keys)) && |sorted| == |keys|
    requires forall u :: 0 <= u < |sorted| ==> 0 <= sorted[u].value < |keys|
    requires forall u, v :: 0 <= u < v < |sorted| ==> sorted[u].value != sorted[v].value
    ensures BlockFacts(lines, keys, block, linesRead)
  {
    var writeLines := new Option<string>[|sorted|](_ => None);
    linesRead := Scan(lines, sorted, writeLines);
    var written := writeLines[..];
    block := WriteLines(written);
    ScanGivesBlock(lines, keys, sorted, written, block);
  }

  /** `ProcessBatch`: builds the work items `(orderArray[batchStart + i], i)`,
      sorts them by source index, scans the file once from the start while
      scattering each line read into `writeLines[slot]`, and writes
      `writeLines` in slot order. The lines it writes are returned as the
      block; `linesRead` is the number of `ReadLine` calls of the scan. */
  method ProcessBatch(lines: seq<string>, orderArray: array<int>, batchStart: int, batchEnd: int)
    returns (r: Result<seq<string>>, ghost linesRead: nat)
    requires 0 <= batchStart && batchEnd < orderArray.Length
    ensures r.Err? <==> batchEnd - batchStart + 1 < 0
    ensures r.Err? ==> r.error == NegativeArraySize
    ensures r.Ok? ==> BlockFacts(lines, orderArray[batchStart..batchEnd + 1], r.value, linesRead)
  {
    var batchSize := batchEnd - batchStart + 1;
    if batchSize < 0 {
      return Err(NegativeArraySize), 0;
    }
    ghost var keys := orderArray[batchStart..batchEnd + 1];
    var batchLines := BatchLines(orderArray, batchStart, batchSize);
    var sorted := SortWorkItems(keys, batchLines[..]);
    var block;
    block, linesRead := ScanAndWrite(lines, keys, sorted);
    r := Ok(block);
  }

  /** Two slots asking for the one line of a file: exactly one of them gets
      it, and the other is written empty. */
  lemma RepeatedKeyBlock(x: string, block: seq<string>, linesRead: int)
    requires BlockFacts([x], [0, 0], block, linesRead)
    ensures block == [x, ""] || block == ["", x]
  {
    var keys := [0, 0];
    assert Delivered([x], keys, block, 0);
    var j :| 0 <= j < 2 && block[j] == x;
    assert block[0] == "" || block[1] == "";
  }
}

/** The map from each segment to the operations that lie on it, and the test
    whether any segment carries more than one operation. */
module SegmentIndex {
  import opened Turns

  type Index = map<SegmentIdentifier, seq<TurnOperationIndex>>

  /** `index[key].push_back(e)`, creating an empty bucket for a new key. */
  function Push(index: Index, key: SegmentIdentifier, e: TurnOperationIndex): (r: Index)
    ensures r.Keys == index.Keys + {key}
    ensures r[key] == (if key in index then index[key] else []) + [e]
    ensures r == index[key := r[key]]
  {
    index[key := (if key in index then index[key] else []) + [e]]
  }

  /** The number of entries over all buckets. */
  ghost function TotalSize(index: Index): nat
    decreases |index|
  {
    if |index| == 0 then 0
    else
      var k :| k in index;
      |index[k]| + TotalSize(index - {k})
  }

  /** TotalSize does not depend on which bucket is counted first. */
  lemma {:induction false} TotalSizeSplit(index: Index, k: SegmentIdentifier)
    requires k in index
    ensures TotalSize(index) == |index[k]| + TotalSize(index - {k})
    decreases |index|
  {
    var k' :| k' in index && TotalSize(index) == |index[k']| + TotalSize(index - {k'});
    if k' != k {
      var rest := index - {k'} - {k};
      assert index - {k} - {k'} == rest;
      assert (index - {k'})[k] == index[k];
      assert (index - {k})[k'] == index[k'];
      TotalSizeSplit(index - {k'}, k);
      TotalSizeSplit(index - {k}, k');
    }
  }

  /** Replacing an existing bucket changes the total by the difference in size. */
  lemma TotalSizeReplace(index: Index, key: SegmentIdentifier, b: seq<TurnOperationIndex>)
    requires key in index
    ensures TotalSize(index[key := b]) == TotalSize(index) - |index[key]| + |b|
  {
    var updated := index[key := b];
    TotalSizeSplit(updated, key);
    TotalSizeSplit(index, key);
    assert updated - {key} == index - {key};
  }

  /** Adding a bucket under a new key adds its size to the total. */
  lemma TotalSizeAdd(index: Index, key: SegmentIdentifier, b: seq<TurnOperationIndex>)
    requires key !in index
    ensures TotalSize(index[key := b]) == TotalSize(index) + |b|
  {
    var updated := index[key := b];
    TotalSizeSplit(updated, key);
    assert updated - {key} == index;
  }

  /** Every push adds exactly one entry to the index. */
  lemma TotalSizePush(index: Index, key: SegmentIdentifier, e: TurnOperationIndex)
    ensures TotalSize(Push(index, key, e)) == TotalSize(index) + 1
  {
    if key in index {
      assert Push(index, key, e) == index[key := index[key] + [e]];
      TotalSizeReplace(index, key, index[key] + [e]);
    } else {
      assert [] + [e] == [e];
      assert Push(index, key, e) == index[key := [e]];
      TotalSizeAdd(index, key, [e]);
    }
  }

  /** The position of an entry in the order the index builder visits them. */
  function VisitOrder(e: TurnOperationIndex): int {
    2 * e.turnIndex + e.opIndex
  }

  /** The entries of a bucket appear in the order they were pushed. */
  predicate InVisitOrder(bucket: seq<TurnOperationIndex>) {
    forall i, j :: 0 <= i < j < |bucket| ==> VisitOrder(bucket[i]) < VisitOrder(bucket[j])
  }

  /** Every bucket is non-empty and holds only operations lying on its key. */
  ghost predicate IndexSound(turns: seq<Turn>, index: Index) {
    forall k :: k in index ==>
      |index[k]| > 0 && AllValid(turns, index[k]) &&
      forall e :: e in index[k] ==> OperationOf(turns, e).segId == k
  }

  /** Every operation of every turn is in the bucket of its segment. */
  ghost predicate IndexComplete(turns: seq<Turn>, index: Index) {
    forall e :: ValidEntry(turns, e) ==>
      OperationOf(turns, e).segId in index && e in index[OperationOf(turns, e).segId]
  }

  /** The index after the first n turns have been visited. */
  ghost predicate BuiltUpTo(turns: seq<Turn>, index: Index, n: int) {
    && (forall k :: k in index ==>
          |index[k]| > 0 && InVisitOrder(index[k]) &&
          forall e :: e in index[k] ==>
            ValidEntry(turns, e) && e.turnIndex < n && OperationOf(turns, e).segId == k)
    && (forall e :: ValidEntry(turns, e) && e.turnIndex < n ==>
          OperationOf(turns, e).segId in index && e in index[OperationOf(turns, e).segId])
  }

  /** Pushing an entry that comes after every entry already in the index
      keeps the index sound and its buckets in visit order. */
  lemma PushKeepsOrder(turns: seq<Turn>, index: Index, e: TurnOperationIndex)
    requires ValidEntry(turns, e)
    requires forall k :: k in index ==>
      |index[k]| > 0 && InVisitOrder(index[k]) &&
      forall x :: x in index[k] ==>
        ValidEntry(turns, x) && VisitOrder(x) < VisitOrder(e) && OperationOf(turns, x).segId == k
    ensures var pushed := Push(index, OperationOf(turns, e).segId, e);
      forall k :: k in pushed ==>
        |pushed[k]| > 0 && InVisitOrder(pushed[k]) &&
        forall x :: x in pushed[k] ==>
          ValidEntry(turns, x) && VisitOrder(x) <= VisitOrder(e) && OperationOf(turns, x).segId == k
  {
    var key := OperationOf(turns, e).segId;
    var bucket := if key in index then index[key] else [];
    assert Push(index, key, e)[key] == bucket + [e];
  }

  /** After visiting turn n, every operation of turns 0..n is in its bucket. */
  lemma VisitTurnComplete(turns: seq<Turn>, index: Index, n: int)
    requires 0 <= n < |turns|
    requires forall e :: ValidEntry(turns, e) && e.turnIndex < n ==>
      OperationOf(turns, e).segId in index && e in index[OperationOf(turns, e).segId]
    ensures var last := Push(Push(index, turns[n].op0.segId, TurnOperationIndex(n, 0)),
                             turns[n].op1.segId, TurnOperationIndex(n, 1));
      forall e :: ValidEntry(turns, e) && e.turnIndex < n + 1 ==>
        OperationOf(turns, e).segId in last && e in last[OperationOf(turns, e).segId]
  {
    var e0 := TurnOperationIndex(n, 0);
    var e1 := TurnOperationIndex(n, 1);
    var mid := Push(index, turns[n].op0.segId, e0);
    var last := Push(mid, turns[n].op1.segId, e1);
    forall e | ValidEntry(turns, e) && e.turnIndex < n + 1
      ensures OperationOf(turns, e).segId in last && e in last[OperationOf(turns, e).segId]
    {
      var key := OperationOf(turns, e).segId;
      if e.turnIndex < n {
        assert e in index[key];
        assert e in mid[key];
      } else if e.opIndex == 0 {
        assert e == e0;
        assert e in mid[key];
      } else {
        assert e == e1;
      }
    }
  }

  lemma VisitTurn(turns: seq<Turn>, index: Index, n: int)
    requires 0 <= n < |turns| && BuiltUpTo(turns, index, n)
    ensures BuiltUpTo(turns,
      Push(Push(index, turns[n].op0.segId, TurnOperationIndex(n, 0)),
           turns[n].op1.segId, TurnOperationIndex(n, 1)), n + 1)
  {
    var mid := Push(index, turns[n].op0.segId, TurnOperationIndex(n, 0));
    PushKeepsOrder(turns, index, TurnOperationIndex(n, 0));
    PushKeepsOrder(turns, mid, TurnOperationIndex(n, 1));
    VisitTurnComplete(turns, index, n);
  }

  /** The index builder: two entries per turn, (i, 0) under the segment of
      operation 0 and (i, 1) under the segment of operation 1. */
  method BuildIndex(turns: seq<Turn>) returns (index: Index)
    ensures IndexSound(turns, index) && IndexComplete(turns, index)
    ensures forall k :: k in index ==> InVisitOrder(index[k])
    ensures TotalSize(index) == 2 * |turns|
  {
    index := map[];
    var i := 0;
    while i < |turns|
      invariant 0 <= i <= |turns|
      invariant BuiltUpTo(turns, index, i)
      invariant TotalSize(index) == 2 * i
    {
      var e0 := TurnOperationIndex(i, 0);
      var e1 := TurnOperationIndex(i, 1);
      VisitTurn(turns, index, i);
      TotalSizePush(index, turns[i].op0.segId, e0);
      index := Push(index, turns[i].op0.segId, e0);
      TotalSizePush(index, turns[i].op1.segId, e1);
      index := Push(index, turns[i].op1.segId, e1);
      i := i + 1;
    }
  }

  /** The fast-path test: does any segment carry more than one operation? */
  method HasColocations(index: Index) returns (colocations: bool)
    ensures colocations <==> exists k :: k in index && |index[k]| > 1
  {
    colocations := false;
    var keys := index.Keys;
    while keys != {}
      invariant keys <= index.Keys
      invariant forall k :: k in index && k !in keys ==> |index[k]| <= 1
      decreases keys
    {
      var k :| k in keys;
      if |index[k]| > 1 {
        colocations := true;
        break;
      }
      keys := keys - {k};
    }
  }
}

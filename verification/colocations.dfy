/** handle_colocations: builds the segment index, takes the fast path when no
    segment carries two operations, sorts every bucket and sweeps every bucket
    of more than one entry. The result is proved equal to Resolve, whatever
    the order in which the buckets are visited and whichever sorted
    permutation the sort produces. */
module Colocations {
  import opened Turns
  import opened Ordering
  import opened SegmentIndex
  import opened Sweep
  import opened Resolution

  /** The bucket holds exactly the operations that lie on segment key. */
  ghost predicate BucketOf(turns: seq<Turn>, key: SegmentIdentifier, bucket: seq<TurnOperationIndex>) {
    AllValid(turns, bucket) &&
    (forall i :: 0 <= i < |bucket| ==> OperationOf(turns, bucket[i]).segId == key) &&
    (forall e :: ValidEntry(turns, e) && OperationOf(turns, e).segId == key ==> e in bucket)
  }

  /** In a sorted bucket every position with p's fraction lies at or after
      the anchor of p. */
  lemma AnchorAtOrBefore(turns: seq<Turn>, bucket: seq<TurnOperationIndex>, p: nat, q: nat)
    requires AllValid(turns, bucket) && SortedBy(turns, bucket) && p < |bucket| && q < |bucket|
    requires FractionOf(turns, bucket[q]) == FractionOf(turns, bucket[p])
    ensures Anchor(turns, bucket, p) <= q
  {
    var a := Anchor(turns, bucket, p);
    if q < a {
      SortedFractions(turns, bucket, q, a - 1);
      SortedFractions(turns, bucket, a - 1, p);
      assert false;
    }
  }

  /** In a sorted bucket, the sweep's anchor for position p precedes, under
      the comparator, every operation at p's place: no union/union operation
      there is missed, and none has a lower turn index. */
  lemma AnchorLeadsCluster(turns: seq<Turn>, key: SegmentIdentifier, bucket: seq<TurnOperationIndex>,
                           p: nat, y: TurnOperationIndex)
    requires BucketOf(turns, key, bucket) && SortedBy(turns, bucket) && p < |bucket|
    requires ValidEntry(turns, y) && SamePlace(turns, y, bucket[p]) && turns[y.turnIndex].Both(Union)
    ensures var a := bucket[Anchor(turns, bucket, p)];
      turns[a.turnIndex].Both(Union) && a.turnIndex <= y.turnIndex
  {
    var a := Anchor(turns, bucket, p);
    var q :| 0 <= q < |bucket| && bucket[q] == y;
    AnchorAtOrBefore(turns, bucket, p, q);
    if q != a {
      assert !Less(turns, y, bucket[a]);
      NotLessAtSameFraction(turns, bucket[a], y);
    }
  }

  /** In a sorted bucket the sweep flags position p colocated exactly when
      the operation there is dominated. */
  lemma ColocatesIffDominated(turns: seq<Turn>, key: SegmentIdentifier, bucket: seq<TurnOperationIndex>, p: nat)
    requires BucketOf(turns, key, bucket) && SortedBy(turns, bucket) && p < |bucket|
    ensures ColocatesAt(turns, bucket, p) <==> Dominated(turns, bucket[p])
  {
    var a := Anchor(turns, bucket, p);
    if ColocatesAt(turns, bucket, p) {
      assert SamePlace(turns, bucket[a], bucket[p]);
    }
    if Dominated(turns, bucket[p]) {
      var y :| ValidEntry(turns, y) && SamePlace(turns, y, bucket[p]) && turns[y.turnIndex].Both(Union);
      AnchorLeadsCluster(turns, key, bucket, p, y);
    }
  }

  /** In a sorted bucket the sweep flags position p discarded exactly when
      the operation there is discarded by Resolve. */
  lemma DiscardsIffDiscarded(turns: seq<Turn>, key: SegmentIdentifier, bucket: seq<TurnOperationIndex>, p: nat)
    requires BucketOf(turns, key, bucket) && SortedBy(turns, bucket) && p < |bucket|
    ensures DiscardsAt(turns, bucket, p) <==> DiscardedOperation(turns, bucket[p])
  {
    var x := bucket[p];
    var a := bucket[Anchor(turns, bucket, p)];
    ColocatesIffDominated(turns, key, bucket, p);
    if ColocatesAt(turns, bucket, p) {
      assert SamePlace(turns, a, x);
      forall b | ValidEntry(turns, b) && SamePlace(turns, b, x) && turns[b.turnIndex].Both(Union)
        ensures a.turnIndex <= b.turnIndex
      {
        AnchorLeadsCluster(turns, key, bucket, p, b);
      }
      assert IsClusterAnchor(turns, a, x);
      if DiscardedOperation(turns, x) {
        var a' :| IsClusterAnchor(turns, a', x) && DiscardRule(OtherId(turns, a'), OtherId(turns, x));
        AnchorLeadsCluster(turns, key, bucket, p, a');
        OtherIdOnSharedSegment(turns, a, a');
      }
    }
  }

  /** Operation x lies on segment key and is dominated. */
  ghost predicate DominatedOn(turns: seq<Turn>, key: SegmentIdentifier, x: TurnOperationIndex)
    requires ValidEntry(turns, x)
  {
    OperationOf(turns, x).segId == key && Dominated(turns, x)
  }

  /** Operation x lies on segment key and is discarded. */
  ghost predicate DiscardedOn(turns: seq<Turn>, key: SegmentIdentifier, x: TurnOperationIndex)
    requires ValidEntry(turns, x)
  {
    OperationOf(turns, x).segId == key && DiscardedOperation(turns, x)
  }

  /** The sweep of a sorted bucket flags turn t colocated only for an operation
      of t on the bucket's segment that is dominated. */
  lemma SweepColocatesSound(turns: seq<Turn>, key: SegmentIdentifier, bucket: seq<TurnOperationIndex>, t: int)
    requires BucketOf(turns, key, bucket) && SortedBy(turns, bucket) && 0 <= t < |turns|
    requires MarksColocated(turns, bucket, t, |bucket|)
    ensures DominatedOn(turns, key, TurnOperationIndex(t, 0)) || DominatedOn(turns, key, TurnOperationIndex(t, 1))
  {
    var p :| 0 <= p < |bucket| && bucket[p].turnIndex == t && ColocatesAt(turns, bucket, p);
    ColocatesIffDominated(turns, key, bucket, p);
    assert DominatedOn(turns, key, bucket[p]);
  }

  /** The sweep of a sorted bucket flags turn t colocated for every operation of
      t on the bucket's segment that is dominated. */
  lemma SweepColocatesComplete(turns: seq<Turn>, key: SegmentIdentifier, bucket: seq<TurnOperationIndex>, x: TurnOperationIndex)
    requires BucketOf(turns, key, bucket) && SortedBy(turns, bucket) && ValidEntry(turns, x)
    requires DominatedOn(turns, key, x)
    ensures MarksColocated(turns, bucket, x.turnIndex, |bucket|)
  {
    var p :| 0 <= p < |bucket| && bucket[p] == x;
    ColocatesIffDominated(turns, key, bucket, p);
  }

  /** The sweep of a sorted bucket flags turn t discarded only for an operation
      of t on the bucket's segment that is discarded by Resolve. */
  lemma SweepDiscardsSound(turns: seq<Turn>, key: SegmentIdentifier, bucket: seq<TurnOperationIndex>, t: int)
    requires BucketOf(turns, key, bucket) && SortedBy(turns, bucket) && 0 <= t < |turns|
    requires MarksDiscarded(turns, bucket, t, |bucket|)
    ensures DiscardedOn(turns, key, TurnOperationIndex(t, 0)) || DiscardedOn(turns, key, TurnOperationIndex(t, 1))
  {
    var p :| 0 <= p < |bucket| && bucket[p].turnIndex == t && DiscardsAt(turns, bucket, p);
    var x := bucket[p];
    DiscardsIffDiscarded(turns, key, bucket, p);
    assert DiscardedOn(turns, key, x);
    if x.opIndex == 0 {
      assert x == TurnOperationIndex(t, 0);
    } else {
      assert x == TurnOperationIndex(t, 1);
    }
  }

  /** The sweep of a sorted bucket flags turn t discarded for every operation of
      t on the bucket's segment that is discarded by Resolve. */
  lemma SweepDiscardsComplete(turns: seq<Turn>, key: SegmentIdentifier, bucket: seq<TurnOperationIndex>, x: TurnOperationIndex)
    requires BucketOf(turns, key, bucket) && SortedBy(turns, bucket) && ValidEntry(turns, x)
    requires DiscardedOn(turns, key, x)
    ensures MarksDiscarded(turns, bucket, x.turnIndex, |bucket|)
  {
    var p :| 0 <= p < |bucket| && bucket[p] == x;
    DiscardsIffDiscarded(turns, key, bucket, p);
  }

  /** Every bucket of the index holds exactly the operations on its key. */
  ghost predicate IndexExact(turns: seq<Turn>, index: Index) {
    forall k :: k in index ==> BucketOf(turns, k, index[k])
  }

  /** Turn t has been flagged colocated by the sweep of some bucket in done. */
  ghost predicate SweptColocates(turns: seq<Turn>, index: Index, done: set<SegmentIdentifier>, t: int)
    requires forall k :: k in index ==> AllValid(turns, index[k])
  {
    exists k :: k in done && k in index && MarksColocated(turns, index[k], t, |index[k]|)
  }

  /** Turn t has been flagged discarded by the sweep of some bucket in done. */
  ghost predicate SweptDiscards(turns: seq<Turn>, index: Index, done: set<SegmentIdentifier>, t: int)
    requires forall k :: k in index ==> AllValid(turns, index[k])
  {
    exists k :: k in done && k in index && MarksDiscarded(turns, index[k], t, |index[k]|)
  }

  /** Sweeping every sorted bucket of an exact index flags each turn as
      Resolve does. */
  lemma SweptAllMatchesResolve(turns: seq<Turn>, index: Index, t: int)
    requires IndexExact(turns, index) && 0 <= t < |turns|
    requires forall k :: k in index ==> SortedBy(turns, index[k])
    requires forall e :: ValidEntry(turns, e) ==> OperationOf(turns, e).segId in index
    ensures SweptColocates(turns, index, index.Keys, t) <==> ResolverColocates(turns, t)
    ensures SweptDiscards(turns, index, index.Keys, t) <==> ResolverDiscards(turns, t)
  {
    var x0, x1 := TurnOperationIndex(t, 0), TurnOperationIndex(t, 1);
    var k0, k1 := OperationOf(turns, x0).segId, OperationOf(turns, x1).segId;
    if Dominated(turns, x0) {
      SweepColocatesComplete(turns, k0, index[k0], x0);
    }
    if Dominated(turns, x1) {
      SweepColocatesComplete(turns, k1, index[k1], x1);
    }
    if DiscardedOperation(turns, x0) {
      SweepDiscardsComplete(turns, k0, index[k0], x0);
    }
    if DiscardedOperation(turns, x1) {
      SweepDiscardsComplete(turns, k1, index[k1], x1);
    }
    if SweptColocates(turns, index, index.Keys, t) {
      var k :| k in index && MarksColocated(turns, index[k], t, |index[k]|);
      SweepColocatesSound(turns, k, index[k], t);
    }
    if SweptDiscards(turns, index, index.Keys, t) {
      var k :| k in index && MarksDiscarded(turns, index[k], t, |index[k]|);
      SweepDiscardsSound(turns, k, index[k], t);
    }
  }

  /** The turn list left by sweeping every sorted bucket is Resolve's. */
  lemma SweptIsResolve(turns: seq<Turn>, index: Index, swept: seq<Turn>)
    requires IndexExact(turns, index)
    requires forall k :: k in index ==> SortedBy(turns, index[k])
    requires IndexComplete(turns, index)
    requires |swept| == |turns|
    requires forall t :: 0 <= t < |turns| ==>
      swept[t] == Marked(turns[t], SweptColocates(turns, index, index.Keys, t), SweptDiscards(turns, index, index.Keys, t))
    ensures swept == Resolve(turns)
  {
    forall t | 0 <= t < |turns| ensures swept[t] == Resolve(turns)[t] {
      SweptAllMatchesResolve(turns, index, t);
    }
  }

  /** The fast path: with no bucket of more than one entry, Resolve changes
      nothing. */
  lemma FastPathNoChange(turns: seq<Turn>, index: Index)
    requires IndexSound(turns, index) && IndexComplete(turns, index)
    requires forall k :: k in index ==> |index[k]| <= 1
    ensures Resolve(turns) == turns
  {
    forall x, y | ValidEntry(turns, x) && ValidEntry(turns, y) && x != y
      ensures OperationOf(turns, x).segId != OperationOf(turns, y).segId
    {
    }
    NoSharedSegmentNoChange(turns);
  }

  /** A permutation of a bucket of a sound and complete index holds exactly
      the operations on its segment. */
  lemma PermutedBucket(turns: seq<Turn>, index: Index, k: SegmentIdentifier, bucket: seq<TurnOperationIndex>)
    requires IndexSound(turns, index) && IndexComplete(turns, index) && k in index
    requires multiset(bucket) == multiset(index[k])
    ensures BucketOf(turns, k, bucket)
  {
    forall i | 0 <= i < |bucket| ensures ValidEntry(turns, bucket[i]) && OperationOf(turns, bucket[i]).segId == k {
      assert bucket[i] in multiset(index[k]);
    }
    forall e | ValidEntry(turns, e) && OperationOf(turns, e).segId == k ensures e in bucket {
      assert e in multiset(index[k]);
    }
  }

  /** Permuting every bucket of a sound and complete index leaves it exact
      and complete. */
  lemma PermutedIndexExact(turns: seq<Turn>, index: Index, sorted: Index)
    requires IndexSound(turns, index) && IndexComplete(turns, index)
    requires sorted.Keys == index.Keys
    requires forall k :: k in sorted ==> multiset(sorted[k]) == multiset(index[k])
    ensures IndexExact(turns, sorted) && IndexComplete(turns, sorted)
  {
    forall k | k in sorted ensures BucketOf(turns, k, sorted[k]) {
      PermutedBucket(turns, index, k, sorted[k]);
    }
    forall e | ValidEntry(turns, e) ensures OperationOf(turns, e).segId in sorted && e in sorted[OperationOf(turns, e).segId] {
      PermutedBucket(turns, index, OperationOf(turns, e).segId, sorted[OperationOf(turns, e).segId]);
    }
  }

  /** Sorts every bucket of the index (the per-segment std::sort loop). */
  method SortBuckets(turns: seq<Turn>, index: Index) returns (sorted: Index)
    requires IndexSound(turns, index) && IndexComplete(turns, index)
    ensures sorted.Keys == index.Keys
    ensures forall k :: k in sorted ==> multiset(sorted[k]) == multiset(index[k])
    ensures IndexExact(turns, sorted) && IndexComplete(turns, sorted)
    ensures forall k :: k in sorted ==> SortedBy(turns, sorted[k])
  {
    sorted := index;
    var keys := index.Keys;
    while keys != {}
      invariant keys <= sorted.Keys && sorted.Keys == index.Keys
      invariant forall k :: k in sorted ==> multiset(sorted[k]) == multiset(index[k])
      invariant forall k :: k in sorted ==> AllValid(turns, sorted[k])
      invariant forall k :: k in sorted && k !in keys ==> SortedBy(turns, sorted[k])
      decreases keys
    {
      var k :| k in keys;
      var bucket := SortBucket(turns, sorted[k]);
      sorted := sorted[k := bucket];
      keys := keys - {k};
    }
    PermutedIndexExact(turns, index, sorted);
  }

  /** Adding bucket k to the swept set adds that bucket's marks. */
  lemma SweptStep(turns: seq<Turn>, index: Index, done: set<SegmentIdentifier>, k: SegmentIdentifier, t: int)
    requires forall k :: k in index ==> AllValid(turns, index[k])
    requires k in index
    ensures SweptColocates(turns, index, done + {k}, t) <==>
      SweptColocates(turns, index, done, t) || MarksColocated(turns, index[k], t, |index[k]|)
    ensures SweptDiscards(turns, index, done + {k}, t) <==>
      SweptDiscards(turns, index, done, t) || MarksDiscarded(turns, index[k], t, |index[k]|)
  {
  }

  /** Sweeps every bucket of more than one entry, in any order. */
  method SweepBuckets(turns: array<Turn>, index: Index, ghost g: seq<Turn>)
    requires |g| == turns.Length && forall t :: 0 <= t < turns.Length ==> turns[t] == g[t]
    requires forall k :: k in index ==> AllValid(g, index[k])
    modifies turns
    ensures forall t :: 0 <= t < turns.Length ==>
      turns[t] == Marked(g[t], SweptColocates(g, index, index.Keys, t), SweptDiscards(g, index, index.Keys, t))
  {
    var keys := index.Keys;
    while keys != {}
      invariant keys <= index.Keys
      invariant forall t :: 0 <= t < turns.Length ==>
        turns[t] == Marked(g[t], SweptColocates(g, index, index.Keys - keys, t),
                                 SweptDiscards(g, index, index.Keys - keys, t))
      decreases keys
    {
      var k :| k in keys;
      forall t | 0 <= t < turns.Length
        ensures SweptColocates(g, index, index.Keys - (keys - {k}), t) <==>
          SweptColocates(g, index, index.Keys - keys, t) || MarksColocated(g, index[k], t, |index[k]|)
        ensures SweptDiscards(g, index, index.Keys - (keys - {k}), t) <==>
          SweptDiscards(g, index, index.Keys - keys, t) || MarksDiscarded(g, index[k], t, |index[k]|)
      {
        assert index.Keys - (keys - {k}) == (index.Keys - keys) + {k};
        SweptStep(g, index, index.Keys - keys, k, t);
      }
      if |index[k]| > 1 {
        SweepCluster(turns, index[k], g);
      } else {
        forall t | 0 <= t < turns.Length
          ensures !MarksColocated(g, index[k], t, |index[k]|) && !MarksDiscarded(g, index[k], t, |index[k]|)
        {
          SingleEntryMarksNothing(g, index[k], t);
        }
      }
      keys := keys - {k};
    }
  }

  /** The part of handle_colocations after the fast path: sorts every bucket
      and sweeps every bucket of more than one entry. */
  method SortAndSweep(turns: array<Turn>, index: Index)
    requires IndexSound(turns[..], index) && IndexComplete(turns[..], index)
    modifies turns
    ensures turns[..] == Resolve(old(turns[..]))
  {
    ghost var g := turns[..];
    var sorted := SortBuckets(turns[..], index);
    SweepBuckets(turns, sorted, g);
    SweptIsResolve(g, sorted, turns[..]);
  }

  /** handle_colocations, on the caller's turn list in place. */
  method HandleColocations(turns: array<Turn>)
    modifies turns
    ensures turns[..] == Resolve(old(turns[..]))
  {
    var index := BuildIndex(turns[..]);
    var colocations := HasColocations(index);
    if !colocations {
      FastPathNoChange(turns[..], index);
      return;
    }
    SortAndSweep(turns, index);
  }
}

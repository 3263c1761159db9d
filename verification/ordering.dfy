/** The order in which the operations of one segment are visited: by
    fraction, then union/union turns first, then by turn index. */
module Ordering {
  import opened Turns

  /** 0 for a union/union turn, 1 for any other turn. */
  function TypeCode(turn: Turn): (code: int)
    ensures code == 0 <==> turn.Both(Union)
    ensures code == 0 || code == 1
  {
    if turn.Both(Union) then 0 else 1
  }

  /** The comparator less_by_fraction_and_type. */
  function Less(turns: seq<Turn>, left: TurnOperationIndex, right: TurnOperationIndex): (r: bool)
    requires ValidEntry(turns, left) && ValidEntry(turns, right)
    ensures FractionOf(turns, left) < FractionOf(turns, right) ==> r
    ensures r ==> FractionOf(turns, left) <= FractionOf(turns, right)
    ensures left.turnIndex == right.turnIndex ==> (r <==> FractionOf(turns, left) < FractionOf(turns, right))
  {
    var leftTurn := turns[left.turnIndex];
    var rightTurn := turns[right.turnIndex];
    var leftOp := leftTurn.Operation(left.opIndex);
    var rightOp := rightTurn.Operation(right.opIndex);
    if leftOp.fraction != rightOp.fraction then
      leftOp.fraction < rightOp.fraction
    else
      var leftCode := TypeCode(leftTurn);
      var rightCode := TypeCode(rightTurn);
      if leftCode != rightCode then leftCode < rightCode
      else left.turnIndex < right.turnIndex
  }

  /** At the same fraction a union/union turn precedes every other turn. */
  lemma UnionUnionFirst(turns: seq<Turn>, a: TurnOperationIndex, b: TurnOperationIndex)
    requires ValidEntry(turns, a) && ValidEntry(turns, b)
    requires FractionOf(turns, a) == FractionOf(turns, b)
    requires turns[a.turnIndex].Both(Union) && !turns[b.turnIndex].Both(Union)
    ensures Less(turns, a, b) && !Less(turns, b, a)
  {
  }

  /** Among turns of the same kind at the same fraction the lower turn index
      comes first. */
  lemma LowerTurnIndexFirst(turns: seq<Turn>, a: TurnOperationIndex, b: TurnOperationIndex)
    requires ValidEntry(turns, a) && ValidEntry(turns, b)
    requires FractionOf(turns, a) == FractionOf(turns, b)
    requires TypeCode(turns[a.turnIndex]) == TypeCode(turns[b.turnIndex])
    ensures Less(turns, a, b) <==> a.turnIndex < b.turnIndex
  {
  }

  /** An operation that is not less than another at the same fraction does
      not displace it from the front: when the later one is union/union, so
      is the earlier, and with a turn index no higher. */
  lemma NotLessAtSameFraction(turns: seq<Turn>, first: TurnOperationIndex, later: TurnOperationIndex)
    requires ValidEntry(turns, first) && ValidEntry(turns, later)
    requires FractionOf(turns, first) == FractionOf(turns, later)
    requires !Less(turns, later, first)
    ensures turns[later.turnIndex].Both(Union) ==>
      turns[first.turnIndex].Both(Union) && first.turnIndex <= later.turnIndex
  {
  }

  lemma LessIrreflexive(turns: seq<Turn>, a: TurnOperationIndex)
    requires ValidEntry(turns, a)
    ensures !Less(turns, a, a)
  {
  }

  lemma LessAsymmetric(turns: seq<Turn>, a: TurnOperationIndex, b: TurnOperationIndex)
    requires ValidEntry(turns, a) && ValidEntry(turns, b)
    ensures Less(turns, a, b) ==> !Less(turns, b, a)
  {
  }

  lemma LessTransitive(turns: seq<Turn>, a: TurnOperationIndex, b: TurnOperationIndex, c: TurnOperationIndex)
    requires ValidEntry(turns, a) && ValidEntry(turns, b) && ValidEntry(turns, c)
    ensures Less(turns, a, b) && Less(turns, b, c) ==> Less(turns, a, c)
  {
  }

  /** Two references are incomparable exactly when they share fraction and
      turn, so incomparability is an equivalence and the comparator is a
      strict weak order. */
  lemma IncomparableIffSameFractionAndTurn(turns: seq<Turn>, a: TurnOperationIndex, b: TurnOperationIndex)
    requires ValidEntry(turns, a) && ValidEntry(turns, b)
    ensures !Less(turns, a, b) && !Less(turns, b, a)
      <==> FractionOf(turns, a) == FractionOf(turns, b) && a.turnIndex == b.turnIndex
  {
  }

  /** A bucket in which no later entry is less than an earlier one. */
  ghost predicate SortedBy(turns: seq<Turn>, bucket: seq<TurnOperationIndex>)
    requires AllValid(turns, bucket)
  {
    forall i, j :: 0 <= i < j < |bucket| ==> !Less(turns, bucket[j], bucket[i])
  }

  /** In a sorted bucket fractions never decrease. */
  lemma SortedFractions(turns: seq<Turn>, bucket: seq<TurnOperationIndex>, i: int, j: int)
    requires AllValid(turns, bucket) && SortedBy(turns, bucket)
    requires 0 <= i <= j < |bucket|
    ensures FractionOf(turns, bucket[i]) <= FractionOf(turns, bucket[j])
  {
    if i < j {
      assert !Less(turns, bucket[j], bucket[i]);
    }
  }

  /** Putting x in front of the first entry it is less than keeps a sorted
      bucket sorted. */
  lemma InsertKeepsSorted(turns: seq<Turn>, s: seq<TurnOperationIndex>, p: int, x: TurnOperationIndex)
    requires AllValid(turns, s) && ValidEntry(turns, x) && SortedBy(turns, s)
    requires 0 <= p <= |s|
    requires forall q :: 0 <= q < p ==> !Less(turns, x, s[q])
    requires p < |s| ==> Less(turns, x, s[p])
    ensures AllValid(turns, s[..p] + [x] + s[p..])
    ensures SortedBy(turns, s[..p] + [x] + s[p..])
  {
    var r := s[..p] + [x] + s[p..];
    assert forall q :: 0 <= q < |r| ==> r[q] == (if q < p then s[q] else if q == p then x else s[q - 1]);
    assert AllValid(turns, r) by {
      forall e | e in r ensures ValidEntry(turns, e) {
        var q :| 0 <= q < |r| && r[q] == e;
      }
    }
    forall i, j | 0 <= i < j < |r| ensures !Less(turns, r[j], r[i]) {
      if j < p || i > p {
        // both come from s, in the same order
      } else if i == p {
        // r[j] == s[j - 1] with j - 1 >= p
        if Less(turns, r[j], x) {
          if j - 1 == p {
            LessAsymmetric(turns, x, s[p]);
          } else {
            LessTransitive(turns, s[j - 1], x, s[p]);
          }
        }
      } else if j == p {
        // r[i] == s[i] with i < p: x is not less than it
      } else {
        // i < p < j
      }
    }
  }

  /** std::sort of one bucket, as an insertion sort: the result is a
      permutation of the bucket, sorted under the comparator. */
  method SortBucket(turns: seq<Turn>, bucket: seq<TurnOperationIndex>) returns (sorted: seq<TurnOperationIndex>)
    requires AllValid(turns, bucket)
    ensures multiset(sorted) == multiset(bucket)
    ensures AllValid(turns, sorted) && SortedBy(turns, sorted)
  {
    sorted := [];
    var i := 0;
    while i < |bucket|
      invariant 0 <= i <= |bucket|
      invariant multiset(sorted) == multiset(bucket[..i])
      invariant AllValid(turns, sorted) && SortedBy(turns, sorted)
    {
      var x := bucket[i];
      var p := 0;
      while p < |sorted| && !Less(turns, x, sorted[p])
        invariant 0 <= p <= |sorted|
        invariant forall q :: 0 <= q < p ==> !Less(turns, x, sorted[q])
      {
        p := p + 1;
      }
      InsertKeepsSorted(turns, sorted, p, x);
      assert sorted == sorted[..p] + sorted[p..];
      sorted := sorted[..p] + [x] + sorted[p..];
      assert bucket[..i + 1] == bucket[..i] + [x];
      i := i + 1;
    }
    assert bucket[..i] == bucket;
  }
}

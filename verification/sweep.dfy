/** The sweep over one sorted bucket: a cluster anchor is carried along the
    bucket and replaced whenever the fraction changes; within a cluster, turns
    dominated by a union/union anchor are flagged. */
module Sweep {
  import opened Turns

  /** The position of the cluster anchor when the sweep reaches position p:
      the anchor is replaced only where the fraction differs from its own. */
  function Anchor(turns: seq<Turn>, bucket: seq<TurnOperationIndex>, p: nat): (a: nat)
    requires AllValid(turns, bucket) && p < |bucket|
    ensures a <= p
    ensures forall q :: a <= q <= p ==> FractionOf(turns, bucket[q]) == FractionOf(turns, bucket[p])
    ensures a == 0 || FractionOf(turns, bucket[a - 1]) != FractionOf(turns, bucket[p])
    decreases p
  {
    if p == 0 then 0
    else
      var a := Anchor(turns, bucket, p - 1);
      if FractionOf(turns, bucket[a]) == FractionOf(turns, bucket[p]) then a else p
  }

  /** The discard rule: the anchor's other side is the exterior ring of a
      polygon whose interior ring the current turn's other side lies on. */
  predicate DiscardRule(clusterOtherId: SegmentIdentifier, otherId: SegmentIdentifier): (r: bool)
    ensures r ==> clusterOtherId != otherId
    ensures r ==> clusterOtherId.ringIndex < otherId.ringIndex
  {
    clusterOtherId.multiIndex == otherId.multiIndex &&
    clusterOtherId.ringIndex == -1 &&
    otherId.ringIndex >= 0
  }

  /** The sweep sets `colocated` on the turn at position p. */
  predicate ColocatesAt(turns: seq<Turn>, bucket: seq<TurnOperationIndex>, p: nat): (r: bool)
    requires AllValid(turns, bucket) && p < |bucket|
    ensures r ==> 0 < p
    ensures r ==> turns[bucket[Anchor(turns, bucket, p)].turnIndex].Both(Union)
    ensures r ==> !turns[bucket[p].turnIndex].Both(Union) && !turns[bucket[p].turnIndex].Both(Continue)
  {
    var a := Anchor(turns, bucket, p);
    var anchorTurn := turns[bucket[a].turnIndex];
    var turn := turns[bucket[p].turnIndex];
    a != p && anchorTurn.Both(Union) && !turn.Both(Union) && !turn.Both(Continue)
  }

  /** The sweep sets `discarded` on the turn at position p. */
  predicate DiscardsAt(turns: seq<Turn>, bucket: seq<TurnOperationIndex>, p: nat): (r: bool)
    requires AllValid(turns, bucket) && p < |bucket|
    ensures r ==> ColocatesAt(turns, bucket, p)
  {
    ColocatesAt(turns, bucket, p) &&
    DiscardRule(OtherId(turns, bucket[Anchor(turns, bucket, p)]), OtherId(turns, bucket[p]))
  }

  /** Some position before n refers to turn t and is flagged colocated. */
  ghost predicate MarksColocated(turns: seq<Turn>, bucket: seq<TurnOperationIndex>, t: int, n: nat)
    requires AllValid(turns, bucket) && n <= |bucket|
  {
    exists p :: 0 <= p < n && bucket[p].turnIndex == t && ColocatesAt(turns, bucket, p)
  }

  /** Some position before n refers to turn t and is flagged discarded. */
  ghost predicate MarksDiscarded(turns: seq<Turn>, bucket: seq<TurnOperationIndex>, t: int, n: nat)
    requires AllValid(turns, bucket) && n <= |bucket|
  {
    exists p :: 0 <= p < n && bucket[p].turnIndex == t && DiscardsAt(turns, bucket, p)
  }

  lemma MarksStep(turns: seq<Turn>, bucket: seq<TurnOperationIndex>, t: int, n: nat)
    requires AllValid(turns, bucket) && n < |bucket|
    ensures MarksColocated(turns, bucket, t, n + 1) <==>
      MarksColocated(turns, bucket, t, n) || (bucket[n].turnIndex == t && ColocatesAt(turns, bucket, n))
    ensures MarksDiscarded(turns, bucket, t, n + 1) <==>
      MarksDiscarded(turns, bucket, t, n) || (bucket[n].turnIndex == t && DiscardsAt(turns, bucket, n))
  {
  }

  /** The turn list s with every flag set that the sweep sets at the
      positions before n. */
  ghost function MarkedUpTo(s: seq<Turn>, g: seq<Turn>, bucket: seq<TurnOperationIndex>, n: nat): (r: seq<Turn>)
    requires |s| == |g| && AllValid(g, bucket) && n <= |bucket|
    ensures |r| == |s|
  {
    seq(|s|, t requires 0 <= t < |s| =>
      Marked(s[t], MarksColocated(g, bucket, t, n), MarksDiscarded(g, bucket, t, n)))
  }

  /** Position n of the sweep changes one turn, the one it refers to. */
  lemma MarkedUpToStep(s: seq<Turn>, g: seq<Turn>, bucket: seq<TurnOperationIndex>, n: nat)
    requires |s| == |g| && AllValid(g, bucket) && n < |bucket|
    ensures var t := bucket[n].turnIndex;
      var m := MarkedUpTo(s, g, bucket, n);
      MarkedUpTo(s, g, bucket, n + 1) == m[t := Marked(m[t], ColocatesAt(g, bucket, n), DiscardsAt(g, bucket, n))]
  {
    var t := bucket[n].turnIndex;
    var m := MarkedUpTo(s, g, bucket, n);
    var m' := MarkedUpTo(s, g, bucket, n + 1);
    forall u | 0 <= u < |s|
      ensures m'[u] == m[t := Marked(m[t], ColocatesAt(g, bucket, n), DiscardsAt(g, bucket, n))][u]
    {
      MarksStep(g, bucket, u, n);
    }
  }

  /** A bucket of one entry flags nothing. */
  lemma SingleEntryMarksNothing(turns: seq<Turn>, bucket: seq<TurnOperationIndex>, t: int)
    requires AllValid(turns, bucket) && |bucket| <= 1
    ensures !MarksColocated(turns, bucket, t, |bucket|)
    ensures !MarksDiscarded(turns, bucket, t, |bucket|)
  {
  }

  /** The sweep's cluster variables hold the anchor of position n: its turn
      (up to flags), its operation and the segment of its other operation. */
  ghost predicate ClusterState(g: seq<Turn>, bucket: seq<TurnOperationIndex>, n: nat,
                               clusterTurn: Turn, clusterOp: TurnOperation, clusterOtherId: SegmentIdentifier)
    requires AllValid(g, bucket) && n < |bucket|
  {
    var a := bucket[Anchor(g, bucket, n)];
    SameOperations(clusterTurn, g[a.turnIndex]) &&
    clusterOp == OperationOf(g, a) &&
    clusterOtherId == OtherId(g, a)
  }

  /** One step of the sweep at position i > 0, with the cluster variables
      holding the anchor of position i - 1: its decisions are those of
      ColocatesAt and DiscardsAt, and the cluster variables move to position
      i exactly when the fraction changes. */
  lemma SweepStep(g: seq<Turn>, bucket: seq<TurnOperationIndex>, i: nat,
                  clusterTurn: Turn, clusterOp: TurnOperation, clusterOtherId: SegmentIdentifier, turn: Turn)
    requires AllValid(g, bucket) && 0 < i < |bucket|
    requires ClusterState(g, bucket, i - 1, clusterTurn, clusterOp, clusterOtherId)
    requires SameOperations(turn, g[bucket[i].turnIndex])
    ensures ColocatesAt(g, bucket, i) <==>
      clusterOp.fraction == FractionOf(g, bucket[i]) &&
      clusterTurn.Both(Union) && !turn.Both(Union) && !turn.Both(Continue)
    ensures DiscardsAt(g, bucket, i) <==>
      ColocatesAt(g, bucket, i) && DiscardRule(clusterOtherId, OtherId(g, bucket[i]))
    ensures clusterOp.fraction == FractionOf(g, bucket[i]) ==>
      ClusterState(g, bucket, i, clusterTurn, clusterOp, clusterOtherId)
    ensures clusterOp.fraction != FractionOf(g, bucket[i]) ==>
      ClusterState(g, bucket, i, turn, OperationOf(g, bucket[i]), OtherId(g, bucket[i]))
  {
  }

  /** What the sweep's loop does from position i on, starting from turn list
      s and the given cluster variables: the turn list it leaves. */
  ghost function SweepFrom(bucket: seq<TurnOperationIndex>, i: nat, s: seq<Turn>,
                           clusterTurn: Turn, clusterOp: TurnOperation, clusterOtherId: SegmentIdentifier): (r: seq<Turn>)
    requires AllValid(s, bucket) && i <= |bucket|
    ensures |r| == |s|
    decreases |bucket| - i
  {
    if i == |bucket| then s
    else
      var toi := bucket[i];
      var turn := s[toi.turnIndex];
      var op := turn.Operation(toi.opIndex);
      var otherId := turn.Operation(1 - toi.opIndex).segId;
      if clusterOp.fraction == op.fraction then
        var s' := if clusterTurn.Both(Union) && !turn.Both(Union) && !turn.Both(Continue)
                  then s[toi.turnIndex := Marked(turn, true, DiscardRule(clusterOtherId, otherId))]
                  else s;
        SweepFrom(bucket, i + 1, s', clusterTurn, clusterOp, clusterOtherId)
      else
        SweepFrom(bucket, i + 1, s, turn, op, otherId)
  }

  /** The sweep's loop only sets flags: every turn keeps its operations and
      no flag is cleared. */
  lemma {:induction false} SweepFromOnlySetsFlags(bucket: seq<TurnOperationIndex>, i: nat, s: seq<Turn>,
                                                  clusterTurn: Turn, clusterOp: TurnOperation,
                                                  clusterOtherId: SegmentIdentifier, t: int)
    requires AllValid(s, bucket) && i <= |bucket| && 0 <= t < |s|
    ensures var r := SweepFrom(bucket, i, s, clusterTurn, clusterOp, clusterOtherId);
      SameOperations(r[t], s[t]) &&
      (s[t].colocated ==> r[t].colocated) && (s[t].discarded ==> r[t].discarded)
    decreases |bucket| - i
  {
    if i < |bucket| {
      var toi := bucket[i];
      var turn := s[toi.turnIndex];
      var op := turn.Operation(toi.opIndex);
      var otherId := turn.Operation(1 - toi.opIndex).segId;
      if clusterOp.fraction == op.fraction {
        var s' := if clusterTurn.Both(Union) && !turn.Both(Union) && !turn.Both(Continue)
                  then s[toi.turnIndex := Marked(turn, true, DiscardRule(clusterOtherId, otherId))]
                  else s;
        SweepFromOnlySetsFlags(bucket, i + 1, s', clusterTurn, clusterOp, clusterOtherId, t);
      } else {
        SweepFromOnlySetsFlags(bucket, i + 1, s, turn, op, otherId, t);
      }
    }
  }

  /** One iteration of the sweep's loop at position i > 0, on the turn list
      marked up to i and with the cluster variables holding the anchor of
      i - 1: whichever branch the loop body takes, the turn list it leaves is
      the one marked up to i + 1 and its cluster variables hold the anchor
      of i. */
  lemma SweepIteration(s0: seq<Turn>, g: seq<Turn>, bucket: seq<TurnOperationIndex>, i: nat,
                       clusterTurn: Turn, clusterOp: TurnOperation, clusterOtherId: SegmentIdentifier)
    requires |s0| == |g| && AllValid(g, bucket) && 0 < i < |bucket|
    requires forall t :: 0 <= t < |s0| ==> SameOperations(s0[t], g[t])
    requires ClusterState(g, bucket, i - 1, clusterTurn, clusterOp, clusterOtherId)
    ensures var s := MarkedUpTo(s0, g, bucket, i);
      var next := MarkedUpTo(s0, g, bucket, i + 1);
      var toi := bucket[i];
      var turn := s[toi.turnIndex];
      var op := turn.Operation(toi.opIndex);
      var otherId := turn.Operation(1 - toi.opIndex).segId;
      if clusterOp.fraction == op.fraction then
        ClusterState(g, bucket, i, clusterTurn, clusterOp, clusterOtherId) &&
        next == if clusterTurn.Both(Union) && !turn.Both(Union) && !turn.Both(Continue)
                then s[toi.turnIndex := Marked(turn, true, DiscardRule(clusterOtherId, otherId))]
                else s
      else
        ClusterState(g, bucket, i, turn, op, otherId) && next == s
  {
    var s := MarkedUpTo(s0, g, bucket, i);
    var toi := bucket[i];
    var turn := s[toi.turnIndex];
    assert SameOperations(turn, g[toi.turnIndex]);
    var op := turn.Operation(toi.opIndex);
    var otherId := turn.Operation(1 - toi.opIndex).segId;
    assert op == OperationOf(g, toi) && otherId == OtherId(g, toi);
    SweepStep(g, bucket, i, clusterTurn, clusterOp, clusterOtherId, turn);
    MarkedUpToStep(s0, g, bucket, i);
    var next := MarkedUpTo(s0, g, bucket, i + 1);
    if !(clusterOp.fraction == op.fraction && clusterTurn.Both(Union) && !turn.Both(Union) && !turn.Both(Continue)) {
      assert next == s[toi.turnIndex := turn];
      assert next == s;
    }
  }

  /** SweepIteration restated as one unfolding of SweepFrom. */
  lemma SweepFromStep(s0: seq<Turn>, g: seq<Turn>, bucket: seq<TurnOperationIndex>, i: nat,
                      clusterTurn: Turn, clusterOp: TurnOperation, clusterOtherId: SegmentIdentifier)
    requires |s0| == |g| && AllValid(g, bucket) && 0 < i < |bucket|
    requires forall t :: 0 <= t < |s0| ==> SameOperations(s0[t], g[t])
    requires ClusterState(g, bucket, i - 1, clusterTurn, clusterOp, clusterOtherId)
    ensures AllValid(MarkedUpTo(s0, g, bucket, i), bucket) && AllValid(MarkedUpTo(s0, g, bucket, i + 1), bucket)
    ensures var s := MarkedUpTo(s0, g, bucket, i);
      var next := MarkedUpTo(s0, g, bucket, i + 1);
      var toi := bucket[i];
      var turn := s[toi.turnIndex];
      var op := turn.Operation(toi.opIndex);
      var otherId := turn.Operation(1 - toi.opIndex).segId;
      if clusterOp.fraction == op.fraction then
        ClusterState(g, bucket, i, clusterTurn, clusterOp, clusterOtherId) &&
        SweepFrom(bucket, i, s, clusterTurn, clusterOp, clusterOtherId)
          == SweepFrom(bucket, i + 1, next, clusterTurn, clusterOp, clusterOtherId)
      else
        ClusterState(g, bucket, i, turn, op, otherId) &&
        SweepFrom(bucket, i, s, clusterTurn, clusterOp, clusterOtherId)
          == SweepFrom(bucket, i + 1, next, turn, op, otherId)
  {
    SweepIteration(s0, g, bucket, i, clusterTurn, clusterOp, clusterOtherId);
  }

  /** Started at position i on the turn list marked up to i, with the cluster
      variables holding the anchor of i - 1, the sweep's loop leaves exactly
      the flags that ColocatesAt and DiscardsAt give over the whole bucket. */
  lemma {:induction false} SweepFromMarks(s0: seq<Turn>, g: seq<Turn>, bucket: seq<TurnOperationIndex>, i: nat,
                                          clusterTurn: Turn, clusterOp: TurnOperation, clusterOtherId: SegmentIdentifier)
    requires |s0| == |g| && AllValid(g, bucket) && 0 < i <= |bucket|
    requires forall t :: 0 <= t < |s0| ==> SameOperations(s0[t], g[t])
    requires ClusterState(g, bucket, i - 1, clusterTurn, clusterOp, clusterOtherId)
    ensures AllValid(MarkedUpTo(s0, g, bucket, i), bucket)
    ensures SweepFrom(bucket, i, MarkedUpTo(s0, g, bucket, i), clusterTurn, clusterOp, clusterOtherId)
      == MarkedUpTo(s0, g, bucket, |bucket|)
    decreases |bucket| - i
  {
    var s := MarkedUpTo(s0, g, bucket, i);
    if i < |bucket| {
      SweepFromStep(s0, g, bucket, i, clusterTurn, clusterOp, clusterOtherId);
      var toi := bucket[i];
      var turn := s[toi.turnIndex];
      var op := turn.Operation(toi.opIndex);
      var otherId := turn.Operation(1 - toi.opIndex).segId;
      if clusterOp.fraction == op.fraction {
        SweepFromMarks(s0, g, bucket, i + 1, clusterTurn, clusterOp, clusterOtherId);
      } else {
        SweepFromMarks(s0, g, bucket, i + 1, turn, op, otherId);
      }
    }
  }

  /** The sweep's loop, started after position 0 with position 0 as anchor,
      leaves exactly the flags ColocatesAt and DiscardsAt give over the whole
      bucket. */
  lemma SweepWhole(s0: seq<Turn>, g: seq<Turn>, bucket: seq<TurnOperationIndex>)
    requires |s0| == |g| && AllValid(g, bucket) && |bucket| > 0
    requires forall t :: 0 <= t < |s0| ==> SameOperations(s0[t], g[t])
    ensures AllValid(s0, bucket)
    ensures var first := bucket[0];
      var clusterTurn := s0[first.turnIndex];
      SweepFrom(bucket, 1, s0, clusterTurn, clusterTurn.Operation(first.opIndex),
                clusterTurn.Operation(1 - first.opIndex).segId)
        == MarkedUpTo(s0, g, bucket, |bucket|)
  {
    var first := bucket[0];
    var clusterTurn := s0[first.turnIndex];
    assert ClusterState(g, bucket, 0, clusterTurn, clusterTurn.Operation(first.opIndex),
                        clusterTurn.Operation(1 - first.opIndex).segId);
    forall t | 0 <= t < |s0| ensures MarkedUpTo(s0, g, bucket, 1)[t] == s0[t] {
      SingleEntryMarksNothing(g, bucket[..1], t);
      assert MarksColocated(g, bucket, t, 1) == MarksColocated(g, bucket[..1], t, 1);
      assert MarksDiscarded(g, bucket, t, 1) == MarksDiscarded(g, bucket[..1], t, 1);
    }
    assert MarkedUpTo(s0, g, bucket, 1) == s0;
    SweepFromMarks(s0, g, bucket, 1, clusterTurn, clusterTurn.Operation(first.opIndex),
                   clusterTurn.Operation(1 - first.opIndex).segId);
  }

  /** The sweep of one bucket. The decisions read only operations, never
      flags, so they are stated over `g`, any turn list with the same
      operations as `turns`. */
  method SweepCluster(turns: array<Turn>, bucket: seq<TurnOperationIndex>, ghost g: seq<Turn>)
    requires |g| == turns.Length && AllValid(g, bucket) && |bucket| > 0
    requires forall t :: 0 <= t < turns.Length ==> SameOperations(turns[t], g[t])
    modifies turns
    ensures forall t :: 0 <= t < turns.Length ==>
      turns[t] == Marked(old(turns[t]),
                         MarksColocated(g, bucket, t, |bucket|),
                         MarksDiscarded(g, bucket, t, |bucket|))
  {
    var first := bucket[0];
    var clusterTurn := turns[first.turnIndex];
    var clusterOp := clusterTurn.Operation(first.opIndex);
    var clusterOtherId := clusterTurn.Operation(1 - first.opIndex).segId;
    ghost var whole := SweepFrom(bucket, 1, turns[..], clusterTurn, clusterOp, clusterOtherId);
    var i := 1;
    while i < |bucket|
      invariant 1 <= i <= |bucket| && turns.Length == |g|
      invariant SweepFrom(bucket, i, turns[..], clusterTurn, clusterOp, clusterOtherId) == whole
    {
      var toi := bucket[i];
      var turn := turns[toi.turnIndex];
      var op := turn.Operation(toi.opIndex);
      var otherId := turn.Operation(1 - toi.opIndex).segId;
      ghost var before := turns[..];
      if clusterOp.fraction == op.fraction {
        if clusterTurn.Both(Union) && !turn.Both(Union) && !turn.Both(Continue) {
          turns[toi.turnIndex] := turns[toi.turnIndex].(colocated := true);
          if clusterOtherId.multiIndex == otherId.multiIndex
             && clusterOtherId.ringIndex == -1
             && otherId.ringIndex >= 0
          {
            turns[toi.turnIndex] := turns[toi.turnIndex].(discarded := true);
          }
          assert turns[..] == before[toi.turnIndex := Marked(turn, true, DiscardRule(clusterOtherId, otherId))];
        }
      } else {
        clusterTurn := turn;
        clusterOp := op;
        clusterOtherId := otherId;
      }
      i := i + 1;
    }
    SweepWhole(old(turns[..]), g, bucket);
    forall t | 0 <= t < turns.Length
      ensures turns[t] == Marked(old(turns[t]), MarksColocated(g, bucket, t, |bucket|), MarksDiscarded(g, bucket, t, |bucket|))
    {
      assert turns[t] == turns[..][t];
    }
  }
}

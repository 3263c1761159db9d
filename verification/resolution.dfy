/** What the colocation resolver decides, stated without buckets, sorting or
    sweeping: which turns become colocated and which discarded. */
module Resolution {
  import opened Turns
  import opened Sweep

  /** Operations a and x lie on the same segment at the same fraction. */
  ghost predicate SamePlace(turns: seq<Turn>, a: TurnOperationIndex, x: TurnOperationIndex)
    requires ValidEntry(turns, a) && ValidEntry(turns, x)
  {
    OperationOf(turns, a).segId == OperationOf(turns, x).segId &&
    FractionOf(turns, a) == FractionOf(turns, x)
  }

  /** Operation x belongs to a turn that is neither union/union nor
      continue/continue, and some union/union turn has an operation at the
      same place. */
  ghost predicate Dominated(turns: seq<Turn>, x: TurnOperationIndex)
    requires ValidEntry(turns, x)
  {
    var turn := turns[x.turnIndex];
    !turn.Both(Union) && !turn.Both(Continue) &&
    exists a :: ValidEntry(turns, a) && SamePlace(turns, a, x) && turns[a.turnIndex].Both(Union)
  }

  /** Operation a is the anchor of x's cluster: of the union/union operations
      at x's place it has the lowest turn index. */
  ghost predicate IsClusterAnchor(turns: seq<Turn>, a: TurnOperationIndex, x: TurnOperationIndex)
    requires ValidEntry(turns, x)
  {
    ValidEntry(turns, a) && SamePlace(turns, a, x) && turns[a.turnIndex].Both(Union) &&
    forall b :: ValidEntry(turns, b) && SamePlace(turns, b, x) && turns[b.turnIndex].Both(Union) ==>
      a.turnIndex <= b.turnIndex
  }

  /** Operation x is dominated, and its cluster anchor's other side is the
      exterior ring of the polygon whose interior ring x's other side is on. */
  ghost predicate DiscardedOperation(turns: seq<Turn>, x: TurnOperationIndex)
    requires ValidEntry(turns, x)
  {
    Dominated(turns, x) &&
    exists a :: IsClusterAnchor(turns, a, x) && DiscardRule(OtherId(turns, a), OtherId(turns, x))
  }

  ghost predicate ResolverColocates(turns: seq<Turn>, t: int)
    requires 0 <= t < |turns|
  {
    Dominated(turns, TurnOperationIndex(t, 0)) || Dominated(turns, TurnOperationIndex(t, 1))
  }

  ghost predicate ResolverDiscards(turns: seq<Turn>, t: int)
    requires 0 <= t < |turns|
  {
    DiscardedOperation(turns, TurnOperationIndex(t, 0)) || DiscardedOperation(turns, TurnOperationIndex(t, 1))
  }

  /** The turn list after colocation resolution. */
  ghost function Resolve(turns: seq<Turn>): seq<Turn> {
    seq(|turns|, t requires 0 <= t < |turns| =>
      Marked(turns[t], ResolverColocates(turns, t), ResolverDiscards(turns, t)))
  }

  /** Resolution keeps every turn and its operations, only ever sets flags,
      and sets `discarded` only together with `colocated`. */
  lemma ResolveOnlySetsFlags(turns: seq<Turn>)
    ensures |Resolve(turns)| == |turns|
    ensures forall t :: 0 <= t < |turns| ==>
      var r := Resolve(turns)[t];
      SameOperations(r, turns[t]) &&
      (turns[t].colocated ==> r.colocated) &&
      (turns[t].discarded ==> r.discarded) &&
      (r.discarded && !turns[t].discarded ==> r.colocated)
  {
  }

  /** Union/union and continue/continue turns are never flagged. */
  lemma ResolveKeepsUnionAndContinueTurns(turns: seq<Turn>, t: int)
    requires 0 <= t < |turns|
    requires turns[t].Both(Union) || turns[t].Both(Continue)
    ensures Resolve(turns)[t] == turns[t]
  {
  }

  /** Dominance reads operations only, never flags. */
  lemma DominatedIgnoresFlags(g: seq<Turn>, h: seq<Turn>, x: TurnOperationIndex)
    requires |g| == |h| && forall t :: 0 <= t < |g| ==> SameOperations(g[t], h[t])
    requires ValidEntry(g, x)
    ensures Dominated(g, x) <==> Dominated(h, x)
  {
    if Dominated(g, x) {
      var a :| ValidEntry(g, a) && SamePlace(g, a, x) && g[a.turnIndex].Both(Union);
      assert SamePlace(h, a, x) && h[a.turnIndex].Both(Union);
    }
    if Dominated(h, x) {
      var a :| ValidEntry(h, a) && SamePlace(h, a, x) && h[a.turnIndex].Both(Union);
      assert SamePlace(g, a, x) && g[a.turnIndex].Both(Union);
    }
  }

  /** Which operation anchors x's cluster reads operations only. */
  lemma ClusterAnchorIgnoresFlags(g: seq<Turn>, h: seq<Turn>, a: TurnOperationIndex, x: TurnOperationIndex)
    requires |g| == |h| && forall t :: 0 <= t < |g| ==> SameOperations(g[t], h[t])
    requires ValidEntry(g, x)
    ensures IsClusterAnchor(g, a, x) <==> IsClusterAnchor(h, a, x)
  {
    assert forall b :: ValidEntry(g, b) ==>
      (SamePlace(g, b, x) <==> SamePlace(h, b, x)) && (g[b.turnIndex].Both(Union) <==> h[b.turnIndex].Both(Union));
  }

  /** The decisions read operations only: two turn lists that differ only in
      their flags get the same decisions. */
  lemma DecisionsIgnoreFlags(g: seq<Turn>, h: seq<Turn>, x: TurnOperationIndex)
    requires |g| == |h| && forall t :: 0 <= t < |g| ==> SameOperations(g[t], h[t])
    requires ValidEntry(g, x)
    ensures Dominated(g, x) <==> Dominated(h, x)
    ensures DiscardedOperation(g, x) <==> DiscardedOperation(h, x)
  {
    DominatedIgnoresFlags(g, h, x);
    if DiscardedOperation(g, x) {
      var a :| IsClusterAnchor(g, a, x) && DiscardRule(OtherId(g, a), OtherId(g, x));
      ClusterAnchorIgnoresFlags(g, h, a, x);
    }
    if DiscardedOperation(h, x) {
      var a :| IsClusterAnchor(h, a, x) && DiscardRule(OtherId(h, a), OtherId(h, x));
      ClusterAnchorIgnoresFlags(g, h, a, x);
    }
  }

  /** Resolving the resolver's own output changes nothing further. */
  lemma ResolveIdempotent(turns: seq<Turn>)
    ensures Resolve(Resolve(turns)) == Resolve(turns)
  {
    var r := Resolve(turns);
    forall t | 0 <= t < |turns| ensures Resolve(r)[t] == r[t] {
      DecisionsIgnoreFlags(turns, r, TurnOperationIndex(t, 0));
      DecisionsIgnoreFlags(turns, r, TurnOperationIndex(t, 1));
    }
  }

  /** When no two operations share a segment, nothing changes. */
  lemma NoSharedSegmentNoChange(turns: seq<Turn>)
    requires forall x, y :: ValidEntry(turns, x) && ValidEntry(turns, y) && x != y ==>
      OperationOf(turns, x).segId != OperationOf(turns, y).segId
    ensures Resolve(turns) == turns
  {
    forall t | 0 <= t < |turns| ensures !ResolverColocates(turns, t) && !ResolverDiscards(turns, t) {
    }
  }
}

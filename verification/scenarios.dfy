/** Worked configurations: two turns whose first operations lie on the same
    segment of the first geometry. Turn 0 is union/union and its other side
    is on the exterior ring of polygon 0 of the second geometry. */
module Scenarios {
  import opened Turns
  import opened Sweep
  import opened Resolution

  const Shared := SegmentIdentifier(0, 0, -1, 4)
  const Exterior := SegmentIdentifier(1, 0, -1, 3)

  function UnionTurn(fraction: real): Turn {
    Turn(TurnOperation(Union, Shared, fraction), TurnOperation(Union, Exterior, 0.25), false, false)
  }

  function MixedTurn(fraction: real, other: SegmentIdentifier): Turn {
    Turn(TurnOperation(Intersection, Shared, fraction), TurnOperation(Union, other, 0.75), false, false)
  }

  /** A mixed turn at the place of a union/union turn whose other side is on
      the exterior ring, with its own other side on an interior ring of the
      same polygon, is flagged colocated and discarded; the union/union turn
      is left as it was. */
  lemma InteriorRingTurnDiscarded()
    ensures var a := UnionTurn(0.5);
            var b := MixedTurn(0.5, SegmentIdentifier(1, 0, 2, 7));
            Resolve([a, b]) == [a, b.(colocated := true, discarded := true)]
  {
    var a := UnionTurn(0.5);
    var b := MixedTurn(0.5, SegmentIdentifier(1, 0, 2, 7));
    var turns := [a, b];
    var anchor := TurnOperationIndex(0, 0);
    var x := TurnOperationIndex(1, 0);
    assert SamePlace(turns, anchor, x);
    assert IsClusterAnchor(turns, anchor, x);
    assert DiscardRule(OtherId(turns, anchor), OtherId(turns, x));
  }

  /** The same with the mixed turn's other side on a different polygon: it is
      colocated but kept. */
  lemma OtherPolygonTurnKept()
    ensures var a := UnionTurn(0.5);
            var b := MixedTurn(0.5, SegmentIdentifier(1, 1, 2, 7));
            Resolve([a, b]) == [a, b.(colocated := true)]
  {
    var a := UnionTurn(0.5);
    var b := MixedTurn(0.5, SegmentIdentifier(1, 1, 2, 7));
    var turns := [a, b];
    var anchor := TurnOperationIndex(0, 0);
    var x := TurnOperationIndex(1, 0);
    assert SamePlace(turns, anchor, x);
  }

  /** Two union/union turns at the same place: neither is flagged. */
  lemma TwoUnionTurnsUnchanged()
    ensures var a := UnionTurn(0.5);
            Resolve([a, a]) == [a, a]
  {
  }

  /** A mixed turn at another fraction than the union/union turn starts a
      cluster of its own: nothing is flagged. */
  lemma DistinctFractionsUnchanged()
    ensures var a := UnionTurn(0.3);
            var b := MixedTurn(0.7, SegmentIdentifier(1, 0, 2, 7));
            Resolve([a, b]) == [a, b]
  {
  }

  /** Which union/union turn anchors a cluster depends on turn indices, so
      reordering the input can change `discarded`: with two union/union
      turns at the shared place, one whose other side is the exterior ring of
      polygon 0 and one on the exterior ring of polygon 1, a mixed turn on an
      interior ring of polygon 0 is discarded only when the first has the
      lower index. */
  lemma AnchorDependsOnTurnOrder()
    ensures var a0 := UnionTurn(0.5);
            var a1 := a0.(op1 := a0.op1.(segId := SegmentIdentifier(1, 1, -1, 5)));
            var b := MixedTurn(0.5, SegmentIdentifier(1, 0, 2, 7));
            Resolve([a0, a1, b])[2].discarded && !Resolve([a1, a0, b])[2].discarded
  {
    var a0 := UnionTurn(0.5);
    var a1 := a0.(op1 := a0.op1.(segId := SegmentIdentifier(1, 1, -1, 5)));
    var b := MixedTurn(0.5, SegmentIdentifier(1, 0, 2, 7));
    var x := TurnOperationIndex(2, 0);
    var first := [a0, a1, b];
    assert SamePlace(first, TurnOperationIndex(0, 0), x);
    assert IsClusterAnchor(first, TurnOperationIndex(0, 0), x);
    var second := [a1, a0, b];
    assert SamePlace(second, TurnOperationIndex(0, 0), x);
  }
}

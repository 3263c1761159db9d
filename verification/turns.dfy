/** The overlay turns the colocation resolver works on: a turn is a candidate
    intersection between the boundaries of two geometries and holds exactly
    two operations, one per geometry. */
module Turns {

  /** Topological classification of one side of a turn. */
  datatype OperationKind = None | Union | Intersection | Blocked | Continue | Opposite

  /** Structural address of a directed boundary segment. A ring index of -1
      denotes the exterior ring, a ring index of 0 or more an interior ring. */
  datatype SegmentIdentifier = SegmentIdentifier(
    sourceIndex: int, multiIndex: int, ringIndex: int, segmentIndex: int)

  /** One side of a turn: its classification, the segment it lies on and its
      exact position along that segment. */
  datatype TurnOperation = TurnOperation(
    operation: OperationKind, segId: SegmentIdentifier, fraction: real)

  /** The operation slot of a turn. */
  type Slot = s: int | 0 <= s <= 1

  datatype Turn = Turn(
    op0: TurnOperation, op1: TurnOperation, discarded: bool, colocated: bool)
  {
    function Operation(slot: Slot): TurnOperation {
      if slot == 0 then op0 else op1
    }

    /** Both operations of the turn have the given classification. */
    predicate Both(kind: OperationKind) {
      op0.operation == kind && op1.operation == kind
    }
  }

  /** Two turns that may differ only in their flags. */
  predicate SameOperations(a: Turn, b: Turn) {
    a.op0 == b.op0 && a.op1 == b.op1
  }

  /** Sets a turn's flags, never clearing one that is already set. */
  function Marked(turn: Turn, colocate: bool, discard: bool): (r: Turn)
    ensures SameOperations(r, turn)
    ensures r.colocated <==> turn.colocated || colocate
    ensures r.discarded <==> turn.discarded || discard
  {
    turn.(colocated := turn.colocated || colocate, discarded := turn.discarded || discard)
  }

  /** A reference to operation `opIndex` of turn `turnIndex`; both are
      signed. */
  datatype TurnOperationIndex = TurnOperationIndex(turnIndex: int, opIndex: int)

  predicate ValidEntry(turns: seq<Turn>, e: TurnOperationIndex) {
    0 <= e.turnIndex < |turns| && 0 <= e.opIndex <= 1
  }

  predicate AllValid(turns: seq<Turn>, bucket: seq<TurnOperationIndex>) {
    forall i :: 0 <= i < |bucket| ==> ValidEntry(turns, bucket[i])
  }

  function OperationOf(turns: seq<Turn>, e: TurnOperationIndex): TurnOperation
    requires ValidEntry(turns, e)
  {
    turns[e.turnIndex].Operation(e.opIndex)
  }

  function FractionOf(turns: seq<Turn>, e: TurnOperationIndex): real
    requires ValidEntry(turns, e)
  {
    OperationOf(turns, e).fraction
  }

  /** The segment the turn's other operation lies on, on the other geometry. */
  function OtherId(turns: seq<Turn>, e: TurnOperationIndex): SegmentIdentifier
    requires ValidEntry(turns, e)
  {
    turns[e.turnIndex].Operation(1 - e.opIndex).segId
  }

  /** Two operations of one turn that lie on the same segment see the same
      segment on the other side: with distinct slots, each one's other side
      is the shared segment itself. */
  lemma OtherIdOnSharedSegment(turns: seq<Turn>, a: TurnOperationIndex, b: TurnOperationIndex)
    requires ValidEntry(turns, a) && ValidEntry(turns, b)
    requires a.turnIndex == b.turnIndex
    requires OperationOf(turns, a).segId == OperationOf(turns, b).segId
    ensures OtherId(turns, a) == OtherId(turns, b)
  {
  }
}

# Colocation resolution of overlay turns, in Dafny

This project models `handle_colocations` from Boost.Geometry's overlay. It is the pass that runs
over the list of turns (candidate boundary intersections of two geometries). It flags turns that
land at the same place on a segment as a union/union turn. Each turn holds exactly two operations,
and each operation has a segment identifier and an exact fraction along that segment. The pass has
four parts:

- **Index builder** (`SegmentIndex.BuildIndex`): puts every (turn index, operation slot) reference
  into the bucket of that operation's segment identifier, two entries per turn.
- **Fast path** (`SegmentIndex.HasColocations`): when no bucket holds more than one entry,
  `Colocations.HandleColocations` returns before sorting.
- **Comparator and sort** (`Ordering.Less`, `Ordering.SortBucket`, `Colocations.SortBuckets`): each
  bucket is sorted by fraction, then union/union turns first, then turn index.
- **Sweep** (`Sweep.SweepCluster`, `Colocations.SweepBuckets`): walks every sorted bucket of more
  than one entry. It carries a cluster anchor (turn, operation and other-side segment) and replaces
  the anchor whenever the fraction changes. Within a cluster it sets `colocated` on a turn that is
  neither union/union nor continue/continue when the anchor is union/union. It also sets
  `discarded` when the anchor's other side is the exterior ring (ring index -1) of the polygon
  (same multi index) whose interior ring (ring index >= 0) the turn's other side lies on.

The caller's turn list is an `array<Turn>` updated in place. The main result is the postcondition
of `Colocations.HandleColocations`: `turns[..] == Resolve(old(turns[..]))`. `Resolution.Resolve` is
a declarative statement of the outcome, with no buckets, no sorting and no sweep:

- a turn becomes colocated when one of its operations is *dominated*: the turn is neither
  union/union nor continue/continue, and a union/union turn has an operation on the same segment at
  the same fraction;
- a turn becomes discarded when, in addition, the *cluster anchor* passes the discard rule. The
  cluster anchor is the union/union operation at that place with the lowest turn index.

The proof goes through the position-level specification of the sweep (`Sweep.Anchor`,
`Sweep.ColocatesAt`, `Sweep.DiscardsAt`). Lemmas connect that specification to `Resolve` for any
sorted bucket that holds exactly the operations on its segment. As a result, the outcome does not
depend on the order in which buckets are visited. It also does not depend on which sorted
permutation the sort returns.

Reordering the input turns can change which turns are discarded. The comparator's last tie-break
(handle_colocations.hpp:84) makes the union/union turn with the lowest index the anchor of its
cluster. The discard rule (handle_colocations.hpp:182-184) reads that anchor's other-side segment.
`Scenarios.AnchorDependsOnTurnOrder` proves that swapping two union/union turns changes whether a
third turn is discarded.

## Model

| member | source | states |
|---|---|---|
| `Turns.Marked` | include/boost/geometry/algorithms/detail/overlay/handle_colocations.hpp:180-191 | setting the flags keeps both operations of the turn; each flag ends set exactly when it was set before or the sweep sets it now, so a flag is never cleared |
| `Turns.OtherIdOnSharedSegment` | include/boost/geometry/algorithms/detail/overlay/handle_colocations.hpp:158-170 | two operations of one turn on the same segment have the same other-side segment, so the anchor's other id does not depend on which of them anchors |
| `Ordering.Less` | include/boost/geometry/algorithms/detail/overlay/handle_colocations.hpp:51-85 | the comparator orders by fraction first: a smaller fraction is always less, and less never has a larger fraction; within one turn only the fraction decides |
| `Ordering.TypeCode` | include/boost/geometry/algorithms/detail/overlay/handle_colocations.hpp:75-78 | the code is 0 exactly for a union/union turn and 1 for every other turn |
| `Ordering.UnionUnionFirst` | include/boost/geometry/algorithms/detail/overlay/handle_colocations.hpp:70-82 | at equal fractions a union/union turn sorts before any other turn and not after it |
| `Ordering.LowerTurnIndexFirst` | include/boost/geometry/algorithms/detail/overlay/handle_colocations.hpp:79-84 | at equal fraction and equal kind, the lower turn index sorts first |
| `Ordering.NotLessAtSameFraction` | include/boost/geometry/algorithms/detail/overlay/handle_colocations.hpp:70-84 | at equal fractions, an operation not less than another leaves it first: if the later one is union/union, so is the earlier, with a turn index no higher |
| `Ordering.LessIrreflexive` | include/boost/geometry/algorithms/detail/overlay/handle_colocations.hpp:51-85 | no reference is less than itself |
| `Ordering.LessAsymmetric` | include/boost/geometry/algorithms/detail/overlay/handle_colocations.hpp:51-85 | less in one direction excludes less in the other |
| `Ordering.LessTransitive` | include/boost/geometry/algorithms/detail/overlay/handle_colocations.hpp:51-85 | the comparator is transitive |
| `Ordering.IncomparableIffSameFractionAndTurn` | include/boost/geometry/algorithms/detail/overlay/handle_colocations.hpp:51-85 | two references are incomparable exactly when they share fraction and turn, so incomparability is an equivalence and the comparator a strict weak order |
| `Ordering.SortedFractions` | include/boost/geometry/algorithms/detail/overlay/handle_colocations.hpp:65-68 | in a bucket sorted under the comparator, fractions never decrease |
| `Ordering.InsertKeepsSorted` | include/boost/geometry/algorithms/detail/overlay/handle_colocations.hpp:147 | inserting an entry before the first entry it is less than keeps a bucket sorted |
| `Ordering.SortBucket` | include/boost/geometry/algorithms/detail/overlay/handle_colocations.hpp:147 | the sorted bucket is a permutation (same multiset) of the bucket and is sorted under the comparator |
| `SegmentIndex.Push` | include/boost/geometry/algorithms/detail/overlay/handle_colocations.hpp:119-120 | after `map[key].push_back(e)` the keys are the old keys plus `key`; the bucket of `key` is its old contents (empty when new) followed by `e`; every other bucket is unchanged |
| `SegmentIndex.TotalSizeSplit` | include/boost/geometry/algorithms/detail/overlay/handle_colocations.hpp:105-111 | the entry count of the index is the size of any one bucket plus the count of the others |
| `SegmentIndex.TotalSizePush` | include/boost/geometry/algorithms/detail/overlay/handle_colocations.hpp:119-120 | each `push_back` into the index (creating the bucket when new) adds exactly one entry |
| `SegmentIndex.BuildIndex` | include/boost/geometry/algorithms/detail/overlay/handle_colocations.hpp:111-121 | every bucket is non-empty and holds only operations on its key; every operation (i, 0), (i, 1) is in its segment's bucket; buckets are in visiting order, so no entry is repeated; the index holds 2 × the number of turns entries |
| `SegmentIndex.HasColocations` | include/boost/geometry/algorithms/detail/overlay/handle_colocations.hpp:123-135 | the result is true exactly when some bucket holds more than one entry |
| `Sweep.Anchor` | include/boost/geometry/algorithms/detail/overlay/handle_colocations.hpp:155-202 | the anchor at position p is at or before p, starts the maximal run of equal fractions ending at p (every position from it to p has p's fraction, the one before it differs), so clusters are contiguous equal-fraction runs |
| `Sweep.DiscardRule` | include/boost/geometry/algorithms/detail/overlay/handle_colocations.hpp:182-184 | the rule only holds between two different segments, and only when the anchor's other side has a lower ring index than the turn's, so it never holds in both directions |
| `Sweep.ColocatesAt` | include/boost/geometry/algorithms/detail/overlay/handle_colocations.hpp:172-180 | a flagged position is never the first of its bucket, its anchor is union/union and its own turn is neither union/union nor continue/continue |
| `Sweep.DiscardsAt` | include/boost/geometry/algorithms/detail/overlay/handle_colocations.hpp:182-192 | a position is flagged discarded only if it is also flagged colocated |
| `Sweep.MarkedUpTo` | include/boost/geometry/algorithms/detail/overlay/handle_colocations.hpp:164-204 | flagging the turns for the first n positions of a bucket keeps the number of turns; the flags it sets are characterised by MarkedUpToStep and SweepFromMarks |
| `Sweep.SweepStep` | include/boost/geometry/algorithms/detail/overlay/handle_colocations.hpp:164-202 | with the anchor variables holding the previous anchor, the loop body's tests are exactly ColocatesAt and DiscardsAt, and the anchor moves exactly when the fraction changes |
| `Sweep.SweepFrom` | include/boost/geometry/algorithms/detail/overlay/handle_colocations.hpp:164-204 | the rest of the loop from position i keeps the number of turns; its outcome is characterised by SweepFromOnlySetsFlags and SweepFromMarks |
| `Sweep.SweepFromOnlySetsFlags` | include/boost/geometry/algorithms/detail/overlay/handle_colocations.hpp:172-202 | the rest of the loop keeps every turn's operations and never clears a flag |
| `Sweep.MarkedUpToStep` | include/boost/geometry/algorithms/detail/overlay/handle_colocations.hpp:164-202 | each position of the sweep changes at most one turn, the one it refers to, by exactly its own decisions |
| `Sweep.SweepIteration` | include/boost/geometry/algorithms/detail/overlay/handle_colocations.hpp:164-202 | in each of the three branches of the loop body, the turn list it leaves is the one flagged up to the next position and the cluster variables hold the next anchor |
| `Sweep.SweepFromStep` | include/boost/geometry/algorithms/detail/overlay/handle_colocations.hpp:164-202 | the same, as one unfolding of the remaining loop |
| `Sweep.SweepFromMarks` | include/boost/geometry/algorithms/detail/overlay/handle_colocations.hpp:164-204 | run from any position with the cluster variables in step, the rest of the loop sets exactly the flags ColocatesAt and DiscardsAt give over the whole bucket |
| `Sweep.SweepWhole` | include/boost/geometry/algorithms/detail/overlay/handle_colocations.hpp:155-204 | started with the first entry as anchor, the loop sets exactly the flags ColocatesAt and DiscardsAt give over the whole bucket |
| `Sweep.SingleEntryMarksNothing` | include/boost/geometry/algorithms/detail/overlay/handle_colocations.hpp:153 | a bucket of at most one entry flags nothing, so skipping it changes nothing |
| `Sweep.SweepCluster` | include/boost/geometry/algorithms/detail/overlay/handle_colocations.hpp:153-205 | after the sweep of one bucket each turn is its old value with `colocated` / `discarded` additionally set exactly where some position of that turn is flagged; nothing else changes |
| `Resolution.ResolveOnlySetsFlags` | include/boost/geometry/algorithms/detail/overlay/handle_colocations.hpp:164-202 | resolution keeps the number of turns and every operation, never clears a flag, and sets `discarded` only together with `colocated` |
| `Resolution.ResolveKeepsUnionAndContinueTurns` | include/boost/geometry/algorithms/detail/overlay/handle_colocations.hpp:174-176 | a union/union or continue/continue turn is never flagged |
| `Resolution.DominatedIgnoresFlags` | include/boost/geometry/algorithms/detail/overlay/handle_colocations.hpp:172-180 | whether an operation is dominated does not depend on any turn's flags |
| `Resolution.ClusterAnchorIgnoresFlags` | include/boost/geometry/algorithms/detail/overlay/handle_colocations.hpp:158-162 | which operation anchors a cluster does not depend on any turn's flags |
| `Resolution.DecisionsIgnoreFlags` | include/boost/geometry/algorithms/detail/overlay/handle_colocations.hpp:158-192 | the decisions read only operations: turn lists differing only in flags get the same decisions |
| `Resolution.ResolveIdempotent` | include/boost/geometry/algorithms/detail/overlay/handle_colocations.hpp:150-206 | resolving the resolver's own output changes nothing further |
| `Resolution.NoSharedSegmentNoChange` | include/boost/geometry/algorithms/detail/overlay/handle_colocations.hpp:123-140 | when no two operations share a segment identifier, no flag changes |
| `Colocations.AnchorAtOrBefore` | include/boost/geometry/algorithms/detail/overlay/handle_colocations.hpp:195-202 | in a sorted bucket the anchor of a position comes at or before every position with the same fraction, so a cluster is the whole run of one fraction |
| `Colocations.AnchorLeadsCluster` | include/boost/geometry/algorithms/detail/overlay/handle_colocations.hpp:70-84 | in a sorted exact bucket, the anchor of a position is union/union whenever any union/union operation is at that place, with the lowest turn index among them |
| `Colocations.ColocatesIffDominated` | include/boost/geometry/algorithms/detail/overlay/handle_colocations.hpp:172-180 | in a sorted exact bucket a position is flagged colocated if and only if its operation is dominated |
| `Colocations.DiscardsIffDiscarded` | include/boost/geometry/algorithms/detail/overlay/handle_colocations.hpp:182-192 | in a sorted exact bucket a position is flagged discarded if and only if its operation is dominated and its cluster anchor passes the discard rule |
| `Colocations.SweepColocatesSound` | include/boost/geometry/algorithms/detail/overlay/handle_colocations.hpp:172-180 | a bucket's sweep flags a turn colocated only for a dominated operation of that turn on the bucket's segment |
| `Colocations.SweepColocatesComplete` | include/boost/geometry/algorithms/detail/overlay/handle_colocations.hpp:172-180 | a bucket's sweep flags colocated every turn with a dominated operation on the bucket's segment |
| `Colocations.SweepDiscardsSound` | include/boost/geometry/algorithms/detail/overlay/handle_colocations.hpp:182-192 | a bucket's sweep flags a turn discarded only for a discarded operation of that turn on the bucket's segment |
| `Colocations.SweepDiscardsComplete` | include/boost/geometry/algorithms/detail/overlay/handle_colocations.hpp:182-192 | a bucket's sweep flags discarded every turn with a discarded operation on the bucket's segment |
| `Colocations.SweptAllMatchesResolve` | include/boost/geometry/algorithms/detail/overlay/handle_colocations.hpp:150-206 | over all sorted buckets of an exact, complete index, a turn is flagged by some bucket exactly when Resolve flags it, for both flags |
| `Colocations.SweptIsResolve` | include/boost/geometry/algorithms/detail/overlay/handle_colocations.hpp:150-206 | the turn list left by sweeping every sorted bucket equals Resolve of the input |
| `Colocations.FastPathNoChange` | include/boost/geometry/algorithms/detail/overlay/handle_colocations.hpp:123-140 | when every bucket has at most one entry, Resolve leaves the turns unchanged, so returning early is correct |
| `Colocations.PermutedBucket` | include/boost/geometry/algorithms/detail/overlay/handle_colocations.hpp:142-148 | any permutation of a bucket of a sound, complete index holds exactly the operations on its segment |
| `Colocations.PermutedIndexExact` | include/boost/geometry/algorithms/detail/overlay/handle_colocations.hpp:142-148 | permuting every bucket keeps the index exact and complete |
| `Colocations.SortBuckets` | include/boost/geometry/algorithms/detail/overlay/handle_colocations.hpp:142-148 | every bucket keeps its key and its multiset of entries, holds exactly the operations on its key, and is sorted under the comparator |
| `Colocations.SweptStep` | include/boost/geometry/algorithms/detail/overlay/handle_colocations.hpp:150-152 | visiting one more bucket adds exactly that bucket's flags |
| `Colocations.SweepBuckets` | include/boost/geometry/algorithms/detail/overlay/handle_colocations.hpp:150-206 | whatever the order of the buckets, each turn ends with its flags set exactly where some bucket's sweep flags it |
| `Colocations.SortAndSweep` | include/boost/geometry/algorithms/detail/overlay/handle_colocations.hpp:142-206 | after sorting and sweeping a sound, complete index, the turn list is Resolve of the turn list before |
| `Colocations.HandleColocations` | include/boost/geometry/algorithms/detail/overlay/handle_colocations.hpp:99-206 | the turn list afterwards is Resolve of the turn list before: same turns and operations, flags set exactly as the dominance and discard rules decide |
| `Scenarios.InteriorRingTurnDiscarded` | include/boost/geometry/algorithms/detail/overlay/handle_colocations.hpp:182-192 | a mixed turn at a union/union turn's place, on an interior ring of the polygon whose exterior ring the anchor's other side is on, becomes colocated and discarded; the union/union turn is unchanged |
| `Scenarios.OtherPolygonTurnKept` | include/boost/geometry/algorithms/detail/overlay/handle_colocations.hpp:172-192 | the same with the other side on another polygon: colocated but not discarded |
| `Scenarios.TwoUnionTurnsUnchanged` | include/boost/geometry/algorithms/detail/overlay/handle_colocations.hpp:174-176 | two union/union turns at one place: neither flag changes |
| `Scenarios.DistinctFractionsUnchanged` | include/boost/geometry/algorithms/detail/overlay/handle_colocations.hpp:172-202 | a mixed turn at another fraction than the union/union turn: no flag changes |
| `Scenarios.AnchorDependsOnTurnOrder` | include/boost/geometry/algorithms/detail/overlay/handle_colocations.hpp:84 | swapping two union/union turns at one place changes whether a third turn is discarded, because the lowest turn index anchors the cluster |

## Left out

- The debug dump (handle_colocations.hpp lines 208-231) is left out: it is console output behind a build-time switch.
- `include/boost/geometry/geometries/adapted/eigen_matrix.hpp` is not part of this model: it holds only compile-time trait specialisations and coordinate accessors for a foreign matrix type.
- `test/iterators/ever_circling_iterator.cpp` is not part of this model: it tests an iterator whose implementation is not among the modelled files, through text parsing and output.
- `turn_info.hpp` and `segment_identifier.hpp` are not part of this model. `Turn.Both(k)` is assumed to mean that both operations have kind `k`. A turn keeps only its two operations and its two flags; its point and its other fields are never read here.
- The segment identifier's `operator<` is not modelled. `std::map` visits keys in that order, while the model visits buckets in an arbitrary order (`var k :| k in keys`). `Colocations.HandleColocations` is proved for every visiting order.
- `std::sort` is modelled as an insertion sort specified by its postcondition (a permutation, sorted under the comparator). The correctness proof assumes only that postcondition, so it covers whatever equivalent order `std::sort` picks.
- Fractions are exact rationals (`real`). Floating-point fractions, their rounding and any tolerance are not modelled.
- Turn and operation indices are unbounded integers. The index builder counts turns in an `int index` (handle_colocations.hpp:113) and converts it to `signed_size_type` at lines 119-120. Past INT_MAX turns that counter overflows, which is undefined behaviour; in practice it wraps to a negative index and the comparator then reads turns out of range (lines 57-58). The model assumes at most INT_MAX turns.
- The default `turn_operation_index` of (-1, -1) (handle_colocations.hpp:32-33) is not modelled: the resolver always builds references from a real turn index and slot.
- Sweep.MarkedUpTo: the contract states only that the number of turns is kept, because the flags it sets are its definition; MarkedUpToStep, SweepFromMarks and SweepCluster state what they mean.
- Sweep.SweepFrom: the contract states only that the number of turns is kept, to keep the loop invariant that uses it cheap; SweepFromOnlySetsFlags and SweepFromMarks state the rest.

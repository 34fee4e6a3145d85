# ShapeCollection: relation aggregation, area estimate and construction

A Dafny model of spatial4j's `ShapeCollection`: a list of shapes that behaves as a
single shape. The model covers how the collection answers "how do you relate to
this query shape?" (`relate`), whether it has area (`hasArea`), its area estimate
(`getArea`) and the construction check that rejects an empty member list.

Members and the bounding box are opaque. The collection is a generic class
`ShapeCollection<S, B>` whose fields `shapes` and `bbox` are `const`, since the
source's fields are final. Each call the source makes into a member or into the
bounding box becomes a function parameter. `memberRelate(m)` stands for
`m.relate(other)`, `boxRelate(bbox)` for `bbox.relate(other)`, `area(m)` and
`boxArea(bbox)` for `getArea(ctx)`, and `hasArea(m)` for `m.hasArea()`. The loops
call these functions once per member visited, as the source does.

Files:

- `spatial_relation.dfy`: the four-valued `SpatialRelation` (Disjoint, Intersects,
  Contains, Within). The source's own enumeration file is not part of this model.
- `relation_aggregation.dfy`: the transition table `Combine` of the aggregation
  automaton, a closed form `Aggregate` of the aggregated answer, `RelateSpec`
  (the bounding-box pre-filter followed by the aggregate), and lemmas about them.
- `capped_area.dfy`: running sums over reals, the capped estimate `CappedSum`, and
  its bounds.
- `shape_collection.dfy`: the class with `Create`, `HasArea`, `Relate` and `GetArea`
  as loops proved against the specification functions, and the order-independence
  of `relate` over permuted member lists.

`Relate` also returns a ghost count `consulted` of the members it asked. Its
contract says that no member is asked when the bounding box answers Disjoint or
Within. It also says that the answer is the aggregate of the members asked, that
the loop stops early only with Intersects, and that it stops at the first member
that makes the aggregate Intersects.

`Aggregate`, in closed form, on a non-empty list of member relations:
Intersects if some member is Intersects, or Within occurs together with any other
value; otherwise Within if every member is Within; otherwise Contains if some
member is Contains; otherwise Disjoint.

## Model

| member | source | states |
|---|---|---|
| `ShapeCollections.ShapeCollection.Create` | src/main/java/com/spatial4j/core/shape/ShapeCollection.java:49-56 | an empty member list is rejected with "must be given at least 1 shape"; any other list gives a valid (non-empty) collection holding exactly those members and that box |
| `ShapeCollections.ShapeCollection.constructor` | src/main/java/com/spatial4j/core/shape/ShapeCollection.java:49-56 | a collection is only built from a non-empty member list, and stores exactly that list and the bounding box it is given |
| `ShapeCollections.ShapeCollection.HasArea` | src/main/java/com/spatial4j/core/shape/ShapeCollection.java:101-109 | the result is true iff at least one member reports that it has area |
| `ShapeCollections.ShapeCollection.Relate` | src/main/java/com/spatial4j/core/shape/ShapeCollection.java:111-158 | the answer equals `RelateSpec`: the box's relation itself when that is Disjoint or Within, with no member asked; otherwise the aggregate of the members' relations in list order. The loop asks members up to and including the first one that makes the aggregate Intersects, and no further; it stops before the last member only with Intersects |
| `ShapeCollections.ShapeCollection.GetArea` | src/main/java/com/spatial4j/core/shape/ShapeCollection.java:160-171 | the result is the box area as soon as a running sum of member areas reaches it, and the full sum otherwise; it never exceeds the box area |
| `ShapeCollections.RelateOrderIndependent` | src/main/java/com/spatial4j/core/shape/ShapeCollection.java:30-35 | two member lists that are permutations of each other give the same `relate` answer for every bounding-box relation |
| `RelationAggregation.Combine` | src/main/java/com/spatial4j/core/shape/ShapeCollection.java:132-155 | one step of the accumulator: the result is Intersects (the early return) exactly when either side is Intersects or Within meets a different relation; otherwise it is one of the two inputs |
| `RelationAggregation.Aggregate` | src/main/java/com/spatial4j/core/shape/ShapeCollection.java:128-157 | the aggregate is Intersects whenever a member is, and any other answer is the relation of some member (never unset) |
| `RelationAggregation.CombineIsSemilattice` | src/main/java/com/spatial4j/core/shape/ShapeCollection.java:117-123 | the transition table is commutative, associative and idempotent, and Intersects absorbs every relation |
| `RelationAggregation.CombineMixed` | src/main/java/com/spatial4j/core/shape/ShapeCollection.java:138-155 | Within after Disjoint or Contains, and Disjoint or Contains after Within, give Intersects; Disjoint and Contains in either order give Contains |
| `RelationAggregation.AggregateSnoc` | src/main/java/com/spatial4j/core/shape/ShapeCollection.java:129-156 | appending one member's relation moves the closed form by exactly one transition of the table, so the closed form is the loop's fold |
| `RelationAggregation.AggregateSingleton` | src/main/java/com/spatial4j/core/shape/ShapeCollection.java:135-136 | the first member's relation seeds the accumulator: one member gives its own relation |
| `RelationAggregation.IntersectsIsFinal` | src/main/java/com/spatial4j/core/shape/ShapeCollection.java:132-133 | once a prefix of the members aggregates to Intersects, the whole list does, whatever follows |
| `RelationAggregation.AggregateSameMembers` | src/main/java/com/spatial4j/core/shape/ShapeCollection.java:30-35 | two non-empty lists in which the same relations occur aggregate to the same answer, whatever the order and multiplicity |
| `RelationAggregation.AggregateOrderIndependent` | src/main/java/com/spatial4j/core/shape/ShapeCollection.java:117-118 | permuted lists of member relations aggregate to the same answer |
| `RelationAggregation.AggregateUniform` | src/main/java/com/spatial4j/core/shape/ShapeCollection.java:123 | members sharing one relation other than Intersects yield that relation |
| `RelationAggregation.AggregateWithinMixed` | src/main/java/com/spatial4j/core/shape/ShapeCollection.java:120-122 | Within occurring together with Disjoint or Contains, in any order, yields Intersects |
| `RelationAggregation.AggregateDisjointContains` | src/main/java/com/spatial4j/core/shape/ShapeCollection.java:121 | members that are only Disjoint or Contains yield Contains if any is Contains, Disjoint otherwise |
| `CappedArea.CappedSum` | src/main/java/com/spatial4j/core/shape/ShapeCollection.java:161-170 | the estimate is either the bounding box's area or the plain sum of the member areas, and for a non-empty member list it never exceeds the box area |
| `CappedArea.SumPrefixMonotone` | src/main/java/com/spatial4j/core/shape/ShapeCollection.java:163-165 | with non-negative member areas the running sum never decreases |
| `CappedArea.CappedSumIsMin` | src/main/java/com/spatial4j/core/shape/ShapeCollection.java:161-170 | with non-negative member areas the estimate is the plain sum when that stays below the box area, and the box area otherwise |

## Left out

- Members' own `relate`, `getBoundingBox`, `getArea` and `hasArea`: calls into other shape classes, which are not part of this model; their results are function parameters.
- `computeBoundingBox` (ShapeCollection.java:58-75): the x-range merge with wraparound and the rectangle construction live in `Range` and `SpatialContext`, which are not part of this model. The bounding box is an input to `Create`.
- The `RandomAccess` check in the constructor (line 52): a Java runtime type test with no counterpart for Dafny sequences.
- `getArea` uses IEEE `double` (rounding, NaN, infinities); the model uses mathematical reals.
- `CappedArea.CappedSumIsMin` and `CappedArea.SumPrefixMonotone` assume non-negative member areas, which the Shape contract implies but the code does not check.
- `toString`, `equals`, `hashCode`, `get`, `size`, `getShapes`, `getBoundingBox` and `getCenter`: formatting and one-line delegations to the list or the bounding box.
- Sharing of the caller's list by reference (lines 44-46): Dafny sequences are values, so the model cannot express a caller mutating the list afterwards.

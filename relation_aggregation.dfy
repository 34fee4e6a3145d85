/**
 * How a shape collection derives one relation to a query from the relations
 * of its members: the transition table of the aggregation automaton, a closed
 * form of the answer, and the facts that tie the two together.
 */
module RelationAggregation {
  import opened SpatialRelations

  /** One transition of the automaton: the relation accumulated over the members
      seen so far, combined with the relation of the next member. Intersects as
      a result stands for the loop's early return. */
  function Combine(acc: SpatialRelation, sect: SpatialRelation): (r: SpatialRelation)
    ensures r == Intersects <==>
      acc == Intersects || sect == Intersects || (acc != sect && (acc == Within || sect == Within))
    ensures r != Intersects ==> r == acc || r == sect
  {
    match (acc, sect)
    case (Intersects, _) => Intersects
    case (_, Intersects) => Intersects
    case (Disjoint, Within) => Intersects
    case (Disjoint, Contains) => Contains
    case (Disjoint, Disjoint) => Disjoint
    case (Within, Within) => Within
    case (Within, _) => Intersects
    case (Contains, Within) => Intersects
    case (Contains, _) => Contains
  }

  /** The relation of the whole collection to the query when the members relate
      to it as `rels` (any order) and the bounding box did not settle it. */
  function Aggregate(rels: seq<SpatialRelation>): (r: SpatialRelation)
    requires rels != []
    ensures r != Intersects ==> r in rels
    ensures Intersects in rels ==> r == Intersects
  {
    assert rels[0] in rels;
    if Intersects in rels || (Within in rels && exists x :: x in rels && x != Within) then Intersects
    else if forall x :: x in rels ==> x == Within then Within
    else if Contains in rels then Contains
    else Disjoint
  }

  /** What `relate` answers: the bounding box's relation when that is Disjoint or
      Within, otherwise the aggregate of the members' relations. */
  function RelateSpec(bboxSect: SpatialRelation, rels: seq<SpatialRelation>): SpatialRelation
    requires rels != []
  {
    if bboxSect == Disjoint || bboxSect == Within then bboxSect else Aggregate(rels)
  }

  /** The table is commutative, associative and idempotent, and Intersects
      absorbs everything: folding it gives the same answer in any order. */
  lemma CombineIsSemilattice()
    ensures forall a, b :: Combine(a, b) == Combine(b, a)
    ensures forall a, b, c :: Combine(Combine(a, b), c) == Combine(a, Combine(b, c))
    ensures forall a :: Combine(a, a) == a
    ensures forall a :: Combine(a, Intersects) == Intersects
  {
    forall a, b, c
      ensures Combine(a, b) == Combine(b, a)
      ensures Combine(Combine(a, b), c) == Combine(a, Combine(b, c))
    {
      match a
      case Disjoint =>
      case Intersects =>
      case Contains =>
      case Within =>
    }
  }

  /** Within met together with Disjoint or with Contains, in either order,
      gives Intersects; Disjoint met with Contains gives Contains. */
  lemma CombineMixed()
    ensures Combine(Disjoint, Within) == Combine(Within, Disjoint) == Intersects
    ensures Combine(Contains, Within) == Combine(Within, Contains) == Intersects
    ensures Combine(Disjoint, Contains) == Combine(Contains, Disjoint) == Contains
  {
  }

  /** The closed form is the left fold of the table: appending one member's
      relation to a non-empty list moves the answer by one transition. */
  lemma AggregateSnoc(p: seq<SpatialRelation>, x: SpatialRelation)
    requires p != []
    ensures Aggregate(p + [x]) == Combine(Aggregate(p), x)
  {
    assert forall y :: y in p + [x] <==> y in p || y == x;
    assert p[0] in p && x in p + [x];
  }

  /** A single member decides the answer on its own. */
  lemma AggregateSingleton(x: SpatialRelation)
    ensures Aggregate([x]) == x
  {
  }

  /** Once a prefix of the members forces Intersects, no later member can
      change it: this is why the loop may return early. */
  lemma {:induction false} IntersectsIsFinal(rels: seq<SpatialRelation>, k: nat)
    requires 0 < k <= |rels|
    requires Aggregate(rels[..k]) == Intersects
    ensures Aggregate(rels) == Intersects
  {
    assert forall y :: y in rels[..k] ==> y in rels;
  }

  /** The answer depends only on which relations occur, not on how often or where. */
  lemma AggregateSameMembers(s: seq<SpatialRelation>, t: seq<SpatialRelation>)
    requires s != [] && t != []
    requires forall y :: y in s <==> y in t
    ensures Aggregate(s) == Aggregate(t)
  {
  }

  /** Any permutation of the members gives the same answer. */
  lemma AggregateOrderIndependent(s: seq<SpatialRelation>, t: seq<SpatialRelation>)
    requires s != [] && multiset(s) == multiset(t)
    ensures t != [] && Aggregate(s) == Aggregate(t)
  {
    assert forall y :: y in s <==> y in multiset(s);
    assert forall y :: y in t <==> y in multiset(t);
    AggregateSameMembers(s, t);
  }

  /** Members that all share one relation other than Intersects yield that relation. */
  lemma AggregateUniform(rels: seq<SpatialRelation>, x: SpatialRelation)
    requires rels != [] && x != Intersects
    requires forall i :: 0 <= i < |rels| ==> rels[i] == x
    ensures Aggregate(rels) == x
  {
  }

  /** Within together with any Disjoint or Contains member yields Intersects,
      whatever the order. */
  lemma AggregateWithinMixed(rels: seq<SpatialRelation>)
    requires Within in rels && (Disjoint in rels || Contains in rels)
    ensures Aggregate(rels) == Intersects
  {
  }

  /** Members that are only Disjoint or Contains yield Contains as soon as one
      of them is Contains, and Disjoint otherwise. */
  lemma AggregateDisjointContains(rels: seq<SpatialRelation>)
    requires rels != []
    requires forall x :: x in rels ==> x == Disjoint || x == Contains
    ensures Aggregate(rels) == if Contains in rels then Contains else Disjoint
  {
  }
}

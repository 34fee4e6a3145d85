/**
 * A collection of shapes that answers spatial queries as one shape. Members and
 * the bounding box are opaque: `S` is the type of a member, `B` that of the
 * bounding box. What the source obtains by calling into them (a member's or the
 * box's relation to the query, their areas, whether a member has area) is
 * passed in as a function, and the loops call it once per member visited.
 */
module ShapeCollections {
  import opened SpatialRelations
  import opened RelationAggregation
  import opened CappedArea

  datatype Option<T> = None | Some(value: T)

  datatype Result<T> = Ok(value: T) | Err(error: string)

  const EmptyCollectionError := "must be given at least 1 shape"

  /** `f` applied to every element of `s`, in order. */
  function Map<S, T>(s: seq<S>, f: S -> T): (r: seq<T>)
  {
    seq(|s|, i requires 0 <= i < |s| => f(s[i]))
  }

  /** Permuting the members permutes their answers: the same values occur. */
  lemma MapPermutation<S, T>(s: seq<S>, t: seq<S>, f: S -> T)
    requires multiset(s) == multiset(t)
    ensures forall y :: y in Map(s, f) <==> y in Map(t, f)
  {
    forall y | y in Map(s, f) ensures y in Map(t, f) {
      var i :| 0 <= i < |s| && Map(s, f)[i] == y;
      assert s[i] in multiset(t);
      var j :| 0 <= j < |t| && t[j] == s[i];
      assert Map(t, f)[j] == y;
    }
    forall y | y in Map(t, f) ensures y in Map(s, f) {
      var j :| 0 <= j < |t| && Map(t, f)[j] == y;
      assert t[j] in multiset(s);
      var i :| 0 <= i < |s| && s[i] == t[j];
      assert Map(s, f)[i] == y;
    }
  }

  /** The answer of `relate` does not depend on the order of the members. */
  lemma RelateOrderIndependent<S>(s: seq<S>, t: seq<S>, bboxSect: SpatialRelation, memberRelate: S -> SpatialRelation)
    requires s != [] && multiset(s) == multiset(t)
    ensures t != []
    ensures RelateSpec(bboxSect, Map(s, memberRelate)) == RelateSpec(bboxSect, Map(t, memberRelate))
  {
    assert |t| == |multiset(t)| == |multiset(s)| == |s|;
    MapPermutation(s, t, memberRelate);
    AggregateSameMembers(Map(s, memberRelate), Map(t, memberRelate));
  }

  class ShapeCollection<S, B> {
    /** The members in the order they were given. */
    const shapes: seq<S>
    /** The bounding box of all members, computed once at construction. */
    const bbox: B

    /** The invariant construction establishes: there is at least one member. */
    ghost predicate Valid()
    {
      |shapes| >= 1
    }

    constructor (shapes: seq<S>, bbox: B)
      requires shapes != []
      ensures Valid() && this.shapes == shapes && this.bbox == bbox
    {
      this.shapes := shapes;
      this.bbox := bbox;
    }

    /** Construction with the source's argument check: an empty member list is
        rejected, anything else gives a valid collection. `bbox` is the bounding
        box of the members. */
    static method Create(shapes: seq<S>, bbox: B) returns (r: Result<ShapeCollection<S, B>>)
      ensures r.Err? <==> shapes == []
      ensures r.Err? ==> r.error == EmptyCollectionError
      ensures r.Ok? ==> fresh(r.value) && r.value.Valid() && r.value.shapes == shapes && r.value.bbox == bbox
    {
      if shapes == [] {
        return Err(EmptyCollectionError);
      }
      var c := new ShapeCollection(shapes, bbox);
      return Ok(c);
    }

    /** True iff some member reports that it has area. */
    method HasArea(hasArea: S -> bool) returns (b: bool)
      ensures b <==> exists i :: 0 <= i < |shapes| && hasArea(shapes[i])
    {
      for i := 0 to |shapes|
        invariant forall j :: 0 <= j < i ==> !hasArea(shapes[j])
      {
        if hasArea(shapes[i]) {
          return true;
        }
      }
      return false;
    }

    /** The relation of the collection to a query. `boxRelate(bbox)` and
        `memberRelate(m)` are the box's and member m's relations to that query.
        `consulted` counts the members whose relation was asked for. */
    method Relate(boxRelate: B -> SpatialRelation, memberRelate: S -> SpatialRelation)
      returns (r: SpatialRelation, ghost consulted: nat)
      requires Valid()
      ensures r == RelateSpec(boxRelate(bbox), Map(shapes, memberRelate))
      ensures consulted <= |shapes|
      ensures boxRelate(bbox) == Disjoint || boxRelate(bbox) == Within ==> r == boxRelate(bbox)
      ensures consulted == 0 <==> boxRelate(bbox) == Disjoint || boxRelate(bbox) == Within
      ensures consulted > 0 ==> r == Aggregate(Map(shapes[..consulted], memberRelate))
      ensures consulted < |shapes| ==> consulted == 0 || r == Intersects
      ensures consulted > 1 ==> Aggregate(Map(shapes[..consulted - 1], memberRelate)) != Intersects
    {
      var bboxSect := boxRelate(bbox);
      if bboxSect == Disjoint || bboxSect == Within {
        return bboxSect, 0;
      }
      ghost var rels := Map(shapes, memberRelate);
      // Disjoint, Within or Contains once a member has been seen
      var accumulateSect: Option<SpatialRelation> := None;
      for i := 0 to |shapes|
        invariant accumulateSect.None? <==> i == 0
        invariant i > 0 ==> accumulateSect.value == Aggregate(rels[..i]) != Intersects
      {
        assert Map(shapes[..i], memberRelate) == rels[..i];
        var sect := memberRelate(shapes[i]);
        assert rels[..i + 1] == rels[..i] + [sect];
        assert Map(shapes[..i + 1], memberRelate) == rels[..i + 1];
        if i == 0 {
          AggregateSingleton(sect);
        } else {
          AggregateSnoc(rels[..i], sect);
        }
        if Aggregate(rels[..i + 1]) == Intersects {
          IntersectsIsFinal(rels, i + 1);
        }

        if sect == Intersects {
          return Intersects, i + 1;
        }
        if accumulateSect.None? {
          accumulateSect := Some(sect);
        } else if accumulateSect.value == Disjoint {
          if sect == Within {
            return Intersects, i + 1;
          }
          if sect == Contains {
            accumulateSect := Some(Contains);
          }
        } else if accumulateSect.value == Within {
          if sect == Disjoint {
            return Intersects, i + 1;
          }
          if sect == Contains {
            return Intersects, i + 1;
          }
        } else {
          assert accumulateSect.value == Contains;
          if sect == Within {
            return Intersects, i + 1;
          }
        }
      }
      assert rels[..|shapes|] == rels;
      assert shapes[..|shapes|] == shapes;
      if |shapes| > 1 {
        assert Map(shapes[..|shapes| - 1], memberRelate) == rels[..|shapes| - 1];
        if Aggregate(rels[..|shapes| - 1]) == Intersects {
          IntersectsIsFinal(rels, |shapes| - 1);
        }
      }
      return accumulateSect.value, |shapes|;
    }

    /** The area estimate: member areas summed in order, capped at the bounding
        box's area `boxArea(bbox)`. */
    method GetArea(boxArea: B -> real, area: S -> real) returns (r: real)
      requires Valid()
      ensures r == CappedSum(Map(shapes, area), boxArea(bbox))
      ensures r <= boxArea(bbox)
    {
      ghost var areas := Map(shapes, area);
      var maxArea := boxArea(bbox);
      var sum := 0.0;
      for i := 0 to |shapes|
        invariant sum == Sum(areas[..i])
        invariant forall k :: 1 <= k <= i ==> Sum(areas[..k]) < maxArea
      {
        sum := sum + area(shapes[i]);
        assert areas[..i + 1][..i] == areas[..i];
        if sum >= maxArea {
          return maxArea;
        }
      }
      assert areas[..|shapes|] == areas;
      return sum;
    }
  }
}

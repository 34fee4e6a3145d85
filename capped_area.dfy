/**
 * The area estimate of a shape collection: the running sum of the members'
 * areas, capped at the area of the bounding box. Areas are real numbers here,
 * an abstraction of the source's `double`.
 */
module CappedArea {

  /** Sum of `xs`, added from the front as the source's loop does. */
  function Sum(xs: seq<real>): (r: real)
  {
    if xs == [] then 0.0 else Sum(xs[..|xs| - 1]) + xs[|xs| - 1]
  }

  /** Some running sum (after at least one addition) reaches `cap`. */
  predicate ReachesCap(xs: seq<real>, cap: real)
  {
    exists k :: 1 <= k <= |xs| && Sum(xs[..k]) >= cap
  }

  /** The estimate: `cap` as soon as a running sum reaches it, the whole sum otherwise. */
  function CappedSum(xs: seq<real>, cap: real): (r: real)
    ensures r == cap || r == Sum(xs)
    ensures xs != [] ==> r <= cap
  {
    assert xs[..|xs|] == xs;
    if ReachesCap(xs, cap) then cap else Sum(xs)
  }

  predicate NonNegative(xs: seq<real>)
  {
    forall i :: 0 <= i < |xs| ==> xs[i] >= 0.0
  }

  /** With non-negative terms the running sums only grow. */
  lemma {:induction false} SumPrefixMonotone(xs: seq<real>, j: nat, k: nat)
    requires NonNegative(xs)
    requires j <= k <= |xs|
    ensures Sum(xs[..j]) <= Sum(xs[..k])
  {
    if j < k {
      SumPrefixMonotone(xs, j, k - 1);
      assert xs[..k][..k - 1] == xs[..k - 1];
    }
  }

  /** With non-negative areas the estimate is exactly the smaller of the plain
      sum and the cap: the sum when the members fit, the cap otherwise. */
  lemma CappedSumIsMin(xs: seq<real>, cap: real)
    requires xs != [] && NonNegative(xs)
    ensures CappedSum(xs, cap) == if Sum(xs) < cap then Sum(xs) else cap
  {
    assert xs[..|xs|] == xs;
    if ReachesCap(xs, cap) {
      var k :| 1 <= k <= |xs| && Sum(xs[..k]) >= cap;
      SumPrefixMonotone(xs, k, |xs|);
    }
  }
}

/** Element-wise numeric helpers shared by the fuzzy engine: the scalar minimum and
    maximum, the pointwise minimum of two vectors, and the maximum of a non-empty vector. */
module Vectors {

  function Min(x: real, y: real): (m: real)
    ensures m <= x && m <= y
    ensures m == x || m == y
  {
    if x <= y then x else y
  }

  function Max(x: real, y: real): (m: real)
    ensures x <= m && y <= m
    ensures m == x || m == y
  {
    if x <= y then y else x
  }

  /** A membership vector: every entry is a degree in [0,1]. */
  predicate IsDegreeVector(v: seq<real>) {
    forall i :: 0 <= i < |v| ==> 0.0 <= v[i] <= 1.0
  }

  /** The element-wise minimum of two vectors of equal length. */
  function PointwiseMin(u: seq<real>, w: seq<real>): (r: seq<real>)
    requires |u| == |w|
    ensures |r| == |u|
    ensures forall i :: 0 <= i < |r| ==> r[i] == Min(u[i], w[i])
  {
    if u == [] then [] else [Min(u[0], w[0])] + PointwiseMin(u[1..], w[1..])
  }

  /** The largest entry of a non-empty vector. */
  function MaxOf(s: seq<real>): (m: real)
    requires |s| > 0
    ensures forall i :: 0 <= i < |s| ==> s[i] <= m
    ensures exists i :: 0 <= i < |s| && s[i] == m
  {
    if |s| == 1 then s[0]
    else
      var rest := MaxOf(s[1..]);
      assert exists j :: 1 <= j < |s| && s[j] == rest by {
        var k :| 0 <= k < |s[1..]| && s[1..][k] == rest;
        assert s[k + 1] == rest;
      }
      Max(s[0], rest)
  }

  /** The maximum of a membership vector is itself a degree. */
  lemma MaxOfDegreeVector(s: seq<real>)
    requires |s| > 0 && IsDegreeVector(s)
    ensures 0.0 <= MaxOf(s) <= 1.0
  {
    var k :| 0 <= k < |s| && s[k] == MaxOf(s);
  }

  /** The maximum of a pointwise minimum is bounded by the maxima of both arguments. */
  lemma MaxOfPointwiseMin(u: seq<real>, w: seq<real>)
    requires |u| == |w| > 0
    ensures MaxOf(PointwiseMin(u, w)) <= Min(MaxOf(u), MaxOf(w))
  {
    var r := PointwiseMin(u, w);
    var k :| 0 <= k < |r| && r[k] == MaxOf(r);
    assert r[k] <= u[k] <= MaxOf(u);
    assert r[k] <= w[k] <= MaxOf(w);
  }
}

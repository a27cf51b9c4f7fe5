/** Re-expressing a derived fuzzy set through the labels of a consequent variable
    (`linguistic_match_degrees` in main.py): for each label, the largest pointwise minimum
    of the derived vector and the label's vector. */
module Matching {
  import opened Vectors
  import opened Membership
  import opened Labels
  import opened Variables
  import opened Implication

  /** The degree to which a derived vector matches one label's vector. */
  function MatchDegree(derived: seq<real>, labelVector: seq<real>): (d: real)
    requires |derived| == |labelVector| > 0
    ensures forall i :: 0 <= i < |derived| ==> Min(derived[i], labelVector[i]) <= d
    ensures exists i :: 0 <= i < |derived| && Min(derived[i], labelVector[i]) == d
  {
    var meet := PointwiseMin(derived, labelVector);
    assert forall i :: 0 <= i < |derived| ==> meet[i] == Min(derived[i], labelVector[i]);
    MaxOf(meet)
  }

  /** `d` is the best pointwise fit between `derived` and the membership of `l` at the points
      `xs`: no point fits better, and one point fits exactly. */
  predicate IsBestFit(derived: seq<real>, l: Label, xs: seq<real>, d: real)
    requires |derived| == |xs|
  {
    && (forall i :: 0 <= i < |xs| ==> Min(derived[i], Mu(l, xs[i])) <= d)
    && (exists i :: 0 <= i < |xs| && Min(derived[i], Mu(l, xs[i])) == d)
  }

  /** The best fit is unique, so it determines each match degree. */
  lemma BestFitUnique(derived: seq<real>, l: Label, xs: seq<real>, d1: real, d2: real)
    requires |derived| == |xs|
    requires IsBestFit(derived, l, xs, d1) && IsBestFit(derived, l, xs, d2)
    ensures d1 == d2
  {
    var i1 :| 0 <= i1 < |xs| && Min(derived[i1], Mu(l, xs[i1])) == d1;
    var i2 :| 0 <= i2 < |xs| && Min(derived[i2], Mu(l, xs[i2])) == d2;
  }

  /** The match degree of one label: its membership vector over the points `xs`, met
      pointwise with the derived vector, then reduced by the maximum. */
  function LabelMatch(derived: seq<real>, l: Label, xs: seq<real>): (d: real)
    requires |derived| == |xs| > 0
    ensures IsBestFit(derived, l, xs, d)
  {
    var vec := MuArray(l, xs);
    var d := MatchDegree(derived, vec);
    assert exists k :: 0 <= k < |xs| && Min(derived[k], Mu(l, xs[k])) == d by {
      var k :| 0 <= k < |derived| && Min(derived[k], vec[k]) == d;
      assert Min(derived[k], Mu(l, xs[k])) == d;
    }
    d
  }

  /** One match degree per label of the consequent variable: the best pointwise fit between
      the derived vector and that label's membership over the universe. */
  function MatchDegrees(derived: seq<real>, cons: Variable): (degrees: map<string, real>)
    requires |derived| == |cons.universe| > 0
    ensures degrees.Keys == cons.labels.Keys
    ensures forall n :: n in cons.labels ==>
      n in degrees && IsBestFit(derived, cons.labels[n], cons.universe, degrees[n])
  {
    map n | n in cons.labels :: LabelMatch(derived, cons.labels[n], cons.universe)
  }

  /** Each match degree is the match of the derived vector against that label's membership
      vector over the variable's universe. */
  lemma MatchDegreesViaVector(derived: seq<real>, cons: Variable, n: string)
    requires |derived| == |cons.universe| > 0
    requires n in cons.labels
    ensures MatchDegrees(derived, cons)[n] == MatchDegree(derived, MuVectorForLabel(cons, n))
  {
  }

  /** A non-negative derived vector yields degrees in [0,1]. */
  lemma MatchDegreesBounded(derived: seq<real>, cons: Variable)
    requires |derived| == |cons.universe| > 0
    requires forall i :: 0 <= i < |derived| ==> 0.0 <= derived[i]
    ensures forall n :: n in cons.labels ==> 0.0 <= MatchDegrees(derived, cons)[n] <= 1.0
  {
    forall n | n in cons.labels
      ensures 0.0 <= MatchDegrees(derived, cons)[n] <= 1.0
    {
      var vec := MuVectorForLabel(cons, n);
      var k :| 0 <= k < |derived| && Min(derived[k], vec[k]) == MatchDegree(derived, vec);
    }
  }

  /** Self-match: clipping the label `n` at `d` and matching the result against `n` gives
      the smaller of `d` and the label's peak over the universe. */
  lemma SelfMatch(cons: Variable, n: string, d: real)
    requires n in cons.labels && |cons.universe| > 0
    ensures MatchDegrees(Clip(d, MuVectorForLabel(cons, n)), cons)[n]
            == Min(d, MaxOf(MuVectorForLabel(cons, n)))
  {
    var vec := MuVectorForLabel(cons, n);
    var derived := Clip(d, vec);
    assert PointwiseMin(derived, vec) == derived;
    MaxOfClip(d, vec);
  }

  /** When the universe samples the label's peak and d <= 1, self-match returns d exactly. */
  lemma SelfMatchAtPeak(cons: Variable, n: string, d: real, k: nat)
    requires n in cons.labels
    requires k < |cons.universe| && AtPeak(cons.universe[k], cons.labels[n].shape)
    requires d <= 1.0
    ensures MatchDegrees(Clip(d, MuVectorForLabel(cons, n)), cons)[n] == d
  {
    SelfMatch(cons, n, d);
    MuArrayReachesOne(cons.labels[n], cons.universe, k);
  }

  /** The degrees do not depend on the order in which two distinct labels were registered. */
  lemma MatchDegreesOrderIndependent(derived: seq<real>, v: Variable,
                                     n1: string, p1: Shape, n2: string, p2: Shape)
    requires n1 != n2
    requires |derived| == |v.universe| > 0
    ensures MatchDegrees(derived, AddLabel(AddLabel(v, n1, p1), n2, p2))
            == MatchDegrees(derived, AddLabel(AddLabel(v, n2, p2), n1, p1))
  {
    AddLabelCommutes(v, n1, p1, n2, p2);
  }

  /** The shipped scenario: "warm" (10, 20, 28) at 18 degrees fires with 0.8; clipping
      "comfortable" (4.5, 6, 7.5) at that degree over a universe sampling 6 and matching it
      back gives "comfortable" the degree 0.8. */
  lemma ComfortableScenario(cons: Variable, k: nat)
    requires "comfortable" in cons.labels
    requires cons.labels["comfortable"].shape == Shape(4.5, 6.0, 7.5)
    requires k < |cons.universe| && cons.universe[k] == 6.0
    ensures
      var muA := Mu(Label("warm", Shape(10.0, 20.0, 28.0)), 18.0);
      MatchDegrees(Clip(muA, MuVectorForLabel(cons, "comfortable")), cons)["comfortable"] == 0.8
  {
    WarmAtEighteen();
    SelfMatchAtPeak(cons, "comfortable", 0.8, k);
  }
}

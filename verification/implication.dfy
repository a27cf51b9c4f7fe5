/** The Mamdani min-clipping implication (`implication_mamdani_clip` in main.py): the
    antecedent's firing degree caps the consequent's membership vector everywhere. */
module Implication {
  import opened Vectors

  function Clip(muA: real, v: seq<real>): (out: seq<real>)
    ensures |out| == |v|
    ensures forall i :: 0 <= i < |v| ==> out[i] == Min(muA, v[i])
    ensures 0.0 <= muA && IsDegreeVector(v) ==> IsDegreeVector(out)
  {
    if v == [] then [] else [Min(muA, v[0])] + Clip(muA, v[1..])
  }

  /** Every clipped entry lies below both the firing degree and the original entry. */
  lemma ClipBelowBoth(muA: real, v: seq<real>)
    ensures forall i :: 0 <= i < |v| ==> Clip(muA, v)[i] <= muA && Clip(muA, v)[i] <= v[i]
  {
  }

  /** Clipping at 1 leaves a vector bounded by 1 unchanged. */
  lemma ClipByOne(v: seq<real>)
    requires forall i :: 0 <= i < |v| ==> v[i] <= 1.0
    ensures Clip(1.0, v) == v
  {
  }

  /** Clipping at 0 turns a non-negative vector into the zero vector. */
  lemma ClipByZero(v: seq<real>)
    requires forall i :: 0 <= i < |v| ==> 0.0 <= v[i]
    ensures Clip(0.0, v) == seq(|v|, _ => 0.0)
  {
  }

  /** Clipping twice is clipping once at the smaller degree; in particular clipping is
      idempotent. */
  lemma ClipTwice(d1: real, d2: real, v: seq<real>)
    ensures Clip(d1, Clip(d2, v)) == Clip(Min(d1, d2), v)
  {
  }

  /** The peak of a clipped vector is the firing degree or the original peak, whichever
      is smaller. */
  lemma MaxOfClip(d: real, v: seq<real>)
    requires |v| > 0
    ensures MaxOf(Clip(d, v)) == Min(d, MaxOf(v))
  {
    if |v| > 1 {
      MaxOfClip(d, v[1..]);
      assert Clip(d, v)[1..] == Clip(d, v[1..]);
    }
  }
}

/** A fuzzy label (`FuzzyLabel` in main.py): a name and a triangle, evaluated at one point
    or over a whole universe. */
module Labels {
  import opened Vectors
  import opened Membership

  datatype Label = Label(name: string, shape: Shape)

  /** The label's degree at a crisp value. */
  function Mu(l: Label, x: real): (r: real)
    ensures 0.0 <= r <= 1.0
    ensures r > 0.0 <==> InSupport(x, l.shape)
    ensures r == 1.0 <==> AtPeak(x, l.shape)
  {
    Triangular(x, l.shape)
  }

  /** The label's membership vector over a sequence of sample points. */
  function MuArray(l: Label, xs: seq<real>): (v: seq<real>)
    ensures |v| == |xs|
    ensures forall i :: 0 <= i < |xs| ==> v[i] == Mu(l, xs[i])
    ensures IsDegreeVector(v)
  {
    if xs == [] then [] else [Mu(l, xs[0])] + MuArray(l, xs[1..])
  }

  /** If the sample points contain a peak of the label, its vector reaches 1. */
  lemma MuArrayReachesOne(l: Label, xs: seq<real>, k: nat)
    requires k < |xs| && AtPeak(xs[k], l.shape)
    ensures MaxOf(MuArray(l, xs)) == 1.0
  {
    var v := MuArray(l, xs);
    var j :| 0 <= j < |v| && v[j] == MaxOf(v);
    assert v[k] == 1.0;
  }
}

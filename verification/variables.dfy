/** A linguistic variable (`LinguisticVariable` in main.py): a name, a universe of sample
    points and a map from label names to labels. The universe is taken as given. */
module Variables {
  import opened Vectors
  import opened Membership
  import opened Labels

  datatype Variable = Variable(name: string, universe: seq<real>, labels: map<string, Label>)

  /** Registers the label `n` with shape `p`, silently replacing any label of that name. */
  function AddLabel(v: Variable, n: string, p: Shape): (w: Variable)
    ensures w.labels.Keys == v.labels.Keys + {n}
    ensures w.labels[n] == Label(n, p)
    ensures forall m :: m in v.labels && m != n ==> w.labels[m] == v.labels[m]
    ensures w.name == v.name && w.universe == v.universe
  {
    v.(labels := v.labels[n := Label(n, p)])
  }

  /** The membership vector of the label `n` over the variable's own universe. */
  function MuVectorForLabel(v: Variable, n: string): (vec: seq<real>)
    requires n in v.labels
    requires |v.universe| > 0
    ensures |vec| == |v.universe|
    ensures forall i :: 0 <= i < |vec| ==> vec[i] == Triangular(v.universe[i], v.labels[n].shape)
    ensures IsDegreeVector(vec)
  {
    MuArray(v.labels[n], v.universe)
  }

  /** Registering a name twice keeps only the second shape. */
  lemma AddLabelOverwrites(v: Variable, n: string, p: Shape, q: Shape)
    ensures AddLabel(AddLabel(v, n, p), n, q) == AddLabel(v, n, q)
  {
    assert AddLabel(AddLabel(v, n, p), n, q).labels == AddLabel(v, n, q).labels;
  }

  /** Registering two different names in either order gives the same variable. */
  lemma AddLabelCommutes(v: Variable, n1: string, p1: Shape, n2: string, p2: Shape)
    requires n1 != n2
    ensures AddLabel(AddLabel(v, n1, p1), n2, p2) == AddLabel(AddLabel(v, n2, p2), n1, p1)
  {
    assert AddLabel(AddLabel(v, n1, p1), n2, p2).labels == AddLabel(AddLabel(v, n2, p2), n1, p1).labels;
  }
}

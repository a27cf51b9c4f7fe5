# Mamdani min-clipping implication over triangular fuzzy sets

This project models the fuzzy-set evaluation engine of a small Python program. The program
computes a Mamdani implication, using the minimum as the clipping operator. A crisp input is
evaluated against an antecedent label. That degree caps one consequent label's membership
vector. The capped ("derived") vector is then described in terms of every label of the
consequent variable: for each label, the engine takes the largest pointwise minimum of the
derived vector and the label's vector.

Modules, following the structure of `main.py`:

- `Vectors`: the shared numeric helpers. These are the scalar `Min`/`Max`, the pointwise
  minimum of two vectors (`np.minimum`) and the maximum of a non-empty vector (`np.max`).
- `Membership`: the triangular membership function `triangular_mf`. The parameters are
  `Shape(a, b, c)`. `Classify` is the function's guard chain and `Triangular` is its value.
- `Labels`: `FuzzyLabel` becomes `Label(name, shape)`, with `Mu` (`mu`) and `MuArray`
  (`mu_array`).
- `Variables`: `LinguisticVariable` becomes `Variable(name, universe, labels)`, with `AddLabel`
  and `MuVectorForLabel`.
- `Implication`: `implication_mamdani_clip` becomes `Clip`.
- `Matching`: `linguistic_match_degrees` becomes `MatchDegrees`. `LabelMatch` gives the
  degree for one label, the loop body. `MatchDegree` matches two vectors. The file also holds
  the self-match results.

All arithmetic is over Dafny's exact `real`. The universe is a given `seq<real>`.

Behaviour of the code that a reader might not expect:

- Membership is in [0,1] for every shape, even an ill-ordered one. Membership is positive
  exactly on the open interval (a, c). For the singleton shape a == b == c, it is positive
  exactly at a.
- The final `return 0.0` of `triangular_mf` can never be reached, for any shape.
- The `else 1.0` fallbacks guarding the two divisions can never be taken either.
- A "shoulder" triangle has degree 0 at its own peak, because the end-point test runs first.
  This covers a == b < c, for example the shipped label (0, 0, 3), and also a < b == c.
  One would expect the rising edge to be non-decreasing for a < x1 < x2 <= b, and the
  falling edge to be non-increasing for b <= x1 < x2 < c. With the code as written, these
  hold only when the peak is not an end point. So `RisingEdgeIncreasing` also needs x2 < c.
  `FallingEdgeDecreasing` also needs a < x1. `ShoulderPeaksAreZero` shows both failures.
- Self-match returns the clipping degree d exactly when d is at most the maximum of the
  label's sampled vector; `SelfMatch` states the general result, min(d, that maximum). Because
  of the shoulder behaviour, that maximum can be below 1. Every d <= 1 comes back unchanged
  when the universe samples a point where the label is exactly 1 (`SelfMatchAtPeak`).

## Model

| member | source | states |
|---|---|---|
| `Membership.Classify` | main.py:13-21 | the guard chain never reaches the final fall-through, for any shape |
| `Membership.Triangular` | main.py:11-21 | the degree lies in [0,1]; it is positive exactly on the support (the point a for a singleton, the open interval (a, c) otherwise); it is 1 exactly at the peak (a for a singleton, b when a < b < c, nowhere otherwise) |
| `Membership.SingletonDegree` | main.py:13-14 | a singleton shape gives 1 at its point and 0 everywhere else |
| `Membership.ZeroOutsideSupport` | main.py:15-16 | a non-singleton shape gives 0 at every x <= a or x >= c, end points included |
| `Membership.PeakDegree` | main.py:17-18 | a triangle with a < b < c gives exactly 1 at b |
| `Membership.RisingEdgeIncreasing` | main.py:17-18 | the degree strictly increases for a < x1 < x2 <= b when x2 < c |
| `Membership.FallingEdgeDecreasing` | main.py:19-20 | the degree strictly decreases for b <= x1 < x2 < c when a < x1 |
| `Membership.ShoulderPeaksAreZero` | main.py:15-20 | the shapes (0,0,3) and (0,1,1) give 0 at their peak and a positive degree next to it |
| `Membership.WarmAtEighteen` | main.py:77-91 | the value 18 has degree 0.8 in the label (10, 20, 28) |
| `Labels.Mu` | main.py:29-30 | a label's degree is its shape's triangular degree: in [0,1], positive on the support, 1 at the peak |
| `Labels.MuArray` | main.py:32-34 | the vector has the same length as the sample points, entry i is the degree of point i, and every entry is in [0,1] |
| `Labels.MuArrayReachesOne` | main.py:32-34 | when a sample point is a peak of the label, the label's vector has maximum 1 |
| `Variables.AddLabel` | main.py:43-44 | the name maps to a label with the given shape, whether or not it was present; the key set grows by at most that name; every other label, the name and the universe are unchanged |
| `Variables.MuVectorForLabel` | main.py:46-47 | for a registered name and a non-empty universe, the vector has one entry per universe point, equal to that label's degree there, all in [0,1] |
| `Variables.AddLabelOverwrites` | main.py:43-44 | registering a name twice is the same as registering only the second shape |
| `Variables.AddLabelCommutes` | main.py:43-44 | registering two different names in either order gives the same variable |
| `Vectors.PointwiseMin` | main.py:58 | the element-wise minimum keeps the length and entry i is min(u[i], w[i]) |
| `Vectors.MaxOf` | main.py:59 | the maximum of a non-empty vector bounds every entry and is one of them |
| `Vectors.MaxOfDegreeVector` | main.py:59 | the maximum of a vector with entries in [0,1] is in [0,1] |
| `Vectors.MaxOfPointwiseMin` | main.py:58-59 | the maximum of a pointwise minimum is at most the smaller of the two maxima |
| `Implication.Clip` | main.py:50-51 | length is preserved; entry i is min(muA, v[i]); a non-negative degree applied to a vector in [0,1] gives a vector in [0,1] |
| `Implication.ClipBelowBoth` | main.py:50-51 | every clipped entry is at most muA and at most the original entry |
| `Implication.ClipByOne` | main.py:50-51 | clipping at 1 leaves a vector bounded by 1 unchanged |
| `Implication.ClipByZero` | main.py:50-51 | clipping at 0 turns a non-negative vector into the all-zero vector |
| `Implication.ClipTwice` | main.py:50-51 | clipping at d2 and then at d1 equals clipping once at min(d1, d2); clipping is idempotent |
| `Implication.MaxOfClip` | main.py:50-51 | the maximum of a clipped vector is min(d, maximum of the vector) |
| `Matching.MatchDegree` | main.py:57-59 | for equal non-empty lengths, the degree is at least every pointwise min(derived[i], label[i]) and equals one of them |
| `Matching.LabelMatch` | main.py:57-59 | the degree of one label is the best fit: at least min(derived[i], the label's degree at point i) for every point i, and equal to it at some point |
| `Matching.BestFitUnique` | main.py:57-59 | at most one value is the best fit, so the best-fit property determines each degree |
| `Matching.MatchDegrees` | main.py:54-60 | the result has exactly one key per consequent label, and each value is the maximum over universe points i of min(derived[i], that label's degree at point i) |
| `Matching.MatchDegreesViaVector` | main.py:57-59 | each value is the match of the derived vector against that label's membership vector over the universe |
| `Matching.MatchDegreesBounded` | main.py:54-60 | a non-negative derived vector yields every degree in [0,1] |
| `Matching.SelfMatch` | main.py:50-60 | clipping label n at d and matching against n gives min(d, the maximum of n's vector) |
| `Matching.SelfMatchAtPeak` | main.py:50-60 | if the universe samples a peak of label n and d <= 1, self-match gives exactly d |
| `Matching.MatchDegreesOrderIndependent` | main.py:54-60 | the degrees do not depend on the order in which two different labels were registered |
| `Matching.ComfortableScenario` | main.py:89-98 | if the universe samples 6, then "comfortable" (4.5, 6, 7.5), clipped at the degree of 18 in "warm" and matched back, gets degree 0.8 |

## Left out

- The interactive driver `run_interactive` (main.py:64-175) is left out. It covers console
  prompts, parsing numbers from text, choosing the first registered label by default,
  printing degrees sorted by value, and the hard-coded example. It is input/output glue. Only
  the example's numbers reappear, in `WarmAtEighteen` and `ComfortableScenario`.
- Plotting with matplotlib, and the check for whether it is installed (main.py:4-8,
  104-117, 163-175), are left out. This is an optional rendering library.
- Building the universe with `np.arange(min, max + 1e-9, step)` (main.py:41) is left out. It
  depends on floating-point stepping and a tolerance. A `Variable` takes its universe as a
  given sequence, so the constructor is just the datatype constructor.
- IEEE floating point is not modelled: no rounding, NaN or infinities, and no `float(x)`
  coercion (main.py:12). Degrees are exact reals.
- numpy's exceptions are preconditions instead of modelled errors. `MuVectorForLabel` requires
  a registered name, where the code raises `KeyError`. It also requires a non-empty universe,
  because `np.vectorize` without declared output types raises `ValueError` on an empty input.
  `MatchDegree` and `MatchDegrees` require a derived vector of the universe's length and a
  non-empty universe. Where lengths differ, numpy would raise or, for length 1, broadcast. An
  empty universe already raises when the first label's vector is computed (main.py:57), before
  `np.max` is reached.
- MuArray: returns the empty vector for an empty sequence of points, where `np.vectorize`
  without declared output types raises `ValueError`. Every caller in the model passes a
  non-empty universe.
- MatchDegrees: requires equal, non-empty lengths even when the variable has no labels. The
  code then never enters its loop and returns an empty map for any derived vector.
- Checks the code never makes are not modelled. It does not check shape ordering or that
  degrees lie in [0,1], and it does not reject a duplicate label name. `AddLabel` overwrites,
  as the code does.
- The insertion order of labels, which the dictionary keeps only for display, is not
  modelled. Labels live in a `map`.

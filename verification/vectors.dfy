/** Dense attribute vectors: the `vector<double>` of the k-means program with
    `double` read as `real`. */
module Vectors {

  type Vec = seq<real>

  /** Every vector of `vs` has `d` attributes. */
  predicate Dims(vs: seq<Vec>, d: nat) {
    forall i :: 0 <= i < |vs| ==> |vs[i]| == d
  }

  /** A vector of `n` zeros, as `assign(total_attr, 0.0)` builds it. */
  function Zeros(n: nat): (r: Vec)
    ensures |r| == n
    ensures forall a :: 0 <= a < n ==> r[a] == 0.0
  {
    seq(n, _ => 0.0)
  }

  predicate IsZero(v: Vec) {
    forall a :: 0 <= a < |v| ==> v[a] == 0.0
  }

  /** Elementwise sum. */
  function Add(u: Vec, v: Vec): (r: Vec)
    requires |u| == |v|
    ensures |r| == |u|
    ensures forall a :: 0 <= a < |u| ==> r[a] == u[a] + v[a]
  {
    seq(|u|, a requires 0 <= a < |u| => u[a] + v[a])
  }

  /** Elementwise division by a positive count. */
  function Div(v: Vec, n: int): (r: Vec)
    requires n > 0
    ensures |r| == |v|
    ensures forall a :: 0 <= a < |v| ==> r[a] == v[a] / (n as real)
  {
    seq(|v|, a requires 0 <= a < |v| => v[a] / (n as real))
  }

  function SqDiff(x: real, y: real): (r: real)
    ensures r >= 0.0
  {
    (x - y) * (x - y)
  }

  /** Squared distance over the first `n` attributes, accumulated in ascending
      attribute order (the order of every distance loop of the program). */
  function SqDistUpTo(c: Vec, p: Vec, n: nat): (r: real)
    requires n <= |c| && n <= |p|
    ensures r >= 0.0
  {
    if n == 0 then 0.0 else SqDistUpTo(c, p, n - 1) + SqDiff(c[n - 1], p[n - 1])
  }

  /** Squared Euclidean distance between centroid `c` and point `p`. */
  function SqDist(c: Vec, p: Vec): (r: real)
    requires |c| == |p|
    ensures r >= 0.0
  {
    SqDistUpTo(c, p, |c|)
  }

  lemma ZeroIsZeros(v: Vec)
    requires IsZero(v)
    ensures v == Zeros(|v|)
  {
  }

  lemma AddZeros(v: Vec)
    ensures Add(v, Zeros(|v|)) == v
    ensures Add(Zeros(|v|), v) == v
  {
  }

  lemma AddComm(u: Vec, v: Vec)
    requires |u| == |v|
    ensures Add(u, v) == Add(v, u)
  {
  }

  lemma AddAssoc(u: Vec, v: Vec, w: Vec)
    requires |u| == |v| == |w|
    ensures Add(Add(u, v), w) == Add(u, Add(v, w))
  {
  }
}

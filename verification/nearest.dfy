/** The nearest-centroid classifier. Every program scans the centroids in
    increasing index order, starts from centroid 0 and replaces the incumbent
    only on a strictly smaller squared distance, so the lowest index among the
    nearest centroids wins. */
module Nearest {
  import opened Vectors

  /** At least one centroid, and every centroid has as many attributes as `p`. */
  predicate Fits(p: Vec, cents: seq<Vec>) {
    |cents| >= 1 && forall c :: 0 <= c < |cents| ==> |cents[c]| == |p|
  }

  /** `k` is the first index of a nearest centroid among centroids [0,n). */
  predicate IsFirstNearestAmong(p: Vec, cents: seq<Vec>, n: nat, k: int)
    requires Fits(p, cents) && n <= |cents|
  {
    && 0 <= k < n
    && (forall j {:trigger SqDist(cents[j], p)} :: 0 <= j < n ==> SqDist(cents[k], p) <= SqDist(cents[j], p))
    && (forall j {:trigger SqDist(cents[j], p)} :: 0 <= j < k ==> SqDist(cents[j], p) > SqDist(cents[k], p))
  }

  /** `k` is the first index of a nearest centroid. */
  predicate IsFirstNearest(p: Vec, cents: seq<Vec>, k: int)
    requires Fits(p, cents)
  {
    IsFirstNearestAmong(p, cents, |cents|, k)
  }

  /** The scan over centroids [0,n), as a function. */
  function NearestAmong(p: Vec, cents: seq<Vec>, n: nat): (k: nat)
    requires Fits(p, cents) && 1 <= n <= |cents|
    ensures IsFirstNearestAmong(p, cents, n, k)
  {
    if n == 1 then 0
    else
      var b := NearestAmong(p, cents, n - 1);
      if SqDist(cents[n - 1], p) < SqDist(cents[b], p) then n - 1 else b
  }

  /** The index of the centroid nearest to `p`; the first one on ties. */
  function NearestCentroid(p: Vec, cents: seq<Vec>): (k: nat)
    requires Fits(p, cents)
    ensures k < |cents|
    ensures IsFirstNearest(p, cents, k)
  {
    NearestAmong(p, cents, |cents|)
  }

  /** One step of the scan: centroid i replaces the best so far exactly
      when it is strictly nearer. */
  lemma NearestAmongStep(p: Vec, cents: seq<Vec>, i: nat, best: nat, dist: real)
    requires Fits(p, cents) && 1 <= i < |cents| && best == NearestAmong(p, cents, i)
    requires dist == SqDist(cents[i], p)
    ensures NearestAmong(p, cents, i + 1) == if dist < SqDist(cents[best], p) then i else best
  {
  }

  /** The first nearest index is determined by the distances alone. */
  lemma FirstNearestUnique(p: Vec, cents: seq<Vec>, k1: int, k2: int)
    requires Fits(p, cents)
    requires IsFirstNearest(p, cents, k1) && IsFirstNearest(p, cents, k2)
    ensures k1 == k2
  {
    assert SqDist(cents[k1], p) <= SqDist(cents[k2], p);
    assert SqDist(cents[k2], p) <= SqDist(cents[k1], p);
  }

  /** Characterisation of the classifier: an index is the one the scan returns
      exactly when it is the first nearest centroid. */
  lemma NearestCentroidIff(p: Vec, cents: seq<Vec>, k: int)
    requires Fits(p, cents)
    ensures k == NearestCentroid(p, cents) <==> IsFirstNearest(p, cents, k)
  {
    if IsFirstNearest(p, cents, k) {
      FirstNearestUnique(p, cents, k, NearestCentroid(p, cents));
    }
  }

  /** The inner distance loop: squared differences summed in ascending order. */
  method SquaredDistance(c: Vec, p: Vec) returns (sum: real)
    requires |c| == |p|
    ensures sum == SqDist(c, p)
  {
    sum := 0.0;
    var j := 0;
    while j < |p|
      invariant 0 <= j <= |p|
      invariant sum == SqDistUpTo(c, p, j)
    {
      var diff := c[j] - p[j];
      sum := sum + diff * diff;
      j := j + 1;
    }
  }

  /** `findNearestCluster` (parallel-simple) and `getIDNearestCenter`
      (serial-fast): distance to centroid 0 first, then a strict-improvement
      scan over centroids 1..K-1. */
  method FindNearestCluster(p: Vec, cents: seq<Vec>) returns (k: nat)
    requires Fits(p, cents)
    ensures k < |cents|
    ensures IsFirstNearest(p, cents, k)
    ensures k == NearestCentroid(p, cents)
  {
    var minDist := SquaredDistance(cents[0], p);
    k := 0;
    var i := 1;
    while i < |cents|
      invariant 1 <= i <= |cents|
      invariant k == NearestAmong(p, cents, i)
      invariant minDist == SqDist(cents[k], p)
    {
      var sum := SquaredDistance(cents[i], p);
      if sum < minDist {
        minDist := sum;
        k := i;
      }
      i := i + 1;
    }
  }
}

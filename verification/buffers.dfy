/** The flat buffers of the two programs without cluster objects
    (`src/kmeans-parallel-fast.cpp` and `src/kmeans-serial-fast-no-cluster.cpp`):
    the `KMeans` object keeps the centroids and the attribute sums in two flat
    vectors of K*D values, row c of each at `getClusterIndex(c, 0) = c * D`,
    and the sizes in a vector of K counts. Both programs share the
    classifier, the constructor and the seeding. */
module Buffers {
  import opened Vectors
  import opened Points
  import opened Nearest
  import opened Lloyd
  import opened Objects
  import opened Seeding
  import Flat

  /** The points and the three buffers of a `KMeans` object. */
  datatype Instance = Instance(points: seq<Point>, centralValues: seq<real>, attributeSums: seq<real>, clusterCounts: seq<int>)

  /** The buffers have the sizes the constructor gives them: K*D values for
      the centroids and the sums, K counts. */
  predicate Buffered(pr: Problem, x: Instance) {
    && |x.centralValues| == Flat.Offset(pr.k, pr.d)
    && |x.attributeSums| == Flat.Offset(pr.k, pr.d)
    && |x.clusterCounts| == pr.k
  }

  /** The objects are those of problem `pr`. */
  predicate Fit(pr: Problem, x: Instance) {
    pr.Valid() && PointsFit(pr, x.points) && Buffered(pr, x)
  }

  /** Every value of the sums buffer is zero, as between two iterations. */
  predicate SumsClear(x: Instance) {
    forall j :: 0 <= j < |x.attributeSums| ==> x.attributeSums[j] == 0.0
  }

  /** The cluster rows the buffers stand for: row c of each buffer holds
      cluster c. */
  function Rows(pr: Problem, x: Instance): (s: State)
    ensures s.assign == Ids(x.points) && s.counts == x.clusterCounts
    ensures Buffered(pr, x) ==>
              && s.cents == Flat.Rows(x.centralValues, pr.k, pr.d)
              && s.sums == Flat.Rows(x.attributeSums, pr.k, pr.d)
  {
    if Buffered(pr, x) then
      State(Ids(x.points), Flat.Rows(x.centralValues, pr.k, pr.d), x.clusterCounts, Flat.Rows(x.attributeSums, pr.k, pr.d))
    else State(Ids(x.points), [], x.clusterCounts, [])
  }

  /** Fitting buffers stand for well-shaped rows; a zero sums buffer for
      cleared rows. */
  lemma FitRows(pr: Problem, x: Instance)
    requires Fit(pr, x)
    ensures Shaped(pr, Rows(pr, x))
    ensures SumsClear(x) ==> SumsCleared(Rows(pr, x))
  {
    if SumsClear(x) {
      Flat.RowsOfZeros(x.attributeSums, pr.k, pr.d);
    }
  }

  // ---------------------------------------------------------------------------
  // The classifier on the flat centroid buffer

  /** The squared distance between row c of the centroid buffer and `p`,
      read through `getClusterIndex(c, 0)`. */
  method RowDistance(cv: seq<real>, c: nat, d: nat, p: Vec) returns (sum: real)
    requires Flat.Offset(c, d) + d <= |cv| && |p| == d
    ensures sum == SqDist(Flat.Row(cv, c, d), p)
  {
    Flat.OffsetIsProduct(c, d);
    var start := Flat.ClusterIndex(c, 0, d);
    ghost var row := Flat.Row(cv, c, d);
    sum := 0.0;
    var j := 0;
    while j < d
      invariant 0 <= j <= d
      invariant sum == SqDistUpTo(row, p, j)
    {
      var diff := cv[start + j] - p[j];
      sum := sum + diff * diff;
      j := j + 1;
    }
  }

  /** `findNearestCluster`: the distance to row 0 first, then a
      strict-improvement scan over rows 1..K-1; the first nearest row wins. */
  method FindNearestCluster(pr: Problem, cv: seq<real>, p: Point) returns (id: nat)
    requires pr.Valid() && |cv| == Flat.Offset(pr.k, pr.d) && |p.values| == pr.d
    ensures id < pr.k
    ensures IsFirstNearest(p.values, Flat.Rows(cv, pr.k, pr.d), id)
    ensures id == NearestCentroid(p.values, Flat.Rows(cv, pr.k, pr.d))
  {
    ghost var cents := Flat.Rows(cv, pr.k, pr.d);
    var minDist := RowDistance(cv, 0, pr.d, p.values);
    id := 0;
    var i := 1;
    while i < pr.k
      invariant 1 <= i <= pr.k
      invariant id == NearestAmong(p.values, cents, i)
      invariant minDist == SqDist(cents[id], p.values)
    {
      var sum := RowDistance(cv, i, pr.d, p.values);
      NearestAmongStep(p.values, cents, i, id, sum);
      if sum < minDist {
        minDist := sum;
        id := i;
      }
      i := i + 1;
    }
  }

  /** The centroid rows of a buffered instance. */
  function CentRows(pr: Problem, x: Instance): (r: seq<Vec>)
    requires Buffered(pr, x)
    ensures |r| == pr.k && Dims(r, pr.d)
  {
    Flat.Rows(x.centralValues, pr.k, pr.d)
  }

  /** The sum rows of a buffered instance. */
  function SumRows(pr: Problem, x: Instance): (r: seq<Vec>)
    requires Buffered(pr, x)
    ensures |r| == pr.k && Dims(r, pr.d)
  {
    Flat.Rows(x.attributeSums, pr.k, pr.d)
  }


  /** The constructor: K*D zero centroid values, K*D zero sums, K zero
      counts. */
  function Constructed(pr: Problem, points: seq<Point>): (x: Instance)
    ensures x.points == points && Buffered(pr, x) && SumsClear(x)
  {
    Instance(points, seq(Flat.Offset(pr.k, pr.d), _ => 0.0), seq(Flat.Offset(pr.k, pr.d), _ => 0.0), seq(pr.k, _ => 0))
  }

  /** The objects after choosing `seeds`: point `seeds[c]` is in cluster c,
      every other point is still unassigned, count c is 1 and centroid row c
      holds the values of point `seeds[c]`; the sums are still zero. */
  predicate SeededBy(pr: Problem, x: Instance, seeds: seq<nat>) {
    && pr.Valid() && DistinctIndexes(seeds, |pr.vals|) && |seeds| <= pr.k
    && PointsHold(pr, x.points) && Ids(x.points) == SeedAssign(|pr.vals|, seeds)
    && Buffered(pr, x) && SumsClear(x)
    && (forall c :: 0 <= c < |seeds| ==> x.clusterCounts[c] == 1)
    && (forall c :: 0 <= c < |seeds| ==> CentRows(pr, x)[c] == pr.vals[seeds[c]])
  }

  /** The body of the seeding loop for an index not yet prohibited: it is
      recorded, its point joins cluster i = |prohibited|, count i becomes 1
      and the point's values are copied to centroid row i. */
  function Accept(pr: Problem, x: Instance, prohibited: seq<nat>, index: nat): (r: (Instance, seq<nat>))
    requires SeededBy(pr, x, prohibited) && |prohibited| < pr.k
    requires index < |pr.vals| && index !in prohibited
    ensures SeededBy(pr, r.0, r.1) && r.1 == prohibited + [index]
  {
    var i := |prohibited|;
    Flat.OffsetMono(i, pr.k, pr.d);
    var y := x.(points := x.points[index := x.points[index].SetCluster(i)],
                clusterCounts := x.clusterCounts[i := 1],
                centralValues := Flat.SetRow(x.centralValues, i, pr.d, pr.vals[index]));
    AcceptPoints(pr, x, prohibited, index, y);
    AcceptCounts(x, |prohibited|, y);
    AcceptRows(pr, x, prohibited, index, y);
    (y, prohibited + [index])
  }

  /** The accepted point joins the next cluster; the others keep theirs. */
  lemma AcceptPoints(pr: Problem, x: Instance, prohibited: seq<nat>, index: nat, y: Instance)
    requires DistinctIndexes(prohibited, |pr.vals|) && PointsHold(pr, x.points)
    requires Ids(x.points) == SeedAssign(|pr.vals|, prohibited)
    requires index < |pr.vals| && index !in prohibited
    requires y.points == x.points[index := x.points[index].SetCluster(|prohibited|)]
    ensures DistinctIndexes(prohibited + [index], |pr.vals|)
    ensures PointsHold(pr, y.points) && Ids(y.points) == SeedAssign(|pr.vals|, prohibited + [index])
  {
    DistinctAppend(prohibited, |pr.vals|, index);
    SeedAssignAppend(|pr.vals|, prohibited, index);
    IdsSetCluster(x.points, index, |prohibited|);
    SetClusterHolds(pr, x.points, index, |prohibited|);
  }

  /** Count i becomes 1; the counts before i stay 1. */
  lemma AcceptCounts(x: Instance, i: nat, y: Instance)
    requires i < |x.clusterCounts| && y.clusterCounts == x.clusterCounts[i := 1]
    requires forall c :: 0 <= c < i ==> x.clusterCounts[c] == 1
    ensures forall c :: 0 <= c < i + 1 ==> y.clusterCounts[c] == 1
  {
  }

  /** Centroid row i belongs to the accepted point; the rows before i keep
      their seeds. */
  lemma AcceptRows(pr: Problem, x: Instance, prohibited: seq<nat>, index: nat, y: Instance)
    requires pr.Valid() && Buffered(pr, x) && |prohibited| < pr.k && index < |pr.vals|
    requires DistinctIndexes(prohibited, |pr.vals|) && Flat.Offset(|prohibited|, pr.d) + pr.d <= |x.centralValues|
    requires forall c :: 0 <= c < |prohibited| ==> CentRows(pr, x)[c] == pr.vals[prohibited[c]]
    requires Buffered(pr, y)
    requires y.centralValues == Flat.SetRow(x.centralValues, |prohibited|, pr.d, pr.vals[index])
    ensures forall c :: 0 <= c < |prohibited| + 1 ==> CentRows(pr, y)[c] == pr.vals[(prohibited + [index])[c]]
  {
    Flat.RowsSetRow(x.centralValues, pr.k, pr.d, |prohibited|, pr.vals[index]);
  }

  /** `initializeClusterCentroids` for the draws left: each draw gives
      `index_point = rand() % total_points`; an index already prohibited is
      skipped, any other is accepted; the loop ends once K indices are
      accepted or the draws run out. */
  function SeedFrom(pr: Problem, draws: seq<nat>, x: Instance, prohibited: seq<nat>): (r: (Instance, seq<nat>))
    requires SeededBy(pr, x, prohibited) && pr.k <= |pr.vals|
    ensures SeededBy(pr, r.0, r.1)
    ensures r.1 == PickFrom(draws, |pr.vals|, pr.k, prohibited)
    decreases |draws|
  {
    if |prohibited| == pr.k || |draws| == 0 then (x, prohibited)
    else
      var index := draws[0] % |x.points|;
      var (y, next) := if index in prohibited then (x, prohibited) else Accept(pr, x, prohibited, index);
      SeedFrom(pr, draws[1..], y, next)
  }

  /** The constructed objects on unassigned points are seeded by no seed. */
  lemma StartSeeded(pr: Problem, points: seq<Point>)
    requires pr.Valid() && PointsHold(pr, points) && AllUnassigned(points)
    ensures SeededBy(pr, Constructed(pr, points), [])
  {
    assert Ids(points) == SeedAssign(|pr.vals|, []);
  }

  /** Seeded objects with K seeds fit, have zero sums and stand for the
      reference seeded state. */
  lemma SeededRows(pr: Problem, x: Instance, seeds: seq<nat>)
    requires SeededBy(pr, x, seeds) && |seeds| == pr.k
    ensures Fit(pr, x) && SumsClear(x) && Rows(pr, x) == Seeded(pr, seeds)
  {
    SeedAssignSpec(|pr.vals|, seeds);
    assert Fit(pr, x);
    FitRows(pr, x);
    var r, t := Rows(pr, x), Seeded(pr, seeds);
    assert r.cents == t.cents;
    assert r.counts == t.counts;
    Flat.RowsOfZeros(x.attributeSums, pr.k, pr.d);
    assert r.sums == t.sums;
  }
}

/** `src/kmeans-serial-fast-unroll.cpp`: clusters keep a point count instead of
    their members, the attribute loops are unrolled by eight with a cleanup
    loop, the centroid update multiplies by the reciprocal of the count, and
    each iteration updates and then clears the sums. Every method below is
    proved to compute the cluster-row operation of the reference iteration. */
module SerialFastUnroll {
  import opened Vectors
  import opened Points
  import opened Nearest
  import opened Lloyd
  import opened Objects
  import opened Seeding
  import opened Loops
  import opened Runs
  import Iteration

  /** A cluster object: id, attribute count, centroid, attribute sums and the
      number of points. */
  datatype Cluster = Cluster(id: int, totalAttr: nat, central: Vec, sums: Vec, numPoints: int)
  {
    predicate WellFormed() {
      |central| == totalAttr && |sums| == totalAttr
    }

    /** `incrementNumPoints`. */
    function Increment(): (r: Cluster)
      ensures r.numPoints == numPoints + 1
      ensures r.(numPoints := numPoints) == this
    {
      this.(numPoints := numPoints + 1)
    }

    /** `decrementNumPoints`. */
    function Decrement(): (r: Cluster)
      ensures r.numPoints == numPoints - 1
      ensures r.(numPoints := numPoints) == this
    {
      this.(numPoints := numPoints - 1)
    }

    /** `clearAttributeSums`: every sum becomes 0.0, nothing else changes. */
    function ClearAttributeSums(): (r: Cluster)
      requires WellFormed()
      ensures r.WellFormed() && IsZero(r.sums)
      ensures r.(sums := sums) == this
    {
      this.(sums := Zeros(totalAttr))
    }
  }

  /** The centroids of the clusters, in cluster order. */
  function Centrals(clusters: seq<Cluster>): (r: seq<Vec>)
    ensures |r| == |clusters|
    ensures forall c :: 0 <= c < |clusters| ==> r[c] == clusters[c].central
  {
    if |clusters| == 0 then [] else Centrals(clusters[..|clusters| - 1]) + [clusters[|clusters| - 1].central]
  }

  /** The seeding constructor `Cluster(id, point, total_attr)`: a count of 1,
      zero sums and a copy of the first `total_attr` values of the point. */
  method NewCluster(id: int, p: Point, totalAttr: nat) returns (cl: Cluster)
    requires totalAttr <= |p.values|
    ensures cl.WellFormed() && cl.id == id && cl.totalAttr == totalAttr
    ensures cl.numPoints == 1 && cl.sums == Zeros(totalAttr)
    ensures cl.central == p.values[..totalAttr]
  {
    var central: Vec := [];
    var i := 0;
    while i < totalAttr
      invariant 0 <= i <= totalAttr
      invariant central == p.values[..i]
    {
      central := central + [p.values[i]];
      i := i + 1;
    }
    cl := Cluster(id, totalAttr, central, Zeros(totalAttr), 1);
  }

  /** One attribute of the update: a sum times the reciprocal of the count. */
  function Scale(x: real, inverse: real): real
  {
    x * inverse
  }

  /** Multiplying by the reciprocal of a positive count is dividing by it. */
  lemma ScaleByReciprocal(v: Vec, n: int)
    requires n > 0
    ensures forall a :: 0 <= a < |v| ==> Scale(v[a], 1.0 / (n as real)) == Div(v, n)[a]
  {
    forall a | 0 <= a < |v|
      ensures Scale(v[a], 1.0 / (n as real)) == v[a] / (n as real)
    {
    }
  }

  /** `updateCentralValues`: nothing happens for a count that is not positive;
      otherwise every centroid value becomes its sum times the reciprocal of
      the count, eight at a time and then one at a time, which is the sum
      divided by the count. */
  method UpdateCentralValues(cl: Cluster) returns (r: Cluster)
    requires cl.WellFormed()
    ensures r.WellFormed()
    ensures r.(central := cl.central) == cl
    ensures cl.numPoints > 0 ==> r.central == Div(cl.sums, cl.numPoints)
    ensures cl.numPoints <= 0 ==> r == cl
  {
    r := cl;
    if cl.numPoints <= 0 {
      return;
    }
    var inverse := 1.0 / (cl.numPoints as real);
    var central := cl.central;
    var n := cl.totalAttr;
    var i := 0;
    while i + 7 < n
      invariant 0 <= i <= n && |central| == n
      invariant forall a :: 0 <= a < i ==> central[a] == Scale(cl.sums[a], inverse)
    {
      central := central[i := Scale(cl.sums[i], inverse)];
      central := central[i + 1 := Scale(cl.sums[i + 1], inverse)];
      central := central[i + 2 := Scale(cl.sums[i + 2], inverse)];
      central := central[i + 3 := Scale(cl.sums[i + 3], inverse)];
      central := central[i + 4 := Scale(cl.sums[i + 4], inverse)];
      central := central[i + 5 := Scale(cl.sums[i + 5], inverse)];
      central := central[i + 6 := Scale(cl.sums[i + 6], inverse)];
      central := central[i + 7 := Scale(cl.sums[i + 7], inverse)];
      i := i + 8;
    }
    while i < n
      invariant 0 <= i <= n && |central| == n
      invariant forall a :: 0 <= a < i ==> central[a] == Scale(cl.sums[a], inverse)
    {
      central := central[i := Scale(cl.sums[i], inverse)];
      i := i + 1;
    }
    ScaleByReciprocal(cl.sums, cl.numPoints);
    r := cl.(central := central);
  }

  /** `addAttributeSums`: the point's values are added to the sums, eight at
      a time and then one at a time. */
  method AddAttributeSums(cl: Cluster, p: Point) returns (r: Cluster)
    requires cl.WellFormed() && |p.values| == cl.totalAttr
    ensures r.WellFormed()
    ensures r.(sums := cl.sums) == cl
    ensures r.sums == Add(cl.sums, p.values)
  {
    var sums := cl.sums;
    var n := cl.totalAttr;
    var i := 0;
    while i + 7 < n
      invariant 0 <= i <= n && |sums| == n
      invariant forall a :: 0 <= a < i ==> sums[a] == cl.sums[a] + p.values[a]
      invariant forall a :: i <= a < n ==> sums[a] == cl.sums[a]
    {
      sums := sums[i := sums[i] + p.values[i]];
      sums := sums[i + 1 := sums[i + 1] + p.values[i + 1]];
      sums := sums[i + 2 := sums[i + 2] + p.values[i + 2]];
      sums := sums[i + 3 := sums[i + 3] + p.values[i + 3]];
      sums := sums[i + 4 := sums[i + 4] + p.values[i + 4]];
      sums := sums[i + 5 := sums[i + 5] + p.values[i + 5]];
      sums := sums[i + 6 := sums[i + 6] + p.values[i + 6]];
      sums := sums[i + 7 := sums[i + 7] + p.values[i + 7]];
      i := i + 8;
    }
    while i < n
      invariant 0 <= i <= n && |sums| == n
      invariant forall a :: 0 <= a < i ==> sums[a] == cl.sums[a] + p.values[a]
      invariant forall a :: i <= a < n ==> sums[a] == cl.sums[a]
    {
      sums := sums[i := sums[i] + p.values[i]];
      i := i + 1;
    }
    r := cl.(sums := sums);
  }

  /** One round of the unrolled loop adds the squared differences of
      attributes j..j+7, in ascending order. */
  lemma EightTerms(c: Vec, p: Vec, j: nat)
    requires j + 8 <= |c| && |c| == |p|
    ensures SqDistUpTo(c, p, j + 8)
         == SqDistUpTo(c, p, j)
            + (c[j] - p[j]) * (c[j] - p[j]) + (c[j + 1] - p[j + 1]) * (c[j + 1] - p[j + 1])
            + (c[j + 2] - p[j + 2]) * (c[j + 2] - p[j + 2]) + (c[j + 3] - p[j + 3]) * (c[j + 3] - p[j + 3])
            + (c[j + 4] - p[j + 4]) * (c[j + 4] - p[j + 4]) + (c[j + 5] - p[j + 5]) * (c[j + 5] - p[j + 5])
            + (c[j + 6] - p[j + 6]) * (c[j + 6] - p[j + 6]) + (c[j + 7] - p[j + 7]) * (c[j + 7] - p[j + 7])
  {
    assert SqDistUpTo(c, p, j + 8) == SqDistUpTo(c, p, j + 7) + SqDiff(c[j + 7], p[j + 7]);
    assert SqDistUpTo(c, p, j + 7) == SqDistUpTo(c, p, j + 6) + SqDiff(c[j + 6], p[j + 6]);
    assert SqDistUpTo(c, p, j + 6) == SqDistUpTo(c, p, j + 5) + SqDiff(c[j + 5], p[j + 5]);
    assert SqDistUpTo(c, p, j + 5) == SqDistUpTo(c, p, j + 4) + SqDiff(c[j + 4], p[j + 4]);
    assert SqDistUpTo(c, p, j + 4) == SqDistUpTo(c, p, j + 3) + SqDiff(c[j + 3], p[j + 3]);
    assert SqDistUpTo(c, p, j + 3) == SqDistUpTo(c, p, j + 2) + SqDiff(c[j + 2], p[j + 2]);
    assert SqDistUpTo(c, p, j + 2) == SqDistUpTo(c, p, j + 1) + SqDiff(c[j + 1], p[j + 1]);
    assert SqDistUpTo(c, p, j + 1) == SqDistUpTo(c, p, j) + SqDiff(c[j], p[j]);
  }

  /** The unrolled distance loop of `getIDNearestCenter`: the same ascending
      sum of squared differences, eight terms per round. */
  method SquaredDistanceUnrolled(c: Vec, p: Vec) returns (sum: real)
    requires |c| == |p|
    ensures sum == SqDist(c, p)
  {
    sum := 0.0;
    var n := |p|;
    var j := 0;
    while j + 7 < n
      invariant 0 <= j <= n
      invariant sum == SqDistUpTo(c, p, j)
    {
      var diff := c[j] - p[j];
      sum := sum + diff * diff;
      diff := c[j + 1] - p[j + 1];
      sum := sum + diff * diff;
      diff := c[j + 2] - p[j + 2];
      sum := sum + diff * diff;
      diff := c[j + 3] - p[j + 3];
      sum := sum + diff * diff;
      diff := c[j + 4] - p[j + 4];
      sum := sum + diff * diff;
      diff := c[j + 5] - p[j + 5];
      sum := sum + diff * diff;
      diff := c[j + 6] - p[j + 6];
      sum := sum + diff * diff;
      diff := c[j + 7] - p[j + 7];
      sum := sum + diff * diff;
      EightTerms(c, p, j);
      j := j + 8;
    }
    while j < n
      invariant 0 <= j <= n
      invariant sum == SqDistUpTo(c, p, j)
    {
      var diff := c[j] - p[j];
      sum := sum + diff * diff;
      j := j + 1;
    }
  }

  /** `getIDNearestCenter`: the plain loop for centroid 0, the unrolled loop
      for the others, and a strict-improvement scan. */
  method GetIDNearestCenter(p: Point, clusters: seq<Cluster>) returns (k: nat)
    requires Fits(p.values, Centrals(clusters))
    ensures k < |clusters|
    ensures k == NearestCentroid(p.values, Centrals(clusters))
  {
    var cents := Centrals(clusters);
    var minDist := SquaredDistance(clusters[0].central, p.values);
    k := 0;
    var i := 1;
    while i < |clusters|
      invariant 1 <= i <= |clusters|
      invariant k == NearestAmong(p.values, cents, i)
      invariant minDist == SqDist(cents[k], p.values)
    {
      var sum := SquaredDistanceUnrolled(clusters[i].central, p.values);
      NearestAmongStep(p.values, cents, i, k, sum);
      if sum < minDist {
        minDist := sum;
        k := i;
      }
      i := i + 1;
    }
  }

  // ---------------------------------------------------------------------------
  // The objects seen as cluster rows

  /** The program's points and cluster objects for problem `pr`: point i has
      id i and the values of row i; cluster c has id c and D attributes. */
  predicate Holds(pr: Problem, points: seq<Point>, clusters: seq<Cluster>) {
    && PointsHold(pr, points)
    && |clusters| == pr.k
    && (forall c :: 0 <= c < |clusters| ==>
          clusters[c].id == c && clusters[c].totalAttr == pr.d && clusters[c].WellFormed())
  }

  /** The cluster rows the objects stand for. */
  function Rows(points: seq<Point>, clusters: seq<Cluster>): (s: State)
    ensures |s.assign| == |points| && |s.cents| == |s.counts| == |s.sums| == |clusters|
    ensures forall i :: 0 <= i < |points| ==> s.assign[i] == points[i].cluster
    ensures forall c :: 0 <= c < |clusters| ==>
              s.cents[c] == clusters[c].central && s.counts[c] == clusters[c].numPoints
              && s.sums[c] == clusters[c].sums
  {
    State(Ids(points), Centrals(clusters), Sizes(clusters), SumRows(clusters))
  }

  /** The `num_points` of every cluster. */
  function Sizes(clusters: seq<Cluster>): (r: seq<int>)
    ensures |r| == |clusters| && forall c :: 0 <= c < |clusters| ==> r[c] == clusters[c].numPoints
  {
    if |clusters| == 0 then [] else Sizes(clusters[..|clusters| - 1]) + [clusters[|clusters| - 1].numPoints]
  }

  /** The attribute sums of every cluster. */
  function SumRows(clusters: seq<Cluster>): (r: seq<Vec>)
    ensures |r| == |clusters| && forall c :: 0 <= c < |clusters| ==> r[c] == clusters[c].sums
  {
    if |clusters| == 0 then [] else SumRows(clusters[..|clusters| - 1]) + [clusters[|clusters| - 1].sums]
  }

  /** Changing one point's cluster changes one assignment. */
  lemma RowsSetPoint(points: seq<Point>, clusters: seq<Cluster>, i: nat, c: int)
    requires i < |points|
    ensures Rows(points[i := points[i].SetCluster(c)], clusters)
         == Rows(points, clusters).(assign := Rows(points, clusters).assign[i := c])
  {
  }

  /** Replacing one cluster object changes that cluster's row. */
  lemma RowsSetCluster(points: seq<Point>, clusters: seq<Cluster>, c: nat, cl: Cluster)
    requires c < |clusters|
    ensures var s := Rows(points, clusters);
      Rows(points, clusters[c := cl])
      == s.(cents := s.cents[c := cl.central], counts := s.counts[c := cl.numPoints],
            sums := s.sums[c := cl.sums])
  {
  }

  /** `clusters[c].decrementNumPoints()`: one count drops by one. */
  method LeaveCluster(pr: Problem, points: seq<Point>, clusters: seq<Cluster>, c: nat)
    returns (clusters': seq<Cluster>)
    requires Holds(pr, points, clusters) && c < |clusters|
    ensures Holds(pr, points, clusters')
    ensures var s := Rows(points, clusters);
      Rows(points, clusters') == s.(counts := s.counts[c := s.counts[c] - 1])
  {
    RowsSetCluster(points, clusters, c, clusters[c].Decrement());
    clusters' := clusters[c := clusters[c].Decrement()];
  }

  /** `points[i].setCluster(k)` followed by `clusters[k].incrementNumPoints()`:
      the point takes the new id and the new cluster's count rises by one. */
  method JoinCluster(pr: Problem, points: seq<Point>, clusters: seq<Cluster>, i: nat, k: nat)
    returns (points': seq<Point>, clusters': seq<Cluster>)
    requires Holds(pr, points, clusters) && i < |points| && k < |clusters|
    ensures Holds(pr, points', clusters')
    ensures var s := Rows(points, clusters);
      Rows(points', clusters') == s.(assign := s.assign[i := k], counts := s.counts[k := s.counts[k] + 1])
  {
    RowsSetPoint(points, clusters, i, k);
    points' := points[i := points[i].SetCluster(k)];
    RowsSetCluster(points', clusters, k, clusters[k].Increment());
    clusters' := clusters[k := clusters[k].Increment()];
  }

  /** The first half of the loop body for point i with nearest centre `k`:
      if the point is elsewhere, decrement the old cluster's count (unless
      unassigned), move the point and increment the new cluster's count. */
  method Relocate(pr: Problem, points: seq<Point>, clusters: seq<Cluster>, i: nat, k: nat)
    returns (points': seq<Point>, clusters': seq<Cluster>, moved: bool)
    requires Holds(pr, points, clusters) && Shaped(pr, Rows(points, clusters))
    requires i < |points| && k < pr.k
    ensures Holds(pr, points', clusters')
    ensures Rows(points', clusters') == MovePoint(pr, Rows(points, clusters), i, k)
    ensures moved <==> Rows(points, clusters).assign[i] != k
  {
    points', clusters' := points, clusters;
    var prev := points[i].cluster;
    moved := false;
    if prev != k {
      if prev != Unassigned {
        clusters' := LeaveCluster(pr, points', clusters', prev);
      }
      points', clusters' := JoinCluster(pr, points', clusters', i, k);
      moved := true;
    }
  }

  /** The loop body for point i: find the nearest centre, relocate the point
      (clearing `done` when it moved) and add it to the nearest cluster's
      sums. */
  method AssignOne(pr: Problem, points: seq<Point>, clusters: seq<Cluster>, i: nat, ghost near: seq<nat>)
    returns (points': seq<Point>, clusters': seq<Cluster>, moved: bool)
    requires Holds(pr, points, clusters) && Shaped(pr, Rows(points, clusters))
    requires NearOk(pr, near) && i < |points|
    requires near[i] == NearestCentroid(pr.vals[i], Rows(points, clusters).cents)
    ensures Holds(pr, points', clusters')
    ensures Rows(points', clusters') == AssignPoint(pr, near, Rows(points, clusters), i)
    ensures moved <==> Rows(points, clusters).assign[i] != near[i]
  {
    var k := GetIDNearestCenter(points[i], clusters);
    points', clusters', moved := Relocate(pr, points, clusters, i, k);
    var added := AddAttributeSums(clusters'[k], points'[i]);
    RowsSetCluster(points', clusters', k, added);
    clusters' := clusters'[k := added];
  }

  /** After the assignment loop has handled points 0..i-1 of the pass that
      started in `s0`, the objects stand for the reference pass state and
      `done` says that none of those points moved. */
  predicate PassAt(pr: Problem, s0: State, near: seq<nat>,
                   points: seq<Point>, clusters: seq<Cluster>, done: bool, i: nat)
  {
    && Shaped(pr, s0) && near == Near(pr, s0.cents) && i <= |pr.vals|
    && Holds(pr, points, clusters)
    && Rows(points, clusters) == PassUpTo(pr, near, s0, i).0
    && done == !PassUpTo(pr, near, s0, i).1
  }

  /** One round of the assignment loop. */
  method AssignStep(pr: Problem, points: seq<Point>, clusters: seq<Cluster>, done: bool, i: nat,
                    ghost s0: State, ghost near: seq<nat>)
    returns (points': seq<Point>, clusters': seq<Cluster>, done': bool)
    requires PassAt(pr, s0, near, points, clusters, done, i) && i < |pr.vals|
    ensures PassAt(pr, s0, near, points', clusters', done', i + 1)
  {
    PassUpToAssign(pr, near, s0, i);
    var moved;
    points', clusters', moved := AssignOne(pr, points, clusters, i, near);
    done' := if moved then false else done;
  }

  /** The assignment loop over all points, against the centroids of the
      start of the pass (no centroid changes during it). */
  method AssignmentLoop(pr: Problem, points: seq<Point>, clusters: seq<Cluster>, ghost s0: State, ghost near: seq<nat>)
    returns (points': seq<Point>, clusters': seq<Cluster>, done: bool)
    requires PassAt(pr, s0, near, points, clusters, true, 0)
    ensures PassAt(pr, s0, near, points', clusters', done, |pr.vals|)
  {
    points', clusters', done := points, clusters, true;
    var i := 0;
    while i < |points|
      invariant 0 <= i <= |points| == |pr.vals|
      invariant PassAt(pr, s0, near, points', clusters', done, i)
    {
      points', clusters', done := AssignStep(pr, points', clusters', done, i, s0, near);
      i := i + 1;
    }
  }

  /** The assignment pass is the reference counter pass. */
  method AssignmentPass(pr: Problem, points: seq<Point>, clusters: seq<Cluster>)
    returns (points': seq<Point>, clusters': seq<Cluster>, done: bool)
    requires Holds(pr, points, clusters) && Shaped(pr, Rows(points, clusters))
    ensures Holds(pr, points', clusters')
    ensures Rows(points', clusters') == CounterPass(pr, Rows(points, clusters)).0
    ensures done == !CounterPass(pr, Rows(points, clusters)).1
  {
    ghost var s0 := Rows(points, clusters);
    points', clusters', done := AssignmentLoop(pr, points, clusters, s0, Near(pr, s0.cents));
  }

  /** The recalculation loop: each cluster updates its centroid and then
      clears its sums. */
  method RecalculateCenters(pr: Problem, points: seq<Point>, clusters: seq<Cluster>)
    returns (clusters': seq<Cluster>)
    requires Holds(pr, points, clusters) && Shaped(pr, Rows(points, clusters))
    ensures Holds(pr, points, clusters')
    ensures Rows(points, clusters') == ClearSums(pr, Update(pr, Rows(points, clusters)))
  {
    clusters' := clusters;
    var c := 0;
    while c < |clusters|
      invariant 0 <= c <= |clusters| && |clusters'| == |clusters|
      invariant Holds(pr, points, clusters')
      invariant forall j :: 0 <= j < c ==>
                  clusters'[j].central == Update(pr, Rows(points, clusters)).cents[j]
                  && clusters'[j].sums == Zeros(pr.d)
                  && clusters'[j].numPoints == clusters[j].numPoints
      invariant forall j :: c <= j < |clusters| ==> clusters'[j] == clusters[j]
    {
      var updated := UpdateCentralValues(clusters'[c]);
      clusters' := clusters'[c := updated.ClearAttributeSums()];
      c := c + 1;
    }
  }

  /** One iteration of the for-loop body is the reference iteration. */
  method Iterate(pr: Problem, points: seq<Point>, clusters: seq<Cluster>)
    returns (points': seq<Point>, clusters': seq<Cluster>, done: bool)
    requires Holds(pr, points, clusters) && Shaped(pr, Rows(points, clusters))
    ensures Holds(pr, points', clusters')
    ensures (Rows(points', clusters'), !done) == Iteration.Step(pr, Rows(points, clusters))
  {
    var passed;
    passed, clusters', done := AssignmentPass(pr, points, clusters);
    clusters' := RecalculateCenters(pr, passed, clusters');
    points' := passed;
  }

  /** After `j` draws of `initializeClusterCentroids` on unassigned points:
      `prohibited` holds the distinct indices chosen so far, finishing the
      rejection loop from here gives the overall choice, the chosen points
      carry their cluster id and cluster c was built from the c-th choice. */
  predicate SeedAt(pr: Problem, points0: seq<Point>, draws: seq<nat>, j: nat,
                   prohibited: seq<nat>, points: seq<Point>, clusters: seq<Cluster>)
  {
    && pr.Valid() && 1 <= pr.k <= |pr.vals| && j <= |draws|
    && PointsHold(pr, points0) && PointsHold(pr, points)
    && DistinctIndexes(prohibited, |pr.vals|) && |prohibited| <= pr.k
    && PickFrom(draws[j..], |pr.vals|, pr.k, prohibited) == PickSeeds(draws, |pr.vals|, pr.k)
    && |clusters| == |prohibited|
    && (forall c :: 0 <= c < |clusters| ==>
          clusters[c] == Cluster(c, pr.d, pr.vals[prohibited[c]], Zeros(pr.d), 1))
    && (forall i :: 0 <= i < |points| ==> points[i].cluster == SeedAssign(|pr.vals|, prohibited)[i])
  }

  /** An index that is not yet prohibited is recorded, its point joins the
      next cluster and that cluster is built from it. */
  method AcceptSeed(pr: Problem, ghost points0: seq<Point>, draws: seq<nat>, j: nat,
                    prohibited: seq<nat>, points: seq<Point>, clusters: seq<Cluster>, index: nat)
    returns (prohibited': seq<nat>, points': seq<Point>, clusters': seq<Cluster>)
    requires SeedAt(pr, points0, draws, j, prohibited, points, clusters)
    requires j < |draws| && |prohibited| < pr.k
    requires index == draws[j] % |pr.vals| && index !in prohibited
    ensures SeedAt(pr, points0, draws, j + 1, prohibited', points', clusters')
  {
    ghost var n := |pr.vals|;
    PickFromStep(draws, j, n, pr.k, prohibited);
    SeedAssignAppend(n, prohibited, index);
    prohibited' := prohibited + [index];
    points' := points[index := points[index].SetCluster(|clusters|)];
    var cl := NewCluster(|clusters|, points'[index], pr.d);
    assert pr.vals[index][..pr.d] == pr.vals[index];
    clusters' := clusters + [cl];
  }

  /** One draw: `index_point = rand() % total_points`; an index already
      prohibited is skipped, any other is accepted. */
  method SeedStep(pr: Problem, ghost points0: seq<Point>, draws: seq<nat>, j: nat,
                  prohibited: seq<nat>, points: seq<Point>, clusters: seq<Cluster>)
    returns (prohibited': seq<nat>, points': seq<Point>, clusters': seq<Cluster>)
    requires SeedAt(pr, points0, draws, j, prohibited, points, clusters)
    requires j < |draws| && |prohibited| < pr.k
    ensures SeedAt(pr, points0, draws, j + 1, prohibited', points', clusters')
  {
    var index := draws[j] % |points|;
    if index !in prohibited {
      prohibited', points', clusters' := AcceptSeed(pr, points0, draws, j, prohibited, points, clusters, index);
    } else {
      PickFromStep(draws, j, |pr.vals|, pr.k, prohibited);
      prohibited', points', clusters' := prohibited, points, clusters;
    }
  }

  /** `initializeClusterCentroids` on unassigned points, for a finite stream
      of draws: when the stream ends before K distinct indices are chosen, `ok`
      is false; otherwise the objects stand for the seeded state of the chosen
      indices. */
  method InitializeClusterCentroids(pr: Problem, points: seq<Point>, draws: seq<nat>)
    returns (ok: bool, points': seq<Point>, clusters: seq<Cluster>)
    requires pr.Valid() && pr.k <= |pr.vals|
    requires PointsHold(pr, points) && AllUnassigned(points)
    ensures ok <==> |PickSeeds(draws, |pr.vals|, pr.k)| == pr.k
    ensures ok ==> Holds(pr, points', clusters)
                   && Rows(points', clusters) == Seeded(pr, PickSeeds(draws, |pr.vals|, pr.k))
  {
    var prohibited: seq<nat> := [];
    points', clusters := points, [];
    assert draws[0..] == draws;
    var j := 0;
    while |prohibited| < pr.k && j < |draws|
      invariant SeedAt(pr, points, draws, j, prohibited, points', clusters)
      decreases |draws| - j
    {
      prohibited, points', clusters := SeedStep(pr, points, draws, j, prohibited, points', clusters);
      j := j + 1;
    }
    assert j == |draws| ==> draws[j..] == [];
    ok := |prohibited| == pr.k;
    if ok {
      SeededRows(pr, prohibited, points', clusters);
    }
  }

  /** Objects built from distinct seeds stand for the seeded state. */
  lemma SeededRows(pr: Problem, seeds: seq<nat>, points: seq<Point>, clusters: seq<Cluster>)
    requires pr.Valid() && |seeds| == pr.k && DistinctIndexes(seeds, |pr.vals|)
    requires PointsHold(pr, points) && |clusters| == pr.k
    requires forall c :: 0 <= c < |clusters| ==> clusters[c] == Cluster(c, pr.d, pr.vals[seeds[c]], Zeros(pr.d), 1)
    requires forall i :: 0 <= i < |points| ==> points[i].cluster == SeedAssign(|pr.vals|, seeds)[i]
    ensures Holds(pr, points, clusters)
    ensures Rows(points, clusters) == Seeded(pr, seeds)
  {
    var r, t := Rows(points, clusters), Seeded(pr, seeds);
    assert r.assign == t.assign;
    assert r.cents == t.cents;
    assert r.counts == t.counts;
    assert r.sums == t.sums;
  }

  // ---------------------------------------------------------------------------
  // The run

  /** Before the loop test: the objects are well formed and stand for the
      state of the reference loop at that test. */
  predicate LoopAt(pr: Problem, s0: State, maxIterations: int,
                   points: seq<Point>, clusters: seq<Cluster>, iter: int, done: bool)
  {
    && Holds(pr, points, clusters) && Shaped(pr, Rows(points, clusters))
    && Iteration.LoopAt(pr, s0, maxIterations, Rows(points, clusters), iter, done)
  }

  /** One pass of the for-loop, with its `iter++`. */
  method LoopStep(pr: Problem, ghost s0: State, maxIterations: int,
                  points: seq<Point>, clusters: seq<Cluster>, iter: int)
    returns (points': seq<Point>, clusters': seq<Cluster>, iter': int, done': bool)
    requires LoopAt(pr, s0, maxIterations, points, clusters, iter, false) && iter <= maxIterations
    ensures LoopAt(pr, s0, maxIterations, points', clusters', iter', done') && iter' == iter + 1
  {
    Iteration.LoopAdvance(pr, s0, maxIterations, Rows(points, clusters), iter);
    points', clusters', done' := Iterate(pr, points, clusters);
    iter' := iter + 1;
  }

  /** `for (; !done && iter <= max_iterations; iter++)` around `Iterate`,
      from `iter = 1` and `done = false`: the objects end in the final state of
      the reference loop, `done` says whether it converged and `iter` is the
      value printed after it. */
  method IterationLoop(pr: Problem, points: seq<Point>, clusters: seq<Cluster>, maxIterations: int)
    returns (points': seq<Point>, clusters': seq<Cluster>, iter: int, done: bool)
    requires Holds(pr, points, clusters) && Shaped(pr, Rows(points, clusters))
    ensures Holds(pr, points', clusters')
    ensures var r := Iteration.Run(pr, Rows(points, clusters), maxIterations);
      Rows(points', clusters') == r.state && iter == ForLoopIter(r) && done == r.converged
  {
    ghost var s0 := Rows(points, clusters);
    Iteration.LoopStart(pr, s0, maxIterations);
    points', clusters', iter, done := points, clusters, 1, false;
    while !done && iter <= maxIterations
      invariant LoopAt(pr, s0, maxIterations, points', clusters', iter, done)
      decreases Budget(maxIterations) + 1 - iter, !done
    {
      points', clusters', iter, done := LoopStep(pr, s0, maxIterations, points', clusters', iter);
    }
    Iteration.LoopExit(pr, s0, maxIterations, Rows(points', clusters'), iter, done);
  }

  /** `KMeans::run` on freshly read, unassigned points: nothing happens when
      K exceeds the number of points; otherwise the random seeding and the
      iteration loop run, and the objects end in the final state of the
      reference run, with `iter` the value printed after the loop. */
  method RunKMeans(pr: Problem, points: seq<Point>, draws: seq<nat>, maxIterations: int)
    returns (report: Report<State>, points': seq<Point>, clusters': seq<Cluster>, iter: int)
    requires pr.Valid()
    requires PointsHold(pr, points) && AllUnassigned(points)
    ensures report == SeededRun(pr, draws, maxIterations)
    ensures report.Finished? ==>
              && Holds(pr, points', clusters')
              && Rows(points', clusters') == report.outcome.state
              && iter == ForLoopIter(report.outcome)
  {
    points', clusters', iter := points, [], 1;
    if pr.k > |points| {
      return TooFewPoints, points', clusters', iter;
    }
    var ok;
    ok, points', clusters' := InitializeClusterCentroids(pr, points, draws);
    if !ok {
      return OutOfDraws, points', clusters', iter;
    }
    var done;
    points', clusters', iter, done := IterationLoop(pr, points', clusters', maxIterations);
    report := Finished(Outcome(Rows(points', clusters'), iter - 1, done));
  }
}

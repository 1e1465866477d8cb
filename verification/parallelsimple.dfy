/** `src/kmeans-parallel-simple.cpp`: a cluster keeps no member list, only a
    member count and the attribute sums. The assignment loop is a TBB
    `parallel_for` over the points: each worker records the count changes of
    the points it moves in its own thread-local vector and adds every point's
    values to its cluster's sums under that cluster's mutex; after the loop
    the thread-local vectors are added to the counts, and a second
    `parallel_for` updates and clears every cluster. The schedule (which
    worker handled which points, and in which order the mutexes were taken)
    is a parameter; the results do not depend on it. */
module ParallelSimple {
  import opened Vectors
  import opened Points
  import opened Lloyd
  import opened Objects
  import opened Membership
  import opened Sums
  import opened Seeding
  import opened Loops
  import opened Runs
  import opened Workers
  import Iteration

  /** A cluster object: id, attribute count, centroid row (as long as the
      table row it was built from), attribute sums and member count. */
  datatype Cluster = Cluster(id: int, totalAttr: nat, central: Vec, sums: Vec, numPoints: int)
  {
    /** One sum per attribute, and a centroid row with at least that many
        values. */
    predicate WellFormed() {
      |sums| == totalAttr <= |central|
    }

    /** The centroid values the program reads: the first `total_attr`. */
    function Centroid(): (r: Vec)
      ensures WellFormed() ==> r == central[..totalAttr] && |r| == totalAttr
    {
      if totalAttr <= |central| then central[..totalAttr] else central
    }

    /** `addNumPoints`: the count moves by the change and nothing else
        does; the answer is always `true`. */
    function AddNumPoints(diff: int): (r: (Cluster, bool))
      ensures r.0.numPoints - numPoints == diff && r.0.(numPoints := numPoints) == this
      ensures r.1
    {
      (this.(numPoints := numPoints + diff), true)
    }

    /** `updateCentralValues`: with a positive count, each of the first
        `total_attr` centroid values becomes its sum divided by the count;
        the values past them and everything else stay. */
    function UpdateCentralValues(): (r: Cluster)
      requires WellFormed()
      ensures r.WellFormed() && r.(central := central) == this && |r.central| == |central|
      ensures numPoints > 0 ==> forall a :: 0 <= a < totalAttr ==> r.central[a] == sums[a] / (numPoints as real)
      ensures forall a :: 0 <= a < |central| && (numPoints <= 0 || a >= totalAttr) ==> r.central[a] == central[a]
    {
      if numPoints > 0 then this.(central := Div(sums, numPoints) + central[totalAttr..]) else this
    }

    /** `addAttributeSums`: every sum grows by the point's value. */
    function AddAttributeSums(p: Point): (r: Cluster)
      requires WellFormed() && |p.values| == totalAttr
      ensures r.WellFormed() && r.(sums := sums) == this
      ensures forall a :: 0 <= a < totalAttr ==> r.sums[a] == sums[a] + p.values[a]
    {
      this.(sums := Add(sums, p.values))
    }

    /** `clearAttributeSums`: every sum becomes zero. */
    function ClearAttributeSums(): (r: Cluster)
      ensures r.(sums := sums) == this && |r.sums| == |sums| && IsZero(r.sums)
    {
      this.(sums := Zeros(|sums|))
    }
  }

  /** The constructor `Cluster(id, central_values, total_attr)`: the whole
      table row as centroid, `total_attr` zero sums and no members. */
  function NewCluster(id: int, row: Vec, totalAttr: nat): (cl: Cluster)
    requires totalAttr <= |row|
    ensures cl.WellFormed() && cl.id == id && cl.totalAttr == totalAttr && cl.central == row
    ensures IsZero(cl.sums) && cl.numPoints == 0
  {
    Cluster(id, totalAttr, row, Zeros(totalAttr), 0)
  }

  /** The points vector and the cluster objects of a `KMeans` instance. */
  datatype Instance = Instance(points: seq<Point>, clusters: seq<Cluster>)

  /** The centroid values of the clusters, in cluster order. */
  function Centrals(clusters: seq<Cluster>): (r: seq<Vec>)
    ensures |r| == |clusters| && forall c :: 0 <= c < |clusters| ==> r[c] == clusters[c].Centroid()
  {
    if |clusters| == 0 then [] else Centrals(clusters[..|clusters| - 1]) + [clusters[|clusters| - 1].Centroid()]
  }

  /** The member count of every cluster. */
  function Counts(clusters: seq<Cluster>): (r: seq<int>)
    ensures |r| == |clusters| && forall c :: 0 <= c < |clusters| ==> r[c] == clusters[c].numPoints
  {
    if |clusters| == 0 then [] else Counts(clusters[..|clusters| - 1]) + [clusters[|clusters| - 1].numPoints]
  }

  /** The attribute sums of every cluster. */
  function SumRows(clusters: seq<Cluster>): (r: seq<Vec>)
    ensures |r| == |clusters| && forall c :: 0 <= c < |clusters| ==> r[c] == clusters[c].sums
  {
    if |clusters| == 0 then [] else SumRows(clusters[..|clusters| - 1]) + [clusters[|clusters| - 1].sums]
  }

  /** The cluster rows the objects stand for. */
  function Rows(x: Instance): (s: State)
    ensures s.assign == Ids(x.points) && s.cents == Centrals(x.clusters)
    ensures s.counts == Counts(x.clusters) && s.sums == SumRows(x.clusters)
  {
    State(Ids(x.points), Centrals(x.clusters), Counts(x.clusters), SumRows(x.clusters))
  }

  /** Cluster c has id c, D attributes and a well-formed row. */
  predicate ClustersFit(pr: Problem, clusters: seq<Cluster>) {
    && |clusters| == pr.k
    && (forall c :: 0 <= c < pr.k ==>
          clusters[c].id == c && clusters[c].totalAttr == pr.d && clusters[c].WellFormed())
  }

  /** The objects are those of problem `pr`. */
  predicate Fit(pr: Problem, x: Instance) {
    pr.Valid() && PointsFit(pr, x.points) && ClustersFit(pr, x.clusters)
  }

  /** Every cluster's sums are zero, as between two iterations. */
  predicate SumsClear(clusters: seq<Cluster>) {
    forall c :: 0 <= c < |clusters| ==> IsZero(clusters[c].sums)
  }

  /** What every iteration keeps: the objects fit and the sums are clear. */
  function Sound(pr: Problem): Instance -> bool
  {
    y => Fit(pr, y) && SumsClear(y.clusters)
  }

  /** Fitting objects stand for well-shaped rows; clear sums for cleared
      rows. */
  lemma FitRows(pr: Problem, x: Instance)
    requires Fit(pr, x)
    ensures Shaped(pr, Rows(x))
    ensures SumsClear(x.clusters) ==> SumsCleared(Rows(x))
  {
  }

  // ---------------------------------------------------------------------------
  // The assignment loop

  /** How the TBB runtime ran one `parallel_for` over the points: the points
      each worker thread handled, in its order, and the order in which the
      `addAttributeSums` calls took the cluster mutexes. */
  datatype Schedule = Schedule(chunks: seq<seq<nat>>, order: seq<nat>)

  /** Every point is handled by exactly one worker, once, and every point's
      values are added once. */
  predicate Scheduled(sc: Schedule, n: nat) {
    IsPartition(sc.chunks, n) && multiset(sc.order) == multiset(Range(n))
  }

  /** The lock order only holds points of the problem. */
  lemma OrderInRange(sc: Schedule, n: nat)
    requires Scheduled(sc, n)
    ensures forall j :: 0 <= j < |sc.order| ==> sc.order[j] < n
  {
    forall j | 0 <= j < |sc.order|
      ensures sc.order[j] < n
    {
      assert sc.order[j] in multiset(Range(n));
    }
  }

  /** The inner loop after the `parallel_for`: every cluster's count moves
      by its entry of one thread-local vector. */
  function AddLocal(clusters: seq<Cluster>, diffs: seq<int>): (r: seq<Cluster>)
    requires |diffs| == |clusters|
    ensures |r| == |clusters|
    ensures forall c :: 0 <= c < |clusters| ==>
              r[c].numPoints == clusters[c].numPoints + diffs[c] && r[c].(numPoints := clusters[c].numPoints) == clusters[c]
  {
    seq(|clusters|, c requires 0 <= c < |clusters| => clusters[c].AddNumPoints(diffs[c]).0)
  }

  /** The outer loop after the `parallel_for`: the thread-local vectors of
      the workers, one after the other. */
  function CountChanges(clusters: seq<Cluster>, prev: seq<int>, near: seq<nat>, chunks: seq<seq<nat>>): (r: seq<Cluster>)
    requires |prev| == |near| && ValidAssign(prev, |clusters|)
    requires forall j :: 0 <= j < |near| ==> near[j] < |clusters|
    ensures |r| == |clusters|
    ensures forall c :: 0 <= c < |clusters| ==> r[c].(numPoints := clusters[c].numPoints) == clusters[c]
    decreases |chunks|
  {
    if |chunks| == 0 then clusters
    else
      var n := |chunks| - 1;
      AddLocal(CountChanges(clusters, prev, near, chunks[..n]), WorkerDiffs(prev, near, chunks[n], |clusters|))
  }

  /** Every count moves by the total change of its cluster over all the
      workers' points. */
  lemma {:induction false} CountChangesTotal(clusters: seq<Cluster>, prev: seq<int>, near: seq<nat>, chunks: seq<seq<nat>>, c: nat)
    requires |prev| == |near| && ValidAssign(prev, |clusters|)
    requires forall j :: 0 <= j < |near| ==> near[j] < |clusters|
    requires c < |clusters|
    ensures CountChanges(clusters, prev, near, chunks)[c].numPoints
         == clusters[c].numPoints + SumInt(Flatten(chunks), Deltas(prev, near, c))
    decreases |chunks|
  {
    if |chunks| > 0 {
      var n := |chunks| - 1;
      CountChangesTotal(clusters, prev, near, chunks[..n], c);
      SumIntAppend(Flatten(chunks[..n]), chunks[n], Deltas(prev, near, c));
    }
  }

  /** The `addAttributeSums` calls in the order they took the mutexes: point
      i's values go to the sums of its nearest cluster. */
  function LockedSums(pr: Problem, clusters: seq<Cluster>, points: seq<Point>, near: seq<nat>, order: seq<nat>): (r: seq<Cluster>)
    requires pr.Valid() && ClustersFit(pr, clusters) && PointsHold(pr, points) && NearOk(pr, near)
    requires forall j :: 0 <= j < |order| ==> order[j] < |pr.vals|
    ensures ClustersFit(pr, r)
    ensures forall c :: 0 <= c < pr.k ==> r[c].(sums := clusters[c].sums) == clusters[c]
    decreases |order|
  {
    if |order| == 0 then clusters
    else
      var n := |order| - 1;
      var r := LockedSums(pr, clusters, points, near, order[..n]);
      var i := order[n];
      assert |points[i].values| == r[near[i]].totalAttr;
      r[near[i] := r[near[i]].AddAttributeSums(points[i])]
  }

  /** Every sum row grows by the total of the points that chose its cluster,
      added in the lock order. */
  lemma {:induction false} LockedSumsTotal(pr: Problem, clusters: seq<Cluster>, points: seq<Point>, near: seq<nat>, order: seq<nat>, c: nat)
    requires pr.Valid() && ClustersFit(pr, clusters) && PointsHold(pr, points) && NearOk(pr, near)
    requires forall j :: 0 <= j < |order| ==> order[j] < |pr.vals|
    requires c < pr.k
    ensures LockedSums(pr, clusters, points, near, order)[c].sums
         == Add(clusters[c].sums, SumVec(order, Contributions(pr.vals, near, c, pr.d), pr.d))
    decreases |order|
  {
    var f := Contributions(pr.vals, near, c, pr.d);
    if |order| == 0 {
      AddZeros(clusters[c].sums);
    } else {
      var n := |order| - 1;
      LockedSumsTotal(pr, clusters, points, near, order[..n], c);
      var before := LockedSums(pr, clusters, points, near, order[..n])[c].sums;
      var i := order[n];
      AddAssoc(clusters[c].sums, SumVec(order[..n], f, pr.d), f(i));
      if near[i] != c {
        AddZeros(before);
      }
    }
  }

  /** The assignment `parallel_for` and the loop after it: every point takes
      its nearest cluster of the pass-start centroids, each point's values
      are added to that cluster's sums in the lock order, and the workers'
      count changes are added to the counts. `done` stays true exactly when
      no point moved. */
  function Pass(pr: Problem, sc: Schedule, x: Instance): (r: (Instance, bool))
    requires Fit(pr, x) && Scheduled(sc, |pr.vals|)
    ensures Fit(pr, r.0)
  {
    var near := Near(pr, Centrals(x.clusters));
    var prev := Ids(x.points);
    var points := Relabel(x.points, near);
    RelabelFits(pr, x.points, near);
    OrderInRange(sc, |pr.vals|);
    var summed := LockedSums(pr, x.clusters, points, near, sc.order);
    var counted := CountChanges(summed, prev, near, sc.chunks);
    assert ClustersFit(pr, counted);
    (Instance(points, counted), prev != near)
  }

  /** Objects that fit with clear sums, and a schedule that covers the
      points, as one value. */
  function Ready(pr: Problem, sc: Schedule): Instance -> bool
  {
    y => Fit(pr, y) && SumsClear(y.clusters) && Scheduled(sc, |pr.vals|)
  }

  /** The pass moves the count of cluster c by the points that joined it
      minus those that left it, whatever the split among workers. */
  lemma PassCountChange(pr: Problem, sc: Schedule, x: Instance, c: nat)
    requires Ready(pr, sc)(x) && c < pr.k
    ensures Pass(pr, sc, x).0.clusters[c].numPoints
         == x.clusters[c].numPoints + CountOf(Near(pr, Centrals(x.clusters)), c) - CountOf(Ids(x.points), c)
  {
    var near := Near(pr, Centrals(x.clusters));
    var prev := Ids(x.points);
    var points := Relabel(x.points, near);
    OrderInRange(sc, |pr.vals|);
    var summed := LockedSums(pr, x.clusters, points, near, sc.order);
    assert summed[c].numPoints == x.clusters[c].numPoints;
    CountChangesTotal(summed, prev, near, sc.chunks, c);
    AllDeltas(prev, near, c, Flatten(sc.chunks));
  }

  /** After the pass cluster c has the reference count. */
  lemma PassCountAt(pr: Problem, sc: Schedule, x: Instance, c: nat)
    requires Ready(pr, sc)(x) && c < pr.k
    ensures Shaped(pr, Rows(x))
    ensures Pass(pr, sc, x).0.clusters[c].numPoints == CounterPass(pr, Rows(x)).0.counts[c]
  {
    FitRows(pr, x);
    PassCountChange(pr, sc, x, c);
    CounterPassCountChange(pr, Rows(x), c);
  }

  /** After the pass the sums of cluster c are the total of the points
      nearest to it, whatever the lock order. */
  lemma PassSumIs(pr: Problem, sc: Schedule, x: Instance, c: nat)
    requires Ready(pr, sc)(x) && c < pr.k
    ensures Pass(pr, sc, x).0.clusters[c].sums == MemberSum(pr.vals, Near(pr, Centrals(x.clusters)), c, pr.d)
  {
    var near := Near(pr, Centrals(x.clusters));
    var points := Relabel(x.points, near);
    OrderInRange(sc, |pr.vals|);
    LockedSumsTotal(pr, x.clusters, points, near, sc.order, c);
    AllContributions(pr.vals, near, c, pr.d, sc.order);
    ZeroIsZeros(x.clusters[c].sums);
    AddZeros(MemberSum(pr.vals, near, c, pr.d));
    AddComm(Zeros(pr.d), MemberSum(pr.vals, near, c, pr.d));
  }

  /** After the pass the sums of cluster c are the reference sums. */
  lemma PassSumAt(pr: Problem, sc: Schedule, x: Instance, c: nat)
    requires Ready(pr, sc)(x) && c < pr.k
    ensures Shaped(pr, Rows(x))
    ensures Pass(pr, sc, x).0.clusters[c].sums == CounterPass(pr, Rows(x)).0.sums[c]
  {
    FitRows(pr, x);
    PassSumIs(pr, sc, x, c);
    CounterPassSum(pr, Rows(x), c);
    CounterPassAssign(pr, Rows(x));
  }

  /** The pass keeps the ids of the clusters and their centroids. */
  lemma PassCentrals(pr: Problem, sc: Schedule, x: Instance)
    requires Ready(pr, sc)(x)
    ensures Centrals(Pass(pr, sc, x).0.clusters) == Centrals(x.clusters)
  {
    var y := Pass(pr, sc, x).0;
    assert forall c :: 0 <= c < pr.k ==> y.clusters[c].central == x.clusters[c].central;
  }

  /** After the pass every cluster has the reference count. */
  lemma PassCounts(pr: Problem, sc: Schedule, x: Instance)
    requires Ready(pr, sc)(x)
    ensures Shaped(pr, Rows(x))
    ensures Counts(Pass(pr, sc, x).0.clusters) == CounterPass(pr, Rows(x)).0.counts
  {
    FitRows(pr, x);
    var y := Pass(pr, sc, x).0;
    var t := CounterPass(pr, Rows(x)).0;
    forall c: nat | c < pr.k
      ensures y.clusters[c].numPoints == t.counts[c]
    {
      PassCountAt(pr, sc, x, c);
    }
  }

  /** After the pass every cluster has the reference sums. */
  lemma PassSums(pr: Problem, sc: Schedule, x: Instance)
    requires Ready(pr, sc)(x)
    ensures Shaped(pr, Rows(x))
    ensures SumRows(Pass(pr, sc, x).0.clusters) == CounterPass(pr, Rows(x)).0.sums
  {
    FitRows(pr, x);
    var y := Pass(pr, sc, x).0;
    var t := CounterPass(pr, Rows(x)).0;
    forall c: nat | c < pr.k
      ensures y.clusters[c].sums == t.sums[c]
    {
      PassSumAt(pr, sc, x, c);
    }
  }

  /** The pass is the reference counter pass on the rows, with the same
      flag, whatever the schedule. */
  lemma PassRows(pr: Problem, sc: Schedule, x: Instance)
    requires Ready(pr, sc)(x)
    ensures Shaped(pr, Rows(x))
    ensures Rows(Pass(pr, sc, x).0) == CounterPass(pr, Rows(x)).0
    ensures Pass(pr, sc, x).1 == CounterPass(pr, Rows(x)).1
  {
    FitRows(pr, x);
    CounterPassAssign(pr, Rows(x));
    RelabelFits(pr, x.points, Near(pr, Centrals(x.clusters)));
    PassCentrals(pr, sc, x);
    PassCounts(pr, sc, x);
    PassSums(pr, sc, x);
  }

  // ---------------------------------------------------------------------------
  // The update loop

  /** The second `parallel_for`: every cluster updates its centroid and then
      clears its sums; clusters are independent of each other. */
  function Recentred(clusters: seq<Cluster>): (r: seq<Cluster>)
    requires forall c :: 0 <= c < |clusters| ==> clusters[c].WellFormed()
    ensures |r| == |clusters|
    ensures forall c :: 0 <= c < |clusters| ==> r[c] == clusters[c].UpdateCentralValues().ClearAttributeSums()
  {
    if |clusters| == 0 then []
    else
      var n := |clusters| - 1;
      Recentred(clusters[..n]) + [clusters[n].UpdateCentralValues().ClearAttributeSums()]
  }

  /** Updating and clearing cluster c gives the reference centroid. */
  lemma RecentredAt(pr: Problem, y: Instance, c: nat)
    requires Fit(pr, y) && c < pr.k
    ensures Shaped(pr, Rows(y))
    ensures Recentred(y.clusters)[c].Centroid() == Update(pr, Rows(y)).cents[c]
  {
    FitRows(pr, y);
    var cl := y.clusters[c];
    if cl.numPoints > 0 {
      assert cl.UpdateCentralValues().Centroid() == Div(cl.sums, cl.numPoints);
    }
  }

  /** Updating and clearing keeps the clusters fitting and clears the sums. */
  lemma RecentredSound(pr: Problem, y: Instance)
    requires Fit(pr, y)
    ensures Sound(pr)(y.(clusters := Recentred(y.clusters)))
  {
    var r := Recentred(y.clusters);
    assert ClustersFit(pr, r);
    assert SumsClear(r);
  }

  /** Updating all clusters gives the reference centroids. */
  lemma RecentredCentrals(pr: Problem, y: Instance)
    requires Fit(pr, y)
    ensures Shaped(pr, Rows(y))
    ensures Centrals(Recentred(y.clusters)) == Update(pr, Rows(y)).cents
  {
    FitRows(pr, y);
    var r := Recentred(y.clusters);
    forall c: nat | c < pr.k
      ensures r[c].Centroid() == Update(pr, Rows(y)).cents[c]
    {
      RecentredAt(pr, y, c);
    }
  }

  /** Updating and clearing keeps the counts and leaves zero sums, as
      clearing the reference rows does. */
  lemma RecentredCountsSums(pr: Problem, y: Instance)
    requires Fit(pr, y)
    ensures Shaped(pr, Rows(y))
    ensures Counts(Recentred(y.clusters)) == Counts(y.clusters)
    ensures SumRows(Recentred(y.clusters)) == ClearSums(pr, Rows(y)).sums
  {
    FitRows(pr, y);
    var r := Recentred(y.clusters);
    assert Counts(r) == Counts(y.clusters);
    assert SumRows(r) == ClearSums(pr, Rows(y)).sums;
  }

  /** Updating and clearing all clusters is the reference update followed by
      clearing the sums. */
  lemma RecentredRows(pr: Problem, y: Instance)
    requires Fit(pr, y)
    ensures Shaped(pr, Rows(y))
    ensures Sound(pr)(y.(clusters := Recentred(y.clusters)))
    ensures Rows(y.(clusters := Recentred(y.clusters))) == ClearSums(pr, Update(pr, Rows(y)))
  {
    FitRows(pr, y);
    RecentredSound(pr, y);
    RecentredCentrals(pr, y);
    RecentredCountsSums(pr, y);
  }

  /** One iteration of the for-loop body: the assignment `parallel_for`, the
      count reduction and the update `parallel_for`; the flag is `!done`.
      Objects that do not fit, or a schedule that does not cover the points,
      leave everything alone. */
  function Iterate(pr: Problem, sc: Schedule, x: Instance): (r: (Instance, bool))
    ensures Fit(pr, x) && Scheduled(sc, |pr.vals|) ==> Fit(pr, r.0)
  {
    if Fit(pr, x) && Scheduled(sc, |pr.vals|) then
      var (y, moved) := Pass(pr, sc, x);
      (y.(clusters := Recentred(y.clusters)), moved)
    else (x, false)
  }

  /** On sound objects an iteration is the reference iteration on the rows,
      with the same flag, whatever the schedule, and keeps them sound. */
  lemma IterateRows(pr: Problem, sc: Schedule, x: Instance)
    requires Ready(pr, sc)(x)
    ensures Sound(pr)(Iterate(pr, sc, x).0)
    ensures Shaped(pr, Rows(x))
    ensures Rows(Iterate(pr, sc, x).0) == Iteration.Step(pr, Rows(x)).0
    ensures Iterate(pr, sc, x).1 == Iteration.Step(pr, Rows(x)).1
  {
    PassRows(pr, sc, x);
    RecentredRows(pr, Pass(pr, sc, x).0);
  }

  // ---------------------------------------------------------------------------
  // The run

  /** The objects between iterations, with the number of iterations done so
      far, which picks the schedule of the next one. */
  datatype Progress = Progress(objects: Instance, pass: nat)

  /** One iteration under the schedule of its pass. */
  function Advance(pr: Problem, sched: nat -> Schedule, m: Progress): (r: (Progress, bool))
    ensures r.0.pass == m.pass + 1
  {
    var (y, moved) := Iterate(pr, sched(m.pass), m.objects);
    (Progress(y, m.pass + 1), moved)
  }

  /** The iteration, as one value, to drive the for-loop. */
  function Advances(pr: Problem, sched: nat -> Schedule): Progress -> (Progress, bool)
  {
    m => Advance(pr, sched, m)
  }

  /** The rows of the objects, as one value. */
  function Observed(): Progress -> State
  {
    (m: Progress) => Rows(m.objects)
  }

  /** The number of passes done, as one value. */
  function Passes(): Progress -> nat
  {
    (m: Progress) => m.pass
  }

  /** Sound objects, as one value. */
  function SoundProgress(pr: Problem): Progress -> bool
  {
    (m: Progress) => Sound(pr)(m.objects)
  }

  /** Every pass of the run has a schedule that covers the points. */
  ghost predicate Schedules(pr: Problem, sched: nat -> Schedule) {
    forall p: nat :: Scheduled(sched(p), |pr.vals|)
  }

  /** On sound objects an iteration agrees with the reference iteration. */
  lemma AdvanceAgreesAt(pr: Problem, sched: nat -> Schedule, m: Progress)
    requires Schedules(pr, sched) && SoundProgress(pr)(m)
    ensures StepAgrees(Advances(pr, sched), Iteration.Steps(pr), Observed(), SoundProgress(pr), m)
  {
    assert Sound(pr)(m.objects) && Scheduled(sched(m.pass), |pr.vals|);
    assert Ready(pr, sched(m.pass))(m.objects);
    IterateRows(pr, sched(m.pass), m.objects);
  }

  lemma AdvancesAgree(pr: Problem, sched: nat -> Schedule)
    requires Schedules(pr, sched)
    ensures StepsAgree(Advances(pr, sched), Iteration.Steps(pr), Observed(), SoundProgress(pr))
  {
    forall m | SoundProgress(pr)(m)
      ensures StepAgrees(Advances(pr, sched), Iteration.Steps(pr), Observed(), SoundProgress(pr), m)
    {
      AdvanceAgreesAt(pr, sched, m);
    }
  }

  /** The predefined centroid table of this program: 7 rows of 16 values. */
  const InitialCentroids: seq<Vec> := [
    [43266.0, 772.889, 287.013, 193.007, 1.48706, 0.740125, 43691.0, 234.708, 0.77649, 0.990273, 0.91017, 0.817763, 0.00663368, 0.00182997, 0.668736, 0.994449],
    [77590.0, 1074.37, 409.117, 245.292, 1.66788, 0.800326, 79050.0, 314.31, 0.798884, 0.981531, 0.844714, 0.768264, 0.0052728, 0.00113309, 0.59023, 0.984431],
    [75720.0, 1097.63, 390.076, 248.122, 1.57211, 0.771617, 77033.0, 310.499, 0.703848, 0.982955, 0.789781, 0.795997, 0.00515155, 0.00127575, 0.633612, 0.996108],
    [37064.0, 710.701, 265.11, 178.209, 1.48763, 0.740362, 37390.0, 217.236, 0.706142, 0.991281, 0.922122, 0.819417, 0.00715277, 0.00198918, 0.671444, 0.998863],
    [71882.0, 1040.31, 408.824, 226.343, 1.80621, 0.832753, 73208.0, 302.528, 0.723516, 0.981887, 0.834644, 0.739996, 0.00568743, 0.00105199, 0.547594, 0.989071],
    [52187.0, 975.927, 311.194, 215.771, 1.44224, 0.720587, 53664.0, 257.772, 0.709043, 0.972477, 0.688553, 0.828333, 0.00596305, 0.00173169, 0.686136, 0.989575],
    [80724.0, 1071.17, 416.301, 247.545, 1.68172, 0.804, 81330.0, 320.595, 0.799723, 0.992549, 0.884088, 0.770103, 0.00515709, 0.00111887, 0.593058, 0.997358]
  ]

  /** The table, with its shape: 7 rows of 16 values. */
  function Table(): (t: seq<Vec>)
    ensures |t| == 7 && forall c :: 0 <= c < 7 ==> |t[c]| == 16
  {
    InitialCentroids
  }

  /** The K clusters built from the first K rows of the table. */
  function TableClusters(k: nat, d: nat): (r: seq<Cluster>)
    requires k <= 7 && d <= 16
    ensures |r| == k && forall c :: 0 <= c < k ==> r[c] == NewCluster(c, Table()[c], d)
  {
    seq(k, c requires 0 <= c < k => NewCluster(c, Table()[c], d))
  }

  /** The objects before the loop are sound and stand for the predefined
      state: no point assigned, zero counts and sums, and centroid c the
      first D values of row c of the table. */
  lemma StartRows(pr: Problem, points: seq<Point>)
    requires pr.Valid() && PointsHold(pr, points) && AllUnassigned(points)
    requires pr.k <= 7 && pr.d <= 16
    ensures Sound(pr)(Instance(points, TableClusters(pr.k, pr.d)))
    ensures Rows(Instance(points, TableClusters(pr.k, pr.d))) == Predefined(pr, Table())
  {
    var x := Instance(points, TableClusters(pr.k, pr.d));
    var s, t := Rows(x), Predefined(pr, Table());
    assert s.assign == t.assign;
    assert s.cents == t.cents;
    assert s.counts == t.counts;
    forall c | 0 <= c < pr.k
      ensures s.sums[c] == t.sums[c]
    {
      ZeroIsZeros(s.sums[c]);
    }
    assert s.sums == t.sums;
  }

  /** `KMeans::run` on freshly read, unassigned points, with the schedule of
      every pass: nothing happens when K exceeds the number of points;
      otherwise the clusters are built from the table and the for-loop runs.
      The table has 7 rows of 16 values, so the program reads past it unless
      K <= 7 and D <= 16. */
  function RunKMeans(pr: Problem, points: seq<Point>, sched: nat -> Schedule, maxIterations: int): (r: Report<Progress>)
    requires pr.Valid() && PointsHold(pr, points) && AllUnassigned(points)
    requires pr.k <= |points| ==> pr.k <= 7 && pr.d <= 16
    ensures !r.OutOfDraws? && (r.TooFewPoints? <==> pr.k > |points|)
    ensures r.Finished? ==> r.outcome.passes <= Budget(maxIterations) && r.outcome.state.pass == r.outcome.passes
  {
    if pr.k > |points| then TooFewPoints
    else
      var start := Progress(Instance(points, TableClusters(pr.k, pr.d)), 0);
      ForLoopCounts(start, Advances(pr, sched), Budget(maxIterations), Passes());
      Finished(ForLoop(start, Advances(pr, sched), Budget(maxIterations)))
  }

  /** Whatever the schedules, a run is the predefined-table run of the
      reference seen through the rows, and it ends with sound objects. */
  lemma RunKMeansSpec(pr: Problem, points: seq<Point>, sched: nat -> Schedule, maxIterations: int)
    requires pr.Valid() && PointsHold(pr, points) && AllUnassigned(points)
    requires pr.k <= |points| ==> pr.k <= 7 && pr.d <= 16
    requires Schedules(pr, sched)
    ensures MapReport(RunKMeans(pr, points, sched, maxIterations), Observed())
            == PredefinedRun(pr, Table(), maxIterations)
    ensures var r := RunKMeans(pr, points, sched, maxIterations);
      r.Finished? ==> Sound(pr)(r.outcome.state.objects)
  {
    if pr.k <= |points| {
      var x := Instance(points, TableClusters(pr.k, pr.d));
      StartRows(pr, points);
      LoopRows(pr, x, sched, maxIterations);
    }
  }

  /** From sound objects the for-loop runs the reference loop on the rows:
      the same passes, the same reason to stop and the final objects
      standing for its final state. */
  lemma LoopRows(pr: Problem, x: Instance, sched: nat -> Schedule, maxIterations: int)
    requires Sound(pr)(x) && Schedules(pr, sched)
    ensures SoundProgress(pr)(ForLoop(Progress(x, 0), Advances(pr, sched), Budget(maxIterations)).state)
    ensures Corresponds(ForLoop(Progress(x, 0), Advances(pr, sched), Budget(maxIterations)),
                        Iteration.Run(pr, Rows(x), maxIterations), Observed())
  {
    AdvancesAgree(pr, sched);
    ForLoopSimulation(Progress(x, 0), Advances(pr, sched), Rows(x), Iteration.Steps(pr),
                      Observed(), SoundProgress(pr), Budget(maxIterations));
  }
}

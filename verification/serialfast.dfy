/** `src/kmeans-serial-fast.cpp`: each cluster keeps its members in a hash map
    from point id to point, so that removing a point is one `erase`; the
    attribute sums are cleared at the start of each iteration and the new
    centroid is sums / number of keys. */
module SerialFast {
  import opened Vectors
  import opened Points
  import opened Nearest
  import opened Lloyd
  import opened Objects
  import opened Membership
  import opened Seeding
  import opened Loops
  import opened Runs
  import Iteration

  /** A cluster object: id, attribute count, centroid, members by id and
      attribute sums. */
  datatype Cluster = Cluster(id: int, totalAttr: nat, central: Vec, members: map<int, Point>, sums: Vec)
  {
    predicate WellFormed() {
      |central| == totalAttr && |sums| == totalAttr
    }

    /** `addPoint`: `insert` adds the id with the point, and leaves the map
        as it is when the id is already a key. */
    function AddPoint(p: Point): (r: Cluster)
      ensures r.members.Keys == members.Keys + {p.id}
      ensures forall j :: j in members ==> j in r.members && r.members[j] == members[j]
      ensures p.id !in members ==> r.members[p.id] == p
      ensures r.(members := members) == this
    {
      if p.id in members then this else this.(members := members[p.id := p])
    }

    /** `removePoint`: `erase` drops the id when it is a key; every other
        entry stays and the answer is always true. */
    function RemovePoint(pointId: int): (r: (Cluster, bool))
      ensures r.1
      ensures r.0.members.Keys == members.Keys - {pointId}
      ensures forall j :: j in r.0.members ==> r.0.members[j] == members[j]
      ensures r.0.(members := members) == this
    {
      (this.(members := members - {pointId}), true)
    }

    /** `getTotalPoints`: the number of keys. */
    function TotalPoints(): (n: nat)
      ensures n == |members.Keys|
    {
      |members|
    }

    /** `updateCentralValues`: with members, each centroid value becomes its
        sum divided by the number of members; without, nothing changes. */
    function UpdateCentralValues(): (r: Cluster)
      requires WellFormed()
      ensures r.WellFormed() && r.(central := central) == this
      ensures TotalPoints() > 0 ==> r.central == Div(sums, TotalPoints())
      ensures TotalPoints() == 0 ==> r == this
    {
      var n := TotalPoints();
      if n > 0 then this.(central := seq(totalAttr, i requires 0 <= i < totalAttr => sums[i] / (n as real)))
      else this
    }

    /** `addAttributeSums`: the point's first `total_attr` values are added. */
    function AddAttributeSums(p: Point): (r: Cluster)
      requires WellFormed() && totalAttr <= |p.values|
      ensures r.WellFormed() && r.(sums := sums) == this
      ensures r.sums == Add(sums, p.values[..totalAttr])
    {
      this.(sums := seq(totalAttr, i requires 0 <= i < totalAttr => sums[i] + p.values[i]))
    }

    /** `clearAttributeSums`: every sum becomes 0.0. */
    function ClearAttributeSums(): (r: Cluster)
      requires WellFormed()
      ensures r.WellFormed() && IsZero(r.sums) && r.(sums := sums) == this
    {
      this.(sums := Zeros(totalAttr))
    }
  }

  /** The seeding constructor `Cluster(id, point, total_attr)`: the first
      `total_attr` values of the point as centroid, the point as only member
      and zero sums. */
  function NewCluster(id: int, p: Point, totalAttr: nat): (cl: Cluster)
    requires totalAttr <= |p.values|
    ensures cl.WellFormed() && cl.id == id && cl.totalAttr == totalAttr
    ensures cl.members.Keys == {p.id} && cl.central == p.values[..totalAttr] && IsZero(cl.sums)
  {
    Cluster(id, totalAttr, p.values[..totalAttr], map[p.id := p], Zeros(totalAttr))
  }

  /** The points vector and the cluster objects of a `KMeans` instance. */
  datatype Instance = Instance(points: seq<Point>, clusters: seq<Cluster>)

  /** The centroids of the clusters, in cluster order. */
  function Centrals(clusters: seq<Cluster>): (r: seq<Vec>)
    ensures |r| == |clusters| && forall c :: 0 <= c < |clusters| ==> r[c] == clusters[c].central
  {
    if |clusters| == 0 then [] else Centrals(clusters[..|clusters| - 1]) + [clusters[|clusters| - 1].central]
  }

  /** The number of members of every cluster. */
  function Sizes(clusters: seq<Cluster>): (r: seq<int>)
    ensures |r| == |clusters| && forall c :: 0 <= c < |clusters| ==> r[c] == clusters[c].TotalPoints()
  {
    if |clusters| == 0 then [] else Sizes(clusters[..|clusters| - 1]) + [clusters[|clusters| - 1].TotalPoints()]
  }

  /** The attribute sums of every cluster. */
  function SumRows(clusters: seq<Cluster>): (r: seq<Vec>)
    ensures |r| == |clusters| && forall c :: 0 <= c < |clusters| ==> r[c] == clusters[c].sums
  {
    if |clusters| == 0 then [] else SumRows(clusters[..|clusters| - 1]) + [clusters[|clusters| - 1].sums]
  }

  /** The cluster rows the objects stand for; a cluster's count is its
      number of members. */
  function Rows(x: Instance): (s: State)
    ensures s.assign == Ids(x.points) && s.cents == Centrals(x.clusters)
    ensures s.counts == Sizes(x.clusters) && s.sums == SumRows(x.clusters)
  {
    State(Ids(x.points), Centrals(x.clusters), Sizes(x.clusters), SumRows(x.clusters))
  }

  /** Cluster c has id c, D attributes and well-formed vectors. */
  predicate ClustersFit(pr: Problem, clusters: seq<Cluster>) {
    && |clusters| == pr.k
    && (forall c :: 0 <= c < pr.k ==>
          clusters[c].id == c && clusters[c].totalAttr == pr.d && clusters[c].WellFormed())
  }

  /** The objects are those of problem `pr`. */
  predicate Fit(pr: Problem, x: Instance) {
    pr.Valid() && PointsFit(pr, x.points) && ClustersFit(pr, x.clusters)
  }

  /** Replacing a cluster by one that differs only in its members keeps the
      clusters fitting. */
  lemma MembersChangeFits(pr: Problem, clusters: seq<Cluster>, c: nat, cl: Cluster)
    requires ClustersFit(pr, clusters) && c < pr.k
    requires cl.(members := clusters[c].members) == clusters[c]
    ensures ClustersFit(pr, clusters[c := cl])
  {
  }

  /** The keys of each cluster are exactly the ids of the points assigned to
      it. */
  predicate Keyed(pr: Problem, x: Instance) {
    KeySets(x.clusters) == MemberSets(Ids(x.points), pr.k)
  }

  /** The keys of every cluster's member map. */
  function KeySets(clusters: seq<Cluster>): (r: seq<set<int>>)
    ensures |r| == |clusters| && forall c :: 0 <= c < |clusters| ==> r[c] == clusters[c].members.Keys
  {
    if |clusters| == 0 then [] else KeySets(clusters[..|clusters| - 1]) + [clusters[|clusters| - 1].members.Keys]
  }

  /** Keyed objects, cluster by cluster. */
  lemma KeyedIff(pr: Problem, x: Instance)
    requires Fit(pr, x)
    ensures Keyed(pr, x) <==> forall c :: 0 <= c < pr.k ==> x.clusters[c].members.Keys == MemberSet(Ids(x.points), c)
  {
    if forall c :: 0 <= c < pr.k ==> x.clusters[c].members.Keys == MemberSet(Ids(x.points), c) {
      assert forall c :: 0 <= c < pr.k ==> KeySets(x.clusters)[c] == MemberSets(Ids(x.points), pr.k)[c];
    }
  }

  /** Fitting objects stand for well-shaped rows, and keyed ones for rows
      whose counts match. */
  lemma FitRows(pr: Problem, x: Instance)
    requires Fit(pr, x)
    ensures Shaped(pr, Rows(x))
    ensures Keyed(pr, x) ==> CountsMatch(Rows(x))
  {
    if Keyed(pr, x) {
      KeyedIff(pr, x);
      forall c | 0 <= c < pr.k
        ensures Rows(x).counts[c] == CountOf(Rows(x).assign, c)
      {
        MemberSetSize(Ids(x.points), c);
      }
    }
  }

  /** `clusters[id_old_cluster].removePoint(...)` for a point that was in
      a cluster. */
  function Leave(pr: Problem, x: Instance, i: nat): (r: Instance)
    requires Fit(pr, x) && i < |x.points|
    ensures Fit(pr, r) && r.points == x.points
    ensures forall c :: 0 <= c < pr.k ==> r.clusters[c].(members := x.clusters[c].members) == x.clusters[c]
  {
    var prev := x.points[i].cluster;
    if prev != Unassigned then
      var cl := x.clusters[prev].RemovePoint(x.points[i].id).0;
      MembersChangeFits(pr, x.clusters, prev, cl);
      x.(clusters := x.clusters[prev := cl])
    else x
  }

  /** `points[i].setCluster(k)` and `clusters[k].addPoint(points[i])`. */
  function Join(pr: Problem, x: Instance, i: nat, k: nat): (r: Instance)
    requires Fit(pr, x) && i < |x.points| && k < pr.k
    ensures Fit(pr, r) && Ids(r.points) == Ids(x.points)[i := k]
    ensures forall c :: 0 <= c < pr.k ==> r.clusters[c].(members := x.clusters[c].members) == x.clusters[c]
  {
    var points := x.points[i := x.points[i].SetCluster(k)];
    SetClusterFits(pr, x.points, i, k);
    var cl := x.clusters[k].AddPoint(points[i]);
    MembersChangeFits(pr, x.clusters, k, cl);
    Instance(points, x.clusters[k := cl])
  }

  /** The first half of the loop body for point i with nearest centre `k`:
      when the point is elsewhere it is removed from its old cluster (unless
      unassigned), takes the new id and is added to the new cluster. */
  function Relocate(pr: Problem, x: Instance, i: nat, k: nat): (r: (Instance, bool))
    requires Fit(pr, x) && i < |x.points| && k < pr.k
    ensures Fit(pr, r.0)
    ensures forall c :: 0 <= c < pr.k ==> r.0.clusters[c].(members := x.clusters[c].members) == x.clusters[c]
  {
    if x.points[i].cluster != k then (Join(pr, Leave(pr, x, i), i, k), true) else (x, false)
  }

  /** Relocating keeps the keys matching. */
  lemma RelocateKeyed(pr: Problem, x: Instance, i: nat, k: nat)
    requires Fit(pr, x) && Keyed(pr, x) && i < |x.points| && k < pr.k
    ensures Keyed(pr, Relocate(pr, x, i, k).0)
  {
    var y := Relocate(pr, x, i, k).0;
    var a := Ids(x.points);
    if a[i] != k {
      KeyedIff(pr, x);
      IdsSetCluster(x.points, i, k);
      forall c | 0 <= c < pr.k
        ensures y.clusters[c].members.Keys == MemberSet(Ids(y.points), c)
      {
        MemberSetUpdate(a, i, k, c);
      }
      KeyedIff(pr, y);
    }
  }

  /** Clusters that differ only in their members have the same centroids
      and sums. */
  lemma MembersOnly(clusters: seq<Cluster>, clusters': seq<Cluster>)
    requires |clusters'| == |clusters|
    requires forall c :: 0 <= c < |clusters| ==> clusters'[c].(members := clusters[c].members) == clusters[c]
    ensures Centrals(clusters') == Centrals(clusters) && SumRows(clusters') == SumRows(clusters)
  {
    assert forall c :: 0 <= c < |clusters| ==> clusters'[c].central == clusters[c].central && clusters'[c].sums == clusters[c].sums;
  }

  /** Keyed objects stand for any rows with the same assignment, centroids
      and sums whose counts match. */
  lemma KeyedRows(pr: Problem, y: Instance, t: State)
    requires Fit(pr, y) && Keyed(pr, y) && Shaped(pr, t) && CountsMatch(t)
    requires Rows(y).assign == t.assign && Rows(y).cents == t.cents && Rows(y).sums == t.sums
    ensures Rows(y) == t
  {
    FitRows(pr, y);
    var u := Rows(y);
    forall c | 0 <= c < pr.k
      ensures u.counts[c] == t.counts[c]
    {
      assert u.counts[c] == CountOf(u.assign, c);
    }
    assert u.counts == t.counts;
  }

  /** Relocating moves exactly as the reference move does and reports
      whether the point moved. */
  lemma RelocateRows(pr: Problem, x: Instance, i: nat, k: nat)
    requires Fit(pr, x) && Keyed(pr, x) && i < |x.points| && k < pr.k
    ensures Shaped(pr, Rows(x))
    ensures Keyed(pr, Relocate(pr, x, i, k).0)
    ensures Rows(Relocate(pr, x, i, k).0) == MovePoint(pr, Rows(x), i, k)
    ensures Relocate(pr, x, i, k).1 <==> Rows(x).assign[i] != k
  {
    FitRows(pr, x);
    var y := Relocate(pr, x, i, k).0;
    RelocateKeyed(pr, x, i, k);
    MovePointMatches(pr, Rows(x), i, k);
    var t := MovePoint(pr, Rows(x), i, k);
    MembersOnly(x.clusters, y.clusters);
    KeyedRows(pr, y, t);
  }

  /** `clusters[k].addAttributeSums(points[i])`. */
  function Accumulate(pr: Problem, x: Instance, i: nat, k: nat): (r: Instance)
    requires Fit(pr, x) && i < |x.points| && k < pr.k
    ensures Fit(pr, r) && r.points == x.points
    ensures forall c :: 0 <= c < pr.k ==> r.clusters[c].(sums := x.clusters[c].sums) == x.clusters[c]
    ensures r.clusters[k].sums == Add(x.clusters[k].sums, pr.vals[i])
    ensures r.clusters == x.clusters[k := r.clusters[k]]
  {
    assert x.points[i].values[..pr.d] == pr.vals[i];
    var cl := x.clusters[k].AddAttributeSums(x.points[i]);
    x.(clusters := x.clusters[k := cl])
  }

  /** Clusters that differ only in their sums have the same centroids,
      members and sizes. */
  lemma SumsOnly(clusters: seq<Cluster>, clusters': seq<Cluster>)
    requires |clusters'| == |clusters|
    requires forall c :: 0 <= c < |clusters| ==> clusters'[c].(sums := clusters[c].sums) == clusters[c]
    ensures Centrals(clusters') == Centrals(clusters)
    ensures KeySets(clusters') == KeySets(clusters) && Sizes(clusters') == Sizes(clusters)
  {
    assert forall c :: 0 <= c < |clusters| ==> clusters'[c].central == clusters[c].central;
    assert forall c :: 0 <= c < |clusters| ==> clusters'[c].members == clusters[c].members;
    assert forall c :: 0 <= c < |clusters| ==> KeySets(clusters')[c] == KeySets(clusters)[c];
    assert forall c :: 0 <= c < |clusters| ==> Sizes(clusters')[c] == Sizes(clusters)[c];
  }

  /** Replacing one cluster replaces its sum row. */
  lemma SumRowsSet(clusters: seq<Cluster>, k: nat, cl: Cluster)
    requires k < |clusters|
    ensures SumRows(clusters[k := cl]) == SumRows(clusters)[k := cl.sums]
  {
    var a, b := SumRows(clusters[k := cl]), SumRows(clusters)[k := cl.sums];
    assert forall c :: 0 <= c < |a| ==> a[c] == b[c];
  }

  /** Accumulating adds the point's values to the sum row of cluster `k`, as
      the reference does, and keeps the keys matching. */
  lemma AccumulateRows(pr: Problem, x: Instance, i: nat, k: nat)
    requires Fit(pr, x) && Keyed(pr, x) && i < |x.points| && k < pr.k
    ensures Shaped(pr, Rows(x))
    ensures Keyed(pr, Accumulate(pr, x, i, k))
    ensures Rows(Accumulate(pr, x, i, k)) == AddToSums(pr, Rows(x), i, k)
  {
    FitRows(pr, x);
    var y := Accumulate(pr, x, i, k);
    var t := AddToSums(pr, Rows(x), i, k);
    SumsOnly(x.clusters, y.clusters);
    SumRowsSet(x.clusters, k, y.clusters[k]);
    assert Rows(y).sums == t.sums;
  }

  /** `getIDNearestCenter`: the first centroid at least squared distance,
      from the clusters' current centroids. */
  function NearestCenter(pr: Problem, x: Instance, i: nat): (k: nat)
    requires Fit(pr, x) && i < |x.points|
    ensures k < pr.k && k == NearestCentroid(pr.vals[i], Centrals(x.clusters))
  {
    NearestCentroid(x.points[i].values, Centrals(x.clusters))
  }

  /** The loop body for point i: relocate it to its nearest centre when it
      is elsewhere, then add its values to that centre's sums; the flag is
      `done = false`. */
  function AssignOne(pr: Problem, x: Instance, i: nat): (r: (Instance, bool))
    requires Fit(pr, x) && i < |x.points|
    ensures Fit(pr, r.0) && Centrals(r.0.clusters) == Centrals(x.clusters)
  {
    var k := NearestCenter(pr, x, i);
    var (y, moved) := Relocate(pr, x, i, k);
    MembersOnly(x.clusters, y.clusters);
    var z := Accumulate(pr, y, i, k);
    SumsOnly(y.clusters, z.clusters);
    (z, moved)
  }

  /** Handling point i is the reference step for a point whose nearest
      cluster is `near[i]`, given that the centroids are those the nearest
      indices were computed from. */
  lemma AssignOneRows(pr: Problem, near: seq<nat>, x: Instance, i: nat)
    requires Fit(pr, x) && Keyed(pr, x) && i < |x.points|
    requires Shaped(pr, Rows(x)) && near == Near(pr, Rows(x).cents)
    ensures Keyed(pr, AssignOne(pr, x, i).0)
    ensures Rows(AssignOne(pr, x, i).0) == AssignPoint(pr, near, Rows(x), i)
    ensures AssignOne(pr, x, i).1 <==> Rows(x).assign[i] != near[i]
  {
    var k := NearestCenter(pr, x, i);
    RelocateRows(pr, x, i, k);
    AccumulateRows(pr, Relocate(pr, x, i, k).0, i, k);
  }

  /** The loop body as a visit of the sweep over the points; objects that
      do not fit the problem are left alone. */
  function Handle(pr: Problem, x: Instance, i: nat): (r: (Instance, bool))
    ensures Fit(pr, x) && i < |x.points| ==> Fit(pr, r.0) && Centrals(r.0.clusters) == Centrals(x.clusters)
  {
    if Fit(pr, x) && i < |x.points| then AssignOne(pr, x, i) else (x, false)
  }

  /** Handling point i is the reference visit of point i, with the keys
      still matching and the centroids untouched. */
  lemma HandleRows(pr: Problem, near: seq<nat>, x: Instance, i: nat)
    requires Fit(pr, x) && Keyed(pr, x) && i < |x.points|
    requires near == Near(pr, Centrals(x.clusters))
    ensures Fit(pr, Handle(pr, x, i).0) && Keyed(pr, Handle(pr, x, i).0)
    ensures Centrals(Handle(pr, x, i).0.clusters) == Centrals(x.clusters)
    ensures Rows(Handle(pr, x, i).0) == Lloyd.Visit(pr, near, Rows(x), i).0
    ensures Handle(pr, x, i).1 == Lloyd.Visit(pr, near, Rows(x), i).1
  {
    FitRows(pr, x);
    AssignOneRows(pr, near, x, i);
  }

  /** The loop body as one value, to drive a sweep. */
  function Handles(pr: Problem): (Instance, nat) -> (Instance, bool)
  {
    (y: Instance, i: nat) => Handle(pr, y, i)
  }

  /** What the assignment loop keeps: the objects fit, their keys match and
      the centroids are `cents`. */
  function Kept(pr: Problem, cents: seq<Vec>): Instance -> bool
  {
    y => Fit(pr, y) && Keyed(pr, y) && Centrals(y.clusters) == cents
  }

  /** The assignment loop over all the points; the flag is `done = false`. */
  function Pass(pr: Problem, x: Instance): (r: (Instance, bool))
  {
    Sweep(x, Handles(pr), |x.points|)
  }

  /** On kept objects the loop body is the reference visit. */
  lemma HandlesAgree(pr: Problem, cents: seq<Vec>, n: nat)
    requires pr.Valid() && |cents| == pr.k && Dims(cents, pr.d) && n <= |pr.vals|
    ensures VisitsAgree(Handles(pr), Visits(pr, Near(pr, cents)), Rows, Kept(pr, cents), n)
  {
    var near := Near(pr, cents);
    forall y, i: nat | Kept(pr, cents)(y) && i < n
      ensures VisitAgrees(Handles(pr), Visits(pr, near), Rows, Kept(pr, cents), y, i)
    {
      HandleRows(pr, near, y, i);
    }
  }

  /** The assignment loop sweeps the reference visits over the rows. */
  lemma PassSweeps(pr: Problem, x: Instance)
    requires Fit(pr, x) && Keyed(pr, x)
    ensures Fit(pr, Pass(pr, x).0) && Keyed(pr, Pass(pr, x).0)
    ensures Centrals(Pass(pr, x).0.clusters) == Centrals(x.clusters)
    ensures Seen(Pass(pr, x)) == Sweep(Rows(x), Visits(pr, Near(pr, Centrals(x.clusters))), |x.points|)
  {
    var cents := Centrals(x.clusters);
    HandlesAgree(pr, cents, |x.points|);
    SweepSimulation(x, Handles(pr), Rows(x), Visits(pr, Near(pr, cents)), Rows, Kept(pr, cents), |x.points|);
  }
  /** A pass result seen as rows, with its flag. */
  function Seen(r: (Instance, bool)): (t: (State, bool))
    ensures t.0 == Rows(r.0) && t.1 == r.1
  {
    (Rows(r.0), r.1)
  }

  /** The assignment loop is the reference counter pass: the objects it
      leaves stand for the rows the reference pass computes, with the same
      flag, the keys still match and the centroids are untouched. */
  lemma PassRows(pr: Problem, x: Instance)
    requires Fit(pr, x) && Keyed(pr, x)
    ensures Fit(pr, Pass(pr, x).0) && Keyed(pr, Pass(pr, x).0)
    ensures Centrals(Pass(pr, x).0.clusters) == Centrals(x.clusters)
    ensures Shaped(pr, Rows(x)) && Seen(Pass(pr, x)) == CounterPass(pr, Rows(x))
  {
    FitRows(pr, x);
    PassSweeps(pr, x);
    PassUpToIsSweep(pr, Near(pr, Centrals(x.clusters)), Rows(x), |x.points|);
  }

  /** The objects fit the problem, as one value. */
  function Fits(pr: Problem): Instance -> bool
  {
    y => Fit(pr, y)
  }

  /** The assignment loop keeps the objects fitting. */
  lemma PassFits(pr: Problem, x: Instance)
    requires Fit(pr, x)
    ensures Fit(pr, Pass(pr, x).0)
  {
    forall y, i: nat | Fits(pr)(y) && i < |x.points|
      ensures Fits(pr)(Handles(pr)(y, i).0)
    {
    }
    SweepKeeps(x, Handles(pr), Fits(pr), |x.points|);
  }

  /** The clusters with `clearAttributeSums` applied to each. */
  function ClearedClusters(clusters: seq<Cluster>): (r: seq<Cluster>)
    requires forall c :: 0 <= c < |clusters| ==> clusters[c].WellFormed()
    ensures |r| == |clusters| && forall c :: 0 <= c < |clusters| ==> r[c] == clusters[c].ClearAttributeSums()
  {
    if |clusters| == 0 then []
    else ClearedClusters(clusters[..|clusters| - 1]) + [clusters[|clusters| - 1].ClearAttributeSums()]
  }

  /** The loop clearing the sums of all K clusters at the start of an
      iteration. */
  function ClearAll(pr: Problem, x: Instance): (r: Instance)
    requires Fit(pr, x)
    ensures Fit(pr, r) && r.points == x.points
  {
    x.(clusters := ClearedClusters(x.clusters))
  }

  /** Clearing all the sums is the reference clear, and keeps the keys. */
  lemma ClearAllRows(pr: Problem, x: Instance)
    requires Fit(pr, x) && Keyed(pr, x)
    ensures Keyed(pr, ClearAll(pr, x))
    ensures Shaped(pr, Rows(x)) && Rows(ClearAll(pr, x)) == ClearSums(pr, Rows(x))
  {
    FitRows(pr, x);
    var y := ClearAll(pr, x);
    assert Centrals(y.clusters) == Centrals(x.clusters);
    assert KeySets(y.clusters) == KeySets(x.clusters);
    assert Sizes(y.clusters) == Sizes(x.clusters);
    assert SumRows(y.clusters) == ClearSums(pr, Rows(x)).sums;
  }

  /** The clusters with `updateCentralValues` applied to each. */
  function UpdatedClusters(clusters: seq<Cluster>): (r: seq<Cluster>)
    requires forall c :: 0 <= c < |clusters| ==> clusters[c].WellFormed()
    ensures |r| == |clusters| && forall c :: 0 <= c < |clusters| ==> r[c] == clusters[c].UpdateCentralValues()
  {
    if |clusters| == 0 then []
    else UpdatedClusters(clusters[..|clusters| - 1]) + [clusters[|clusters| - 1].UpdateCentralValues()]
  }

  /** The loop recalculating the centre of each of the K clusters. */
  function Recalculate(pr: Problem, x: Instance): (r: Instance)
    requires Fit(pr, x)
    ensures Fit(pr, r) && r.points == x.points
  {
    x.(clusters := UpdatedClusters(x.clusters))
  }

  /** Recalculating the centres is the reference update: a cluster with
      members moves to sums / number of members, any other stays; the keys
      still match. */
  lemma RecalculateRows(pr: Problem, x: Instance)
    requires Fit(pr, x) && Keyed(pr, x)
    ensures Keyed(pr, Recalculate(pr, x))
    ensures Shaped(pr, Rows(x)) && Rows(Recalculate(pr, x)) == Update(pr, Rows(x))
  {
    FitRows(pr, x);
    UpdatedRows(x.clusters);
    RecalculateCentrals(pr, x, Rows(x));
  }

  /** Recalculating gives the reference centroids of the rows `s`. */
  lemma RecalculateCentrals(pr: Problem, x: Instance, s: State)
    requires Fit(pr, x) && s == Rows(x) && Shaped(pr, s)
    ensures Centrals(Recalculate(pr, x).clusters) == Update(pr, s).cents
  {
    UpdatedCentrals(x.clusters);
  }

  /** Updating the centres changes only the centroids: each cluster with
      members moves to sums / size, any other keeps its centroid. */
  lemma UpdatedRows(clusters: seq<Cluster>)
    requires forall c :: 0 <= c < |clusters| ==> clusters[c].WellFormed()
    ensures var r := UpdatedClusters(clusters);
      && KeySets(r) == KeySets(clusters) && Sizes(r) == Sizes(clusters) && SumRows(r) == SumRows(clusters)
      && forall c :: 0 <= c < |clusters| ==>
           Centrals(r)[c] == if Sizes(clusters)[c] > 0 then Div(SumRows(clusters)[c], Sizes(clusters)[c]) else Centrals(clusters)[c]
  {
    UpdatedCentrals(clusters);
    UpdatedKeeps(clusters);
  }

  /** Updating the centres keeps the member sets, sizes and sums. */
  lemma UpdatedKeeps(clusters: seq<Cluster>)
    requires forall c :: 0 <= c < |clusters| ==> clusters[c].WellFormed()
    ensures var r := UpdatedClusters(clusters);
      KeySets(r) == KeySets(clusters) && Sizes(r) == Sizes(clusters) && SumRows(r) == SumRows(clusters)
  {
    UpdatedKeySets(clusters);
    UpdatedSizes(clusters);
    UpdatedSums(clusters);
  }

  /** Updating the centres keeps the member sets. */
  lemma UpdatedKeySets(clusters: seq<Cluster>)
    requires forall c :: 0 <= c < |clusters| ==> clusters[c].WellFormed()
    ensures KeySets(UpdatedClusters(clusters)) == KeySets(clusters)
  {
    var r := UpdatedClusters(clusters);
    forall c | 0 <= c < |clusters|
      ensures KeySets(r)[c] == KeySets(clusters)[c]
    {
      assert r[c].members == clusters[c].members;
    }
  }

  /** Updating the centres keeps the sizes. */
  lemma UpdatedSizes(clusters: seq<Cluster>)
    requires forall c :: 0 <= c < |clusters| ==> clusters[c].WellFormed()
    ensures Sizes(UpdatedClusters(clusters)) == Sizes(clusters)
  {
    var r := UpdatedClusters(clusters);
    forall c | 0 <= c < |clusters|
      ensures Sizes(r)[c] == Sizes(clusters)[c]
    {
      var m, m' := clusters[c].members, r[c].members;
      assert m' == m;
      assert Sizes(r)[c] == |m'|;
    }
  }

  /** Updating the centres keeps the sums. */
  lemma UpdatedSums(clusters: seq<Cluster>)
    requires forall c :: 0 <= c < |clusters| ==> clusters[c].WellFormed()
    ensures SumRows(UpdatedClusters(clusters)) == SumRows(clusters)
  {
    var r := UpdatedClusters(clusters);
    forall c | 0 <= c < |clusters|
      ensures SumRows(r)[c] == SumRows(clusters)[c]
    {
      assert r[c].sums == clusters[c].sums;
    }
  }

  /** UpdatedRows for the centroids alone. */
  lemma UpdatedCentrals(clusters: seq<Cluster>)
    requires forall c :: 0 <= c < |clusters| ==> clusters[c].WellFormed()
    ensures var r := UpdatedClusters(clusters);
      forall c :: 0 <= c < |clusters| ==>
        Centrals(r)[c] == if Sizes(clusters)[c] > 0 then Div(SumRows(clusters)[c], Sizes(clusters)[c]) else Centrals(clusters)[c]
  {
  }

  /** One pass of the for-loop body: clear the sums, assign every point,
      recalculate the centres; the flag is `!done`. Objects that do not fit
      the problem are left alone. */
  function Iterate(pr: Problem, x: Instance): (r: (Instance, bool))
    ensures Fit(pr, x) ==> Fit(pr, r.0)
  {
    if Fit(pr, x) then
      var y := ClearAll(pr, x);
      PassFits(pr, y);
      var (z, moved) := Pass(pr, y);
      (Recalculate(pr, z), moved)
    else (x, false)
  }

  /** An iteration is the clear-first reference iteration on the rows, with
      the same flag, and keeps the keys matching. */
  lemma IterateRows(pr: Problem, x: Instance)
    requires Fit(pr, x) && Keyed(pr, x)
    ensures Keyed(pr, Iterate(pr, x).0)
    ensures Shaped(pr, Rows(x))
    ensures Rows(Iterate(pr, x).0) == Iteration.ClearFirstStep(pr, Rows(x)).0
    ensures Iterate(pr, x).1 == Iteration.ClearFirstStep(pr, Rows(x)).1
  {
    var y := ClearAll(pr, x);
    ClearAllRows(pr, x);
    PassRows(pr, y);
    RecalculateRows(pr, Pass(pr, y).0);
  }

  /** The objects after choosing `seeds`: point `seeds[c]` is in cluster c,
      every other point is still unassigned, and cluster c was built by the
      seeding constructor from that point. */
  predicate SeededBy(pr: Problem, x: Instance, seeds: seq<nat>) {
    && pr.Valid() && DistinctIndexes(seeds, |pr.vals|)
    && SeedPoints(pr, x.points, seeds) && SeedClusters(pr, x.clusters, seeds)
  }

  /** The points of the problem, in the clusters the seeds give them. */
  predicate SeedPoints(pr: Problem, points: seq<Point>, seeds: seq<nat>)
    requires DistinctIndexes(seeds, |pr.vals|)
  {
    PointsHold(pr, points) && Ids(points) == SeedAssign(|pr.vals|, seeds)
  }

  /** One cluster per seed, built from the seed's point. */
  predicate SeedClusters(pr: Problem, clusters: seq<Cluster>, seeds: seq<nat>)
    requires DistinctIndexes(seeds, |pr.vals|)
  {
    && |clusters| == |seeds|
    && (forall c :: 0 <= c < |seeds| ==>
          && clusters[c].id == c && clusters[c].totalAttr == pr.d
          && clusters[c].central == pr.vals[seeds[c]] && clusters[c].sums == Zeros(pr.d)
          && clusters[c].members.Keys == {seeds[c]})
  }

  /** The point of an accepted index takes the next cluster id. */
  lemma AcceptPoints(pr: Problem, points: seq<Point>, seeds: seq<nat>, index: nat)
    requires pr.Valid() && DistinctIndexes(seeds, |pr.vals|) && SeedPoints(pr, points, seeds)
    requires index < |pr.vals| && index !in seeds
    ensures DistinctIndexes(seeds + [index], |pr.vals|)
    ensures SeedPoints(pr, points[index := points[index].SetCluster(|seeds|)], seeds + [index])
  {
    SeedAssignAppend(|pr.vals|, seeds, index);
    IdsSetCluster(points, index, |seeds|);
  }

  /** The cluster built from the accepted point comes next. */
  lemma AcceptClusters(pr: Problem, clusters: seq<Cluster>, seeds: seq<nat>, index: nat, cl: Cluster)
    requires pr.Valid() && DistinctIndexes(seeds, |pr.vals|) && SeedClusters(pr, clusters, seeds)
    requires index < |pr.vals| && index !in seeds && DistinctIndexes(seeds + [index], |pr.vals|)
    requires cl.id == |seeds| && cl.totalAttr == pr.d && cl.central == pr.vals[index]
    requires cl.sums == Zeros(pr.d) && cl.members.Keys == {index}
    ensures SeedClusters(pr, clusters + [cl], seeds + [index])
  {
  }

  /** An index not yet prohibited is recorded, its point takes the next
      cluster id and that cluster is built from it. */
  function Accept(pr: Problem, x: Instance, prohibited: seq<nat>, index: nat): (r: (Instance, seq<nat>))
    requires SeededBy(pr, x, prohibited) && index < |pr.vals| && index !in prohibited
    ensures SeededBy(pr, r.0, r.1) && r.1 == prohibited + [index]
  {
    var c := |x.clusters|;
    var points := x.points[index := x.points[index].SetCluster(c)];
    AcceptPoints(pr, x.points, prohibited, index);
    var cl := NewCluster(c, points[index], pr.d);
    assert cl.central == pr.vals[index] by {
      assert points[index].values == pr.vals[index];
    }
    AcceptClusters(pr, x.clusters, prohibited, index, cl);
    (Instance(points, x.clusters + [cl]), prohibited + [index])
  }

  /** The rejection loop of the seeding for the draws left: each draw gives
      `index_point = rand() % total_points`; an index already prohibited is
      skipped, any other is accepted; the loop ends once K clusters exist or
      the draws run out. */
  function SeedFrom(pr: Problem, draws: seq<nat>, x: Instance, prohibited: seq<nat>): (r: (Instance, seq<nat>))
    requires SeededBy(pr, x, prohibited) && |prohibited| <= pr.k <= |pr.vals|
    ensures SeededBy(pr, r.0, r.1)
    ensures r.1 == PickFrom(draws, |pr.vals|, pr.k, prohibited)
    decreases |draws|
  {
    if |prohibited| == pr.k || |draws| == 0 then (x, prohibited)
    else
      var index := draws[0] % |x.points|;
      var (y, next) := if index in prohibited then (x, prohibited) else Accept(pr, x, prohibited, index);
      SeedFrom(pr, draws[1..], y, next)
  }

  /** With K seeds, the keys of cluster c are the seed of cluster c, the
      only point assigned to it. */
  lemma SeededKeyed(pr: Problem, x: Instance, seeds: seq<nat>)
    requires SeededBy(pr, x, seeds) && |seeds| == pr.k
    ensures Fit(pr, x) && Keyed(pr, x)
  {
    SeedAssignSpec(|pr.vals|, seeds);
    forall c | 0 <= c < pr.k
      ensures x.clusters[c].members.Keys == MemberSet(Ids(x.points), c)
    {
      SeededKey(pr, x, seeds, c);
    }
    KeyedIff(pr, x);
  }

  /** SeededKeyed for cluster c. */
  lemma SeededKey(pr: Problem, x: Instance, seeds: seq<nat>, c: nat)
    requires SeededBy(pr, x, seeds) && |seeds| == pr.k && c < pr.k
    ensures x.clusters[c].members.Keys == MemberSet(Ids(x.points), c)
  {
    SeedAssignSpec(|pr.vals|, seeds);
    forall i | i in MemberSet(Ids(x.points), c)
      ensures i == seeds[c]
    {
    }
  }

  /** Seeded objects with K seeds fit, their keys match, and they stand for
      the reference seeded state. */
  lemma SeededRows(pr: Problem, x: Instance, seeds: seq<nat>)
    requires SeededBy(pr, x, seeds) && |seeds| == pr.k
    ensures Fit(pr, x) && Keyed(pr, x) && Rows(x) == Seeded(pr, seeds)
  {
    SeededKeyed(pr, x, seeds);
    var r, t := Rows(x), Seeded(pr, seeds);
    assert r.cents == t.cents;
    assert r.counts == t.counts;
    assert r.sums == t.sums;
  }

  /** The loop body as one value, to drive the for-loop. */
  function Iterates(pr: Problem): Instance -> (Instance, bool)
  {
    y => Iterate(pr, y)
  }

  /** What every pass keeps: the objects fit and their keys match. */
  function Sound(pr: Problem): Instance -> bool
  {
    y => Fit(pr, y) && Keyed(pr, y)
  }

  /** On sound objects an iteration is the clear-first reference iteration. */
  lemma IterateAgreesAt(pr: Problem, y: Instance)
    requires Sound(pr)(y)
    ensures StepAgrees(Iterates(pr), Iteration.ClearFirstSteps(pr), Rows, Sound(pr), y)
  {
    IterateRows(pr, y);
  }

  lemma IteratesAgree(pr: Problem)
    ensures StepsAgree(Iterates(pr), Iteration.ClearFirstSteps(pr), Rows, Sound(pr))
  {
    forall y | Sound(pr)(y)
      ensures StepAgrees(Iterates(pr), Iteration.ClearFirstSteps(pr), Rows, Sound(pr), y)
    {
      IterateAgreesAt(pr, y);
    }
  }

  /** The for-loop over the iterations runs the clear-first reference loop
      on the rows: the same passes, the same reason to stop and the final
      objects standing for its final state. */
  lemma {:induction false} LoopRows(pr: Problem, x: Instance, maxIterations: int)
    requires Fit(pr, x) && Keyed(pr, x)
    ensures Sound(pr)(ForLoop(x, Iterates(pr), Budget(maxIterations)).state)
    ensures Corresponds(ForLoop(x, Iterates(pr), Budget(maxIterations)),
                        Iteration.ClearFirstRun(pr, Rows(x), maxIterations), Rows)
  {
    IteratesAgree(pr);
    ForLoopSimulation(x, Iterates(pr), Rows(x), Iteration.ClearFirstSteps(pr), Rows, Sound(pr), Budget(maxIterations));
  }

  /** The objects seen as the reference state between passes: the rows with
      the sums cleared, since this program clears them at the start of a
      pass where the reference clears them at the end. */
  function Abstract(pr: Problem, x: Instance): (s: State)
    ensures Fit(pr, x) ==> Shaped(pr, s) && SumsCleared(s) && s == Rows(x).(sums := s.sums)
  {
    if Fit(pr, x) then
      FitRows(pr, x);
      ClearSums(pr, Rows(x))
    else Rows(x)
  }

  /** `KMeans::run` on the points `main` built (all unassigned), with the
      finite stream of `rand()` draws: nothing happens when K exceeds the
      number of points; otherwise the seeding and then the for-loop run. */
  function RunKMeans(pr: Problem, points: seq<Point>, draws: seq<nat>, maxIterations: int): (r: Report<Instance>)
    requires pr.Valid() && PointsHold(pr, points) && AllUnassigned(points)
  {
    if pr.k > |points| then TooFewPoints
    else
      StartSeeded(pr, points);
      var (x, seeds) := SeedFrom(pr, draws, Instance(points, []), []);
      if |seeds| < pr.k then OutOfDraws
      else Finished(ForLoop(x, Iterates(pr), Budget(maxIterations)))
  }

  /** Unassigned points with no cluster are seeded by no seed. */
  lemma StartSeeded(pr: Problem, points: seq<Point>)
    requires pr.Valid() && PointsHold(pr, points) && AllUnassigned(points)
    ensures SeededBy(pr, Instance(points, []), [])
  {
    assert Ids(points) == SeedAssign(|pr.vals|, []);
  }

  /** The run is the reference seeded run: it gives up in the same cases,
      and when it finishes it took the same passes, stopped for the same
      reason and its objects, sums aside, are the reference's final state:
      the same centroids, memberships and counts. */
  lemma RunKMeansSpec(pr: Problem, points: seq<Point>, draws: seq<nat>, maxIterations: int)
    requires pr.Valid() && PointsHold(pr, points) && AllUnassigned(points)
    ensures MapReport(RunKMeans(pr, points, draws, maxIterations), x => Abstract(pr, x))
            == SeededRun(pr, draws, maxIterations)
    ensures var r := RunKMeans(pr, points, draws, maxIterations);
      r.Finished? ==> Fit(pr, r.outcome.state) && Keyed(pr, r.outcome.state)
  {
    if pr.k <= |points| {
      StartSeeded(pr, points);
      var (x, seeds) := SeedFrom(pr, draws, Instance(points, []), []);
      if |seeds| == pr.k {
        SeededLoop(pr, x, seeds, maxIterations);
      }
    }
  }

  /** From the seeded objects the for-loop is the reference loop from the
      seeded state: the same passes, the same reason to stop, and the final
      objects, sums aside, are the reference's final state. */
  lemma SeededLoop(pr: Problem, x: Instance, seeds: seq<nat>, maxIterations: int)
    requires SeededBy(pr, x, seeds) && |seeds| == pr.k
    ensures Sound(pr)(ForLoop(x, Iterates(pr), Budget(maxIterations)).state)
    ensures var o := ForLoop(x, Iterates(pr), Budget(maxIterations));
      Outcome(Abstract(pr, o.state), o.passes, o.converged) == Iteration.Run(pr, Seeded(pr, seeds), maxIterations)
  {
    SeededRows(pr, x, seeds);
    SeededSpec(pr, seeds);
    LoopRows(pr, x, maxIterations);
    Iteration.ClearFirstRunSpec(pr, Rows(x), maxIterations);
    ClearSumsCleared(pr, Rows(x));
  }
}

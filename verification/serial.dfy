/** `src/kmeans-serial.cpp`: each cluster keeps copies of its member points in
    a list, removing a point deletes the first copy with its id, the centroid
    of a non-empty cluster is recomputed from that list, and distances are
    compared after a square root. The centroids start from a predefined table
    and the loop is a `while (true)` whose test follows the body. */
module Serial {
  import opened Vectors
  import opened Points
  import opened Nearest
  import opened Lloyd
  import opened Objects
  import opened Membership
  import opened Sums
  import opened Seeding
  import opened Loops
  import opened Runs
  import Iteration

  /** The ids of a list of points, in list order. */
  function PointIds(ps: seq<Point>): (r: seq<int>)
    ensures |r| == |ps| && forall j :: 0 <= j < |ps| ==> r[j] == ps[j].id
  {
    if |ps| == 0 then [] else PointIds(ps[..|ps| - 1]) + [ps[|ps| - 1].id]
  }

  /** Where the scan of `removePoint` stops: the first position holding the
      id, or the length of the list when there is none. */
  function FirstWithId(ps: seq<Point>, pointId: int): (j: nat)
    ensures j <= |ps|
    ensures forall m :: 0 <= m < j ==> ps[m].id != pointId
    ensures j < |ps| ==> ps[j].id == pointId
    decreases |ps|
  {
    if |ps| == 0 || ps[0].id == pointId then 0 else 1 + FirstWithId(ps[1..], pointId)
  }

  /** The elementwise total of the values of a list of points. */
  function ListSum(ps: seq<Point>, d: nat): (r: Vec)
    requires forall m :: 0 <= m < |ps| ==> |ps[m].values| == d
    ensures |r| == d
  {
    if |ps| == 0 then Zeros(d) else Add(ListSum(ps[..|ps| - 1], d), ps[|ps| - 1].values)
  }

  /** A cluster object: id, centroid and copies of its member points. */
  datatype Cluster = Cluster(id: int, central: Vec, points: seq<Point>)
  {
    /** `addPoint`: the point is appended, so the list grows by exactly one. */
    function AddPoint(p: Point): (r: Cluster)
      ensures |r.points| == |points| + 1 && r.points[..|points|] == points && r.points[|points|] == p
      ensures r.(points := points) == this
    {
      this.(points := points + [p])
    }

    /** `removePoint`: when some copy has the id, the first one is deleted,
        the rest keep their order and the answer is true; otherwise nothing
        changes and the answer is false. */
    function RemovePoint(pointId: int): (r: (Cluster, bool))
      ensures r.0.(points := points) == this
      ensures r.1 <==> exists m :: 0 <= m < |points| && points[m].id == pointId
      ensures !r.1 ==> r.0 == this
      ensures r.1 ==> exists j :: 0 <= j < |points| && points[j].id == pointId
                        && (forall m :: 0 <= m < j ==> points[m].id != pointId)
                        && r.0.points == points[..j] + points[j + 1..]
    {
      var j := FirstWithId(points, pointId);
      if j < |points| then
        assert 0 <= j < |points| && points[j].id == pointId && forall m :: 0 <= m < j ==> points[m].id != pointId;
        (this.(points := points[..j] + points[j + 1..]), true)
      else (this, false)
    }

    /** `getTotalPoints`: the length of the list. */
    function TotalPoints(): (n: nat)
      ensures n == |points|
    {
      |points|
    }

    /** The recalculation of this cluster over `d` attributes: with members,
        each of the `d` centroid values becomes the total of that value over
        the list divided by the list's length; without, nothing changes. */
    function Recentre(d: nat): (r: Cluster)
      requires |central| == d && forall m :: 0 <= m < |points| ==> |points[m].values| == d
      ensures r.(central := central) == this && |r.central| == d
      ensures TotalPoints() > 0 ==>
                forall a :: 0 <= a < d ==> r.central[a] == ListSum(points, d)[a] / (TotalPoints() as real)
      ensures TotalPoints() == 0 ==> r == this
    {
      if TotalPoints() > 0 then this.(central := Div(ListSum(points, d), TotalPoints())) else this
    }
  }

  /** Removing a point takes one copy of its id out of the list's ids (none
      when there was no copy). */
  lemma RemovePointIds(cl: Cluster, pointId: int)
    ensures multiset(PointIds(cl.RemovePoint(pointId).0.points)) == multiset(PointIds(cl.points)) - multiset{pointId}
  {
    if FirstWithId(cl.points, pointId) < |cl.points| {
      RemovePointIdsFound(cl, pointId);
    } else {
      RemovePointIdsMissing(cl, pointId);
    }
  }

  /** RemovePointIds when the id is listed: the copy at its first
      position goes. */
  lemma RemovePointIdsFound(cl: Cluster, pointId: int)
    requires FirstWithId(cl.points, pointId) < |cl.points|
    ensures multiset(PointIds(cl.RemovePoint(pointId).0.points)) == multiset(PointIds(cl.points)) - multiset{pointId}
  {
    var ps := cl.points;
    var j := FirstWithId(ps, pointId);
    var ids := PointIds(ps);
    assert cl.RemovePoint(pointId).0.points == ps[..j] + ps[j + 1..];
    PointIdsRemoveAt(ps, j);
    MultisetRemoveAt(ids, j);
    assert ids[j] == pointId;
  }

  /** RemovePointIds when the id is not listed: nothing changes. */
  lemma RemovePointIdsMissing(cl: Cluster, pointId: int)
    requires FirstWithId(cl.points, pointId) == |cl.points|
    ensures multiset(PointIds(cl.RemovePoint(pointId).0.points)) == multiset(PointIds(cl.points)) - multiset{pointId}
  {
    var ids := PointIds(cl.points);
    assert cl.RemovePoint(pointId).0 == cl;
    assert pointId !in multiset(ids) by {
      forall m | 0 <= m < |ids|
        ensures ids[m] != pointId
      {
      }
    }
  }

  /** The ids of a list with one copy deleted. */
  lemma PointIdsRemoveAt(ps: seq<Point>, j: nat)
    requires j < |ps|
    ensures PointIds(ps[..j] + ps[j + 1..]) == PointIds(ps)[..j] + PointIds(ps)[j + 1..]
  {
    var a, b := PointIds(ps[..j] + ps[j + 1..]), PointIds(ps)[..j] + PointIds(ps)[j + 1..];
    assert |a| == |b| == |ps| - 1;
    forall m | 0 <= m < |a|
      ensures a[m] == b[m]
    {
      if m < j {
        assert a[m] == (ps[..j] + ps[j + 1..])[m].id == ps[m].id;
      } else {
        assert a[m] == (ps[..j] + ps[j + 1..])[m].id == ps[m + 1].id;
      }
    }
    assert a == b;
  }

  /** Adding a point adds one copy of its id to the list's ids. */
  lemma AddPointIds(cl: Cluster, p: Point)
    ensures multiset(PointIds(cl.AddPoint(p).points)) == multiset(PointIds(cl.points)) + multiset{p.id}
  {
    assert PointIds(cl.points + [p]) == PointIds(cl.points) + [p.id];
  }

  /** The constructor `Cluster(id, central_values)` for a row of the
      predefined table: the first D values as centroid and an empty list. */
  function NewCluster(id: int, row: Vec, d: nat): (cl: Cluster)
    requires d <= |row|
    ensures cl.id == id && cl.central == row[..d] && cl.points == []
  {
    Cluster(id, row[..d], [])
  }

  /** The points vector and the cluster objects of a `KMeans` instance. */
  datatype Instance = Instance(points: seq<Point>, clusters: seq<Cluster>)

  /** The centroids of the clusters, in cluster order. */
  function Centrals(clusters: seq<Cluster>): (r: seq<Vec>)
    ensures |r| == |clusters| && forall c :: 0 <= c < |clusters| ==> r[c] == clusters[c].central
  {
    if |clusters| == 0 then [] else Centrals(clusters[..|clusters| - 1]) + [clusters[|clusters| - 1].central]
  }

  /** The list length of every cluster. */
  function Sizes(clusters: seq<Cluster>): (r: seq<int>)
    ensures |r| == |clusters| && forall c :: 0 <= c < |clusters| ==> r[c] == clusters[c].TotalPoints()
  {
    if |clusters| == 0 then [] else Sizes(clusters[..|clusters| - 1]) + [clusters[|clusters| - 1].TotalPoints()]
  }

  /** The cluster rows the objects stand for: a cluster's count is the length
      of its list, and the sums, which this program does not keep, are zero. */
  function Rows(pr: Problem, x: Instance): (s: State)
    ensures s.assign == Ids(x.points) && s.cents == Centrals(x.clusters) && s.counts == Sizes(x.clusters)
    ensures |s.sums| == pr.k && forall c :: 0 <= c < pr.k ==> s.sums[c] == Zeros(pr.d)
  {
    State(Ids(x.points), Centrals(x.clusters), Sizes(x.clusters), seq(pr.k, _ => Zeros(pr.d)))
  }

  /** The rows, as one value. */
  function Abs(pr: Problem): Instance -> State
  {
    y => Rows(pr, y)
  }

  /** Cluster c has id c and a centroid of D values. */
  predicate ClustersFit(pr: Problem, clusters: seq<Cluster>) {
    && |clusters| == pr.k
    && (forall c :: 0 <= c < pr.k ==> clusters[c].id == c && |clusters[c].central| == pr.d)
  }

  /** The objects are those of problem `pr`. */
  predicate Fit(pr: Problem, x: Instance) {
    pr.Valid() && PointsFit(pr, x.points) && ClustersFit(pr, x.clusters)
  }

  /** A list holds copies of points of `pr`, and their ids are, counted with
      multiplicity, exactly the points assigned to cluster `c` by `a`. */
  predicate ListedIn(pr: Problem, ps: seq<Point>, a: seq<int>, c: int) {
    multiset(PointIds(ps)) == multiset(MembersOf(a, c)) && Copies(pr, ps)
  }

  /** Every point in a list is a copy of a point of `pr`. */
  predicate Copies(pr: Problem, ps: seq<Point>) {
    forall m :: 0 <= m < |ps| ==> 0 <= ps[m].id < |pr.vals| && ps[m].values == pr.vals[ps[m].id]
  }

  /** Appending a copy keeps a list of copies. */
  lemma CopiesAppend(pr: Problem, ps: seq<Point>, p: Point)
    requires Copies(pr, ps) && 0 <= p.id < |pr.vals| && p.values == pr.vals[p.id]
    ensures Copies(pr, ps + [p])
  {
    forall m | 0 <= m < |ps| + 1
      ensures 0 <= (ps + [p])[m].id < |pr.vals| && (ps + [p])[m].values == pr.vals[(ps + [p])[m].id]
    {
      assert (ps + [p])[m] == if m < |ps| then ps[m] else p;
    }
  }

  /** Deleting an element keeps a list of copies. */
  lemma CopiesDelete(pr: Problem, ps: seq<Point>, j: nat)
    requires Copies(pr, ps) && j < |ps|
    ensures Copies(pr, ps[..j] + ps[j + 1..])
  {
    var qs := ps[..j] + ps[j + 1..];
    forall m | 0 <= m < |qs|
      ensures 0 <= qs[m].id < |pr.vals| && qs[m].values == pr.vals[qs[m].id]
    {
      assert qs[m] == ps[if m < j then m else m + 1];
    }
  }

  /** Every cluster's list holds each point assigned to it exactly once and
      nothing else. */
  predicate Listed(pr: Problem, x: Instance) {
    forall c :: 0 <= c < |x.clusters| ==> ListedIn(pr, x.clusters[c].points, Ids(x.points), c)
  }

  /** Fitting, listed objects, as one value: what every iteration keeps. */
  function Sound(pr: Problem): Instance -> bool
  {
    y => Fit(pr, y) && Listed(pr, y)
  }

  /** `getTotalPoints` of a listed cluster is the number of points assigned
      to it. */
  lemma ListedSize(pr: Problem, ps: seq<Point>, a: seq<int>, c: int)
    requires ListedIn(pr, ps, a, c)
    ensures |ps| == CountOf(a, c)
  {
    assert |multiset(PointIds(ps))| == |PointIds(ps)|;
    MembersOfSize(a, c);
  }

  /** The values of point i of `pr`, as one value. */
  function ValueOf(pr: Problem): (f: nat -> Vec)
    requires pr.Valid()
    ensures forall i: nat :: |f(i)| == pr.d
    ensures forall i: nat :: i < |pr.vals| ==> f(i) == pr.vals[i]
  {
    (i: nat) => ValueAt(pr, i)
  }

  /** The values of point i, and zeros past the last point. */
  function ValueAt(pr: Problem, i: nat): (v: Vec)
    requires pr.Valid()
    ensures |v| == pr.d && (i < |pr.vals| ==> v == pr.vals[i])
  {
    if i < |pr.vals| then pr.vals[i] else Zeros(pr.d)
  }

  /** The values of a list, read through the ids, add up to the list total. */
  lemma {:induction false} ListSumByIds(pr: Problem, ps: seq<Point>, ids: seq<nat>)
    requires pr.Valid() && |ids| == |ps|
    requires forall m :: 0 <= m < |ps| ==> ids[m] == ps[m].id && ids[m] < |pr.vals| && ps[m].values == pr.vals[ids[m]]
    ensures ListSum(ps, pr.d) == SumVec(ids, ValueOf(pr), pr.d)
    decreases |ps|
  {
    if |ps| > 0 {
      var n := |ps| - 1;
      ListSumByIds(pr, ps[..n], ids[..n]);
    }
  }

  /** The total of a listed cluster's copies is the member total, whatever
      order the copies are in. */
  lemma ListedSum(pr: Problem, ps: seq<Point>, a: seq<int>, c: int)
    requires pr.Valid() && |a| == |pr.vals| && ListedIn(pr, ps, a, c)
    ensures forall m :: 0 <= m < |ps| ==> |ps[m].values| == pr.d
    ensures ListSum(ps, pr.d) == MemberSum(pr.vals, a, c, pr.d)
  {
    var f := ValueOf(pr);
    var ids: seq<nat> := seq(|ps|, m requires 0 <= m < |ps| => ps[m].id as nat);
    assert ids == PointIds(ps);
    ListSumByIds(pr, ps, ids);
    SumVecPerm(ids, MembersOf(a, c), f, pr.d);
    MembersOfSum(pr.vals, a, c, pr.d, f);
  }

  /** Fitting objects stand for well-shaped rows, and listed ones for rows
      whose counts match. */
  lemma FitRows(pr: Problem, x: Instance)
    requires Fit(pr, x)
    ensures Shaped(pr, Rows(pr, x)) && SumsCleared(Rows(pr, x))
    ensures Listed(pr, x) ==> CountsMatch(Rows(pr, x))
  {
    if Listed(pr, x) {
      forall c | 0 <= c < pr.k
        ensures Rows(pr, x).counts[c] == CountOf(Rows(pr, x).assign, c)
      {
        ListedSize(pr, x.clusters[c].points, Ids(x.points), c);
      }
    }
  }

  // ---------------------------------------------------------------------------
  // The assignment loop

  /** `clusters[id_old_cluster].removePoint(points[i].getID())` for a point
      that was in a cluster. */
  function Leave(pr: Problem, x: Instance, i: nat): (r: Instance)
    requires Fit(pr, x) && i < |x.points|
    ensures Fit(pr, r) && r.points == x.points && Centrals(r.clusters) == Centrals(x.clusters)
  {
    var prev := x.points[i].cluster;
    if prev != Unassigned then
      var cl := x.clusters[prev].RemovePoint(x.points[i].id).0;
      var r := x.(clusters := x.clusters[prev := cl]);
      assert Centrals(r.clusters) == Centrals(x.clusters);
      r
    else x
  }

  /** `points[i].setCluster(k)` and `clusters[k].addPoint(points[i])`: the
      copy added already carries the new cluster id. */
  function Join(pr: Problem, x: Instance, i: nat, k: nat): (r: Instance)
    requires Fit(pr, x) && i < |x.points| && k < pr.k
    ensures Fit(pr, r) && Ids(r.points) == Ids(x.points)[i := k] && Centrals(r.clusters) == Centrals(x.clusters)
  {
    var points := x.points[i := x.points[i].SetCluster(k)];
    SetClusterFits(pr, x.points, i, k);
    var r := Instance(points, x.clusters[k := x.clusters[k].AddPoint(points[i])]);
    assert Centrals(r.clusters) == Centrals(x.clusters);
    r
  }

  /** The loop body for point i with nearest centre `k`: when the point is
      elsewhere it leaves its old cluster (unless unassigned), takes the new
      id and joins the new cluster, and `done` becomes false. */
  function Relocate(pr: Problem, x: Instance, i: nat, k: nat): (r: (Instance, bool))
    requires Fit(pr, x) && i < |x.points| && k < pr.k
    ensures Fit(pr, r.0) && Centrals(r.0.clusters) == Centrals(x.clusters)
    ensures Ids(r.0.points) == Ids(x.points)[i := k]
    ensures r.1 <==> x.points[i].cluster != k
  {
    if x.points[i].cluster != k then (Join(pr, Leave(pr, x, i), i, k), true)
    else
      assert Ids(x.points)[i := k] == Ids(x.points);
      (x, false)
  }

  /** The list of the cluster a point leaves loses the point's copy. */
  lemma RemoveListedIn(pr: Problem, cl: Cluster, a: seq<int>, i: nat, v: int)
    requires i < |a| && a[i] != v && ListedIn(pr, cl.points, a, a[i])
    ensures ListedIn(pr, cl.RemovePoint(i).0.points, a[i := v], a[i])
  {
    RemoveIds(cl, a, i, v);
    RemoveCopies(pr, cl, i);
  }

  /** The ids left after removing point i are the members left. */
  lemma RemoveIds(cl: Cluster, a: seq<int>, i: nat, v: int)
    requires i < |a| && a[i] != v && multiset(PointIds(cl.points)) == multiset(MembersOf(a, a[i]))
    ensures multiset(PointIds(cl.RemovePoint(i).0.points)) == multiset(MembersOf(a[i := v], a[i]))
  {
    RemovePointIds(cl, i);
    MembersOfLeave(a, i, v);
  }

  /** Removing a point keeps a list of copies. */
  lemma RemoveCopies(pr: Problem, cl: Cluster, i: nat)
    requires Copies(pr, cl.points)
    ensures Copies(pr, cl.RemovePoint(i).0.points)
  {
    var j := FirstWithId(cl.points, i);
    var (r, _) := cl.RemovePoint(i);
    if j < |cl.points| {
      assert r.points == cl.points[..j] + cl.points[j + 1..];
      CopiesDelete(pr, cl.points, j);
    } else {
      assert r.points == cl.points;
    }
  }

  /** The list of the cluster a point joins gains one copy of it. */
  lemma AddListedIn(pr: Problem, cl: Cluster, a: seq<int>, i: nat, v: int, p: Point)
    requires i < |a| && a[i] != v && ListedIn(pr, cl.points, a, v)
    requires p.id == i && i < |pr.vals| && p.values == pr.vals[i]
    ensures ListedIn(pr, cl.AddPoint(p).points, a[i := v], v)
  {
    AddPointIds(cl, p);
    MembersOfJoin(a, i, v);
    CopiesAppend(pr, cl.points, p);
  }

  /** Every other list stays right. */
  lemma OtherListedIn(pr: Problem, ps: seq<Point>, a: seq<int>, i: nat, v: int, c: int)
    requires i < |a| && a[i] != c && v != c && ListedIn(pr, ps, a, c)
    ensures ListedIn(pr, ps, a[i := v], c)
  {
    MembersOfOther(a, i, v, c);
  }

  /** After a move, the list of cluster c is right for the new ids. */
  lemma RelocateListedAt(pr: Problem, x: Instance, i: nat, k: nat, c: nat)
    requires Fit(pr, x) && i < |x.points| && k < pr.k && c < pr.k
    requires x.points[i].cluster != k && ListedIn(pr, x.clusters[c].points, Ids(x.points), c)
    ensures ListedIn(pr, Relocate(pr, x, i, k).0.clusters[c].points, Ids(x.points)[i := k], c)
  {
    var a := Ids(x.points);
    var prev := a[i];
    var z := Leave(pr, x, i);
    var points := z.points[i := z.points[i].SetCluster(k)];
    var y := Relocate(pr, x, i, k).0;
    assert y == Instance(points, z.clusters[k := z.clusters[k].AddPoint(points[i])]);
    assert x.points[i].id == i;
    if c == k {
      assert z.clusters[c] == x.clusters[c];
      AddListedIn(pr, x.clusters[c], a, i, k, points[i]);
    } else if c == prev {
      assert z.clusters[c] == x.clusters[c].RemovePoint(i).0;
      RemoveListedIn(pr, x.clusters[c], a, i, k);
    } else {
      assert z.clusters[c] == x.clusters[c];
      OtherListedIn(pr, x.clusters[c].points, a, i, k, c);
    }
  }

  /** The lists after a move: the cluster left loses the point's copy, the
      cluster joined gains one, and both keep holding copies of points of
      `pr`. */
  lemma RelocateListed(pr: Problem, x: Instance, i: nat, k: nat)
    requires Fit(pr, x) && Listed(pr, x) && i < |x.points| && k < pr.k
    ensures Listed(pr, Relocate(pr, x, i, k).0)
  {
    if x.points[i].cluster != k {
      var y := Relocate(pr, x, i, k).0;
      assert Ids(y.points) == Ids(x.points)[i := k];
      forall c: nat | c < pr.k
        ensures ListedIn(pr, Relocate(pr, x, i, k).0.clusters[c].points, Ids(x.points)[i := k], c)
      {
        RelocateListedAt(pr, x, i, k, c);
      }
    }
  }

  /** Relocating moves exactly as the reference move does, reports whether
      the point moved and keeps the lists right. */
  lemma RelocateRows(pr: Problem, x: Instance, i: nat, k: nat)
    requires Fit(pr, x) && Listed(pr, x) && i < |x.points| && k < pr.k
    ensures Shaped(pr, Rows(pr, x))
    ensures Listed(pr, Relocate(pr, x, i, k).0)
    ensures Rows(pr, Relocate(pr, x, i, k).0) == MovePoint(pr, Rows(pr, x), i, k)
    ensures Relocate(pr, x, i, k).1 <==> Rows(pr, x).assign[i] != k
  {
    var y := Relocate(pr, x, i, k).0;
    FitRows(pr, x);
    RelocateListed(pr, x, i, k);
    FitRows(pr, y);
    MovePointMatches(pr, Rows(pr, x), i, k);
    SameRows(Rows(pr, y), MovePoint(pr, Rows(pr, x), i, k));
  }

  /** `getIDNearestCenter` as the loop body uses it: the first nearest
      centroid to point i (`GetIDNearestCenter` below shows that the square
      root does not change which one). */
  function NearestCenter(pr: Problem, x: Instance, i: nat): (k: nat)
    requires Fit(pr, x) && i < |x.points|
    ensures k < pr.k && k == NearestCentroid(pr.vals[i], Centrals(x.clusters))
  {
    NearestCentroid(x.points[i].values, Centrals(x.clusters))
  }

  /** The loop body as a visit of the sweep over the points; objects that
      do not fit the problem are left alone. */
  function Handle(pr: Problem, x: Instance, i: nat): (r: (Instance, bool))
    ensures Fit(pr, x) && i < |x.points| ==> Fit(pr, r.0) && Centrals(r.0.clusters) == Centrals(x.clusters)
  {
    if Fit(pr, x) && i < |x.points| then Relocate(pr, x, i, NearestCenter(pr, x, i)) else (x, false)
  }

  /** The loop body as one value, to drive a sweep. */
  function Handles(pr: Problem): (Instance, nat) -> (Instance, bool)
  {
    (y: Instance, i: nat) => Handle(pr, y, i)
  }

  /** What the assignment loop keeps: the objects fit, the lists are right
      and the centroids are `cents`. */
  function Kept(pr: Problem, cents: seq<Vec>): Instance -> bool
  {
    y => Fit(pr, y) && Listed(pr, y) && Centrals(y.clusters) == cents
  }

  /** Handling point i is the reference move of point i towards its
      nearest centroid, and keeps the objects fitting and listed. */
  lemma HandleMoves(pr: Problem, y: Instance, i: nat)
    requires Fit(pr, y) && Listed(pr, y) && Shaped(pr, Rows(pr, y)) && i < |pr.vals|
    ensures Fit(pr, Handle(pr, y, i).0) && Listed(pr, Handle(pr, y, i).0)
    ensures Centrals(Handle(pr, y, i).0.clusters) == Centrals(y.clusters)
    ensures Rows(pr, Handle(pr, y, i).0) == MovePoint(pr, Rows(pr, y), i, Near(pr, Centrals(y.clusters))[i])
    ensures Handle(pr, y, i).1 == (Ids(y.points)[i] != Near(pr, Centrals(y.clusters))[i])
  {
    RelocateRows(pr, y, i, NearestCenter(pr, y, i));
  }

  /** Handling point i, as a visit of the sweep, agrees with the reference
      visit. */
  lemma HandleAgrees(pr: Problem, cents: seq<Vec>, y: Instance, i: nat)
    requires pr.Valid() && |cents| == pr.k && Dims(cents, pr.d)
    requires Kept(pr, cents)(y) && i < |pr.vals|
    ensures VisitAgrees(Handles(pr), MoveVisits(pr, Near(pr, cents)), Abs(pr), Kept(pr, cents), y, i)
  {
    FitRows(pr, y);
    HandleMoves(pr, y, i);
    MoveVisitIs(pr, Near(pr, cents), Rows(pr, y), i);
  }

  /** On kept objects every round of the loop is the reference move. */
  lemma HandlesAgree(pr: Problem, cents: seq<Vec>, n: nat)
    requires pr.Valid() && |cents| == pr.k && Dims(cents, pr.d) && n <= |pr.vals|
    ensures VisitsAgree(Handles(pr), MoveVisits(pr, Near(pr, cents)), Abs(pr), Kept(pr, cents), n)
  {
    forall y, i: nat | Kept(pr, cents)(y) && i < n
      ensures VisitAgrees(Handles(pr), MoveVisits(pr, Near(pr, cents)), Abs(pr), Kept(pr, cents), y, i)
    {
      HandleAgrees(pr, cents, y, i);
    }
  }

  /** The assignment loop over all the points; the flag is `done = false`. */
  function Pass(pr: Problem, x: Instance): (r: (Instance, bool))
  {
    Sweep(x, Handles(pr), |x.points|)
  }

  /** The assignment loop sweeps the reference moves over the rows. */
  lemma PassSweeps(pr: Problem, x: Instance)
    requires Fit(pr, x) && Listed(pr, x)
    ensures Kept(pr, Centrals(x.clusters))(Pass(pr, x).0)
    ensures Rows(pr, Pass(pr, x).0) == Sweep(Rows(pr, x), MoveVisits(pr, Near(pr, Centrals(x.clusters))), |x.points|).0
    ensures Pass(pr, x).1 == Sweep(Rows(pr, x), MoveVisits(pr, Near(pr, Centrals(x.clusters))), |x.points|).1
  {
    var cents := Centrals(x.clusters);
    HandlesAgree(pr, cents, |x.points|);
    SweepSimulation(x, Handles(pr), Rows(pr, x), MoveVisits(pr, Near(pr, cents)), Abs(pr), Kept(pr, cents), |x.points|);
  }

  /** The assignment loop is the reference counter pass without its sums:
      the objects it leaves stand for the rows the reference pass computes,
      with the sums still zero, the flag is the reference flag, the lists
      stay right and the centroids are untouched. */
  lemma PassRows(pr: Problem, x: Instance)
    requires Fit(pr, x) && Listed(pr, x)
    ensures Fit(pr, Pass(pr, x).0) && Listed(pr, Pass(pr, x).0)
    ensures Centrals(Pass(pr, x).0.clusters) == Centrals(x.clusters)
    ensures Shaped(pr, Rows(pr, x))
    ensures Rows(pr, Pass(pr, x).0) == CounterPass(pr, Rows(pr, x)).0.(sums := Rows(pr, x).sums)
    ensures Pass(pr, x).1 == CounterPass(pr, Rows(pr, x)).1
  {
    FitRows(pr, x);
    PassSweeps(pr, x);
    MoveSweepIsPass(pr, Near(pr, Centrals(x.clusters)), Rows(pr, x), |x.points|);
  }

  // ---------------------------------------------------------------------------
  // The recalculation loop

  /** The clusters, each recalculated over D attributes. */
  function RecentredClusters(clusters: seq<Cluster>, d: nat): (r: seq<Cluster>)
    requires forall c :: 0 <= c < |clusters| ==> |clusters[c].central| == d
    requires forall c, m :: 0 <= c < |clusters| && 0 <= m < |clusters[c].points| ==> |clusters[c].points[m].values| == d
    ensures |r| == |clusters| && forall c :: 0 <= c < |clusters| ==> r[c] == clusters[c].Recentre(d)
  {
    if |clusters| == 0 then []
    else RecentredClusters(clusters[..|clusters| - 1], d) + [clusters[|clusters| - 1].Recentre(d)]
  }

  /** The copies in the lists of listed objects have D values. */
  lemma ListedValues(pr: Problem, x: Instance)
    requires Fit(pr, x) && Listed(pr, x)
    ensures forall c, m :: 0 <= c < |x.clusters| && 0 <= m < |x.clusters[c].points| ==> |x.clusters[c].points[m].values| == pr.d
  {
  }

  /** The loop recalculating the centre of each of the K clusters. */
  function Recalculate(pr: Problem, x: Instance): (r: Instance)
    requires Fit(pr, x) && Listed(pr, x)
    ensures Fit(pr, r) && r.points == x.points
  {
    ListedValues(pr, x);
    x.(clusters := RecentredClusters(x.clusters, pr.d))
  }

  /** Rows `t` whose sums are the member totals and whose ids, centroids and
      counts are those of the objects: what the recalculation starts from. */
  function Totalled(pr: Problem, t: State): Instance -> bool
  {
    y => && Fit(pr, y) && Listed(pr, y) && Shaped(pr, t) && SumsMatch(pr, t)
         && t.assign == Ids(y.points) && t.cents == Centrals(y.clusters) && t.counts == Sizes(y.clusters)
  }

  /** Recalculating cluster c gives the reference centroid of c: the mean
      of its list, which is the mean of the points assigned to it, when it
      has members, and its old centroid otherwise. */
  lemma RecentreAt(pr: Problem, x: Instance, t: State, c: nat)
    requires Totalled(pr, t)(x) && c < pr.k
    ensures Recalculate(pr, x).clusters[c].central == Update(pr, t).cents[c]
  {
    var cl := x.clusters[c];
    ListedSum(pr, cl.points, t.assign, c);
    assert Recalculate(pr, x).clusters[c] == cl.Recentre(pr.d);
  }

  /** Recalculating gives the reference centroids. */
  lemma RecalculateCentrals(pr: Problem, x: Instance, t: State)
    requires Totalled(pr, t)(x)
    ensures Centrals(Recalculate(pr, x).clusters) == Update(pr, t).cents
  {
    forall c: nat | c < pr.k
      ensures Recalculate(pr, x).clusters[c].central == Update(pr, t).cents[c]
    {
      RecentreAt(pr, x, t, c);
    }
  }

  /** Recalculating leaves the lists alone. */
  lemma RecalculateListed(pr: Problem, x: Instance)
    requires Fit(pr, x) && Listed(pr, x)
    ensures Listed(pr, Recalculate(pr, x)) && Sizes(Recalculate(pr, x).clusters) == Sizes(x.clusters)
  {
    var y := Recalculate(pr, x);
    assert forall c :: 0 <= c < pr.k ==> y.clusters[c].points == x.clusters[c].points;
  }

  /** Recalculating is the reference update from rows whose sums are the
      member totals, with the sums then cleared; the lists are not touched. */
  lemma RecalculateRows(pr: Problem, x: Instance, t: State)
    requires Fit(pr, x) && Listed(pr, x)
    requires Shaped(pr, t) && SumsMatch(pr, t)
    requires t.assign == Ids(x.points) && t.cents == Centrals(x.clusters) && t.counts == Sizes(x.clusters)
    ensures Listed(pr, Recalculate(pr, x))
    ensures Rows(pr, Recalculate(pr, x)) == ClearSums(pr, Update(pr, t))
  {
    RecalculateListed(pr, x);
    assert Totalled(pr, t)(x);
    RecalculateCentrals(pr, x, t);
  }

  /** One pass of the loop body: assign every point, then recalculate the
      centres; the flag is `!done`. Objects that are not sound are left
      alone. */
  function Iterate(pr: Problem, x: Instance): (r: (Instance, bool))
    ensures Sound(pr)(x) ==> Fit(pr, r.0)
  {
    if Fit(pr, x) && Listed(pr, x) then
      PassRows(pr, x);
      var (y, moved) := Pass(pr, x);
      (Recalculate(pr, y), moved)
    else (x, false)
  }

  /** The iteration, as one value. */
  function Iterates(pr: Problem): Instance -> (Instance, bool)
  {
    y => Iterate(pr, y)
  }

  /** On sound objects an iteration is the reference iteration on the rows,
      with the same flag, and keeps the objects sound. */
  lemma IterateRows(pr: Problem, x: Instance)
    requires Fit(pr, x) && Listed(pr, x)
    ensures Sound(pr)(Iterate(pr, x).0)
    ensures Shaped(pr, Rows(pr, x))
    ensures Rows(pr, Iterate(pr, x).0) == Iteration.Step(pr, Rows(pr, x)).0
    ensures Iterate(pr, x).1 == Iteration.Step(pr, Rows(pr, x)).1
  {
    var s := Rows(pr, x);
    FitRows(pr, x);
    PassRows(pr, x);
    var y := Pass(pr, x).0;
    var t := CounterPass(pr, s).0;
    forall c | 0 <= c < pr.k
      ensures t.sums[c] == MemberSum(pr.vals, t.assign, c, pr.d)
    {
      CounterPassSum(pr, s, c);
    }
    RecalculateRows(pr, y, t);
  }

  /** On sound objects an iteration agrees with the reference iteration. */
  lemma IterateAgreesAt(pr: Problem, y: Instance)
    requires Sound(pr)(y)
    ensures StepAgrees(Iterates(pr), Iteration.Steps(pr), Abs(pr), Sound(pr), y)
  {
    IterateRows(pr, y);
  }

  lemma IteratesAgree(pr: Problem)
    ensures StepsAgree(Iterates(pr), Iteration.Steps(pr), Abs(pr), Sound(pr))
  {
    forall y | Sound(pr)(y)
      ensures StepAgrees(Iterates(pr), Iteration.Steps(pr), Abs(pr), Sound(pr), y)
    {
      IterateAgreesAt(pr, y);
    }
  }

  // ---------------------------------------------------------------------------
  // The nearest centre with the square root

  /** A stand-in for `sqrt` on squared distances: strictly increasing on the
      non-negative reals. */
  ghost predicate Increasing(root: real -> real) {
    forall u, v :: 0.0 <= u < v ==> root(u) < root(v)
  }

  /** `getIDNearestCenter`: for each centroid the sum of `pow(difference, 2)`
      over the attributes, then its square root, and a strict-improvement
      scan from centroid 0. Comparing roots of squared distances picks the
      same centroid as comparing the squared distances. */
  method GetIDNearestCenter(root: real -> real, p: Point, clusters: seq<Cluster>) returns (k: nat)
    requires Increasing(root) && Fits(p.values, Centrals(clusters))
    ensures k < |clusters| && IsFirstNearest(p.values, Centrals(clusters), k)
    ensures k == NearestCentroid(p.values, Centrals(clusters))
  {
    var cents := Centrals(clusters);
    var sum := SquaredDistance(clusters[0].central, p.values);
    var minDist := root(sum);
    k := 0;
    var i := 1;
    while i < |clusters|
      invariant 1 <= i <= |clusters|
      invariant k == NearestAmong(p.values, cents, i)
      invariant minDist == root(SqDist(cents[k], p.values))
    {
      sum := SquaredDistance(clusters[i].central, p.values);
      var dist := root(sum);
      assert dist < minDist <==> sum < SqDist(cents[k], p.values);
      NearestAmongStep(p.values, cents, i, k, sum);
      if dist < minDist {
        minDist := dist;
        k := i;
      }
      i := i + 1;
    }
  }

  // ---------------------------------------------------------------------------
  // The run

  /** The predefined `initial_centroids` table: 7 rows of 16 values. */
  const InitialCentroids: seq<Vec> := [
    [38609.2, 728.876, 264.767, 186.818, 1.42818, 0.689093, 39038.0, 221.602, 0.758159, 0.989029, 0.914007, 0.840847, 0.00686726, 0.00213791, 0.710003, 0.996999],
    [174059.0, 1588.67, 594.556, 374.795, 1.58763, 0.771401, 176399.0, 469.773, 0.776568, 0.986869, 0.864111, 0.792037, 0.00343789, 0.000840289, 0.628237, 0.991797],
    [47345.5, 829.504, 315.348, 193.204, 1.65068, 0.771733, 47935.3, 245.42, 0.740671, 0.987739, 0.867341, 0.784174, 0.00665986, 0.00157933, 0.619003, 0.995124],
    [71557.0, 1046.36, 392.086, 234.568, 1.67982, 0.795097, 72716.1, 301.742, 0.751715, 0.984066, 0.822499, 0.771608, 0.00548663, 0.00120628, 0.596954, 0.992484],
    [85686.0, 1141.11, 429.742, 255.997, 1.68471, 0.798436, 87043.1, 330.051, 0.755788, 0.984409, 0.827205, 0.769505, 0.00503001, 0.00109253, 0.593336, 0.99205],
    [58464.4, 953.494, 371.873, 202.469, 1.85603, 0.829191, 59350.5, 272.711, 0.723485, 0.985113, 0.809081, 0.736804, 0.00637706, 0.00117043, 0.545769, 0.992736],
    [29664.5, 639.033, 234.918, 161.141, 1.46392, 0.7195, 30023.8, 194.083, 0.755489, 0.987979, 0.911338, 0.82758, 0.00796609, 0.00231207, 0.686245, 0.996982]
  ]

  /** The table, with its shape: 7 rows of 16 values. */
  function Table(): (t: seq<Vec>)
    ensures |t| == 7 && forall c :: 0 <= c < 7 ==> |t[c]| == 16
  {
    InitialCentroids
  }

  /** The K clusters built from the first K rows of the table. */
  function TableClusters(k: nat, d: nat): (r: seq<Cluster>)
    requires k <= |Table()| && d <= 16
    ensures |r| == k && forall c :: 0 <= c < k ==> r[c] == NewCluster(c, Table()[c], d)
  {
    seq(k, c requires 0 <= c < k => NewCluster(c, Table()[c], d))
  }

  /** The objects before the loop stand for the predefined state: no point
      is assigned, no list has members, and centroid c is row c of the
      table. */
  lemma StartRows(pr: Problem, points: seq<Point>)
    requires pr.Valid() && PointsHold(pr, points) && AllUnassigned(points)
    requires pr.k <= 7 && pr.d <= 16
    ensures Sound(pr)(Instance(points, TableClusters(pr.k, pr.d)))
    ensures Rows(pr, Instance(points, TableClusters(pr.k, pr.d))) == Predefined(pr, Table())
  {
    StartSound(pr, points);
    StartObserved(pr, points);
  }

  /** The objects built from the table are sound: every list is empty and
      so is every cluster. */
  lemma StartSound(pr: Problem, points: seq<Point>)
    requires pr.Valid() && PointsHold(pr, points) && AllUnassigned(points)
    requires pr.k <= 7 && pr.d <= 16
    ensures Sound(pr)(Instance(points, TableClusters(pr.k, pr.d)))
  {
    var x := Instance(points, TableClusters(pr.k, pr.d));
    forall c | 0 <= c < pr.k
      ensures ListedIn(pr, x.clusters[c].points, Ids(points), c)
    {
      MembersOfSize(Ids(points), c);
      CountOfNone(Ids(points), c);
    }
  }

  /** The objects built from the table stand for the predefined state. */
  lemma StartObserved(pr: Problem, points: seq<Point>)
    requires pr.Valid() && PointsHold(pr, points) && AllUnassigned(points)
    requires pr.k <= 7 && pr.d <= 16
    ensures Rows(pr, Instance(points, TableClusters(pr.k, pr.d))) == Predefined(pr, Table())
  {
    var x := Instance(points, TableClusters(pr.k, pr.d));
    var s, t := Rows(pr, x), Predefined(pr, Table());
    assert s.assign == t.assign;
    assert s.cents == t.cents;
    assert s.counts == t.counts;
  }

  /** `KMeans::run` on freshly read, unassigned points: nothing happens when
      K exceeds the number of points; otherwise the clusters are built from
      the table and the `while (true)` loop runs from `iter = 1`. The table
      has 7 rows of 16 values, so the program reads past it unless K <= 7 and
      D <= 16. */
  function RunKMeans(pr: Problem, points: seq<Point>, maxIterations: int): (r: Report<Instance>)
    requires pr.Valid() && PointsHold(pr, points) && AllUnassigned(points)
    requires pr.k <= |points| ==> pr.k <= 7 && pr.d <= 16
    ensures !r.OutOfDraws? && (r.TooFewPoints? <==> pr.k > |points|)
    ensures r.Finished? ==>
              && 1 <= r.outcome.passes <= (if maxIterations > 1 then maxIterations else 1)
              && (r.outcome.converged || r.outcome.passes >= maxIterations)
  {
    if pr.k > |points| then TooFewPoints
    else
        Finished(WhileLoop(Instance(points, TableClusters(pr.k, pr.d)), Iterates(pr), maxIterations, 1))
  }

  /** The while loop over sound objects is the reference for-loop over the
      rows with a budget of at least one pass; the pass count reported is the
      `iter` printed at the break. */
  lemma LoopRows(pr: Problem, x: Instance, maxIterations: int)
    requires Sound(pr)(x)
    ensures Sound(pr)(WhileLoop(x, Iterates(pr), maxIterations, 1).state)
    ensures Corresponds(WhileLoop(x, Iterates(pr), maxIterations, 1),
                        Iteration.Run(pr, Rows(pr, x), if maxIterations > 1 then maxIterations else 1), Abs(pr))
  {
    IteratesAgree(pr);
    WhileLoopSimulation(x, Iterates(pr), Rows(pr, x), Iteration.Steps(pr), Abs(pr), Sound(pr), maxIterations, 1);
    Iteration.WhileRun(pr, Rows(pr, x), maxIterations);
  }

  /** A run is the predefined-table run of the reference with the budget of
      `max(max_iterations, 1)` passes, seen through the rows, and it ends
      with sound objects. */
  lemma RunKMeansSpec(pr: Problem, points: seq<Point>, maxIterations: int)
    requires pr.Valid() && PointsHold(pr, points) && AllUnassigned(points)
    requires pr.k <= |points| ==> pr.k <= 7 && pr.d <= 16
    ensures
      MapReport(RunKMeans(pr, points, maxIterations), Abs(pr))
      == PredefinedRun(pr, Table(), if maxIterations > 1 then maxIterations else 1)
    ensures var r := RunKMeans(pr, points, maxIterations);
      r.Finished? ==> Sound(pr)(r.outcome.state)
  {
    if pr.k <= |points| {
      StartRows(pr, points);
      LoopRows(pr, Instance(points, TableClusters(pr.k, pr.d)), maxIterations);
    }
  }
}

/** The program's `Point` objects seen as cluster rows: every program keeps the
    points in a vector whose index is the point id, and each point carries its
    current cluster id. */
module Objects {
  import opened Vectors
  import opened Points
  import opened Lloyd

  /** Point i has id i and the values of row i. */
  predicate PointsHold(pr: Problem, points: seq<Point>) {
    && |points| == |pr.vals|
    && (forall i :: 0 <= i < |points| ==> points[i].id == i && points[i].values == pr.vals[i])
  }

  /** Every point is still unassigned, as `main` builds them. */
  predicate AllUnassigned(points: seq<Point>) {
    forall i :: 0 <= i < |points| ==> points[i].cluster == Unassigned
  }

  /** The cluster id of every point. */
  function Ids(points: seq<Point>): (r: seq<int>)
    ensures |r| == |points| && forall i :: 0 <= i < |points| ==> r[i] == points[i].cluster
  {
    if |points| == 0 then [] else Ids(points[..|points| - 1]) + [points[|points| - 1].cluster]
  }

  /** Moving one point changes one cluster id and nothing else. */
  lemma IdsSetCluster(points: seq<Point>, i: nat, c: int)
    requires i < |points|
    ensures Ids(points[i := points[i].SetCluster(c)]) == Ids(points)[i := c]
  {
  }

  /** Moving one point keeps the points those of problem `pr`. */
  lemma SetClusterHolds(pr: Problem, points: seq<Point>, i: nat, c: int)
    requires PointsHold(pr, points) && i < |points|
    ensures PointsHold(pr, points[i := points[i].SetCluster(c)])
  {
    var q := points[i := points[i].SetCluster(c)];
    forall j | 0 <= j < |q|
      ensures q[j].id == j && q[j].values == pr.vals[j]
    {
    }
  }

  /** The points are those of problem `pr` and each is unassigned or in one
      of the K clusters. */
  predicate PointsFit(pr: Problem, points: seq<Point>) {
    PointsHold(pr, points) && ValidAssign(Ids(points), pr.k)
  }

  /** Giving a point a valid cluster id keeps the points fitting. */
  lemma SetClusterFits(pr: Problem, points: seq<Point>, i: nat, k: nat)
    requires PointsFit(pr, points) && i < |points| && k < pr.k
    ensures PointsFit(pr, points[i := points[i].SetCluster(k)])
    ensures Ids(points[i := points[i].SetCluster(k)]) == Ids(points)[i := k]
  {
    IdsSetCluster(points, i, k);
  }
}

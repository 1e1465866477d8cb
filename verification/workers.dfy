/** What the two TBB programs (parallel-simple and parallel-fast) share in
    their assignment loop: every point takes its nearest cluster, and each
    worker thread records the size changes of the points it moved in a
    thread-local vector of K counts. */
module Workers {
  import opened Points
  import opened Lloyd
  import opened Objects
  import opened Membership
  import opened Sums

  /** The thread-local count changes after point i: when the point moves,
      the cluster it leaves loses one (none when it was unassigned) and the
      cluster it joins gains one (`local_diffs` in both programs). */
  function Bump(diffs: seq<int>, prev: seq<int>, near: seq<nat>, i: nat): (r: seq<int>)
    requires |prev| == |near| && ValidAssign(prev, |diffs|)
    requires forall j :: 0 <= j < |near| ==> near[j] < |diffs|
    ensures |r| == |diffs|
    ensures forall c :: 0 <= c < |diffs| ==> r[c] == diffs[c] + Delta(prev, near, c, i)
  {
    if i < |prev| && prev[i] != near[i] then
      var left := if prev[i] != Unassigned then diffs[prev[i] := diffs[prev[i]] - 1] else diffs;
      left[near[i] := left[near[i]] + 1]
    else diffs
  }

  /** The thread-local vector of a worker that handled `chunk`, starting from
      K zeros: entry c is the total size change of cluster c over the chunk. */
  function WorkerDiffs(prev: seq<int>, near: seq<nat>, chunk: seq<nat>, k: nat): (diffs: seq<int>)
    requires |prev| == |near| && ValidAssign(prev, k)
    requires forall j :: 0 <= j < |near| ==> near[j] < k
    ensures |diffs| == k
    ensures forall c :: 0 <= c < k ==> diffs[c] == SumInt(chunk, Deltas(prev, near, c))
    decreases |chunk|
  {
    if |chunk| == 0 then seq(k, _ => 0)
    else
      var n := |chunk| - 1;
      Bump(WorkerDiffs(prev, near, chunk[..n], k), prev, near, chunk[n])
  }

  /** `points[i].setCluster(id_nearest_center)` for every point that moves;
      each worker writes only its own points, so the order does not matter. */
  function Relabel(points: seq<Point>, near: seq<nat>): (r: seq<Point>)
    requires |near| == |points|
    ensures |r| == |points| && forall i :: 0 <= i < |points| ==> r[i] == points[i].SetCluster(near[i])
  {
    if |points| == 0 then []
    else
      var n := |points| - 1;
      var p := points[n];
      Relabel(points[..n], near[..n]) + [if p.cluster != near[n] then p.SetCluster(near[n]) else p]
  }

  /** After relabelling every point carries its nearest cluster id and is
      otherwise the same point. */
  lemma RelabelFits(pr: Problem, points: seq<Point>, near: seq<nat>)
    requires PointsHold(pr, points) && NearOk(pr, near)
    ensures PointsFit(pr, Relabel(points, near)) && Ids(Relabel(points, near)) == near
  {
    var r := Relabel(points, near);
    assert Ids(r) == near;
  }
}

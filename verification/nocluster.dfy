/** `src/kmeans-serial-fast-no-cluster.cpp`: the serial program on the flat
    buffers of `Buffers`. Every iteration clears the sums buffer, assigns the
    points one after the other (moving the counts and adding each point's
    values to the sums row of its nearest centroid) and recalculates every
    non-empty centroid as sums / count; the sums of the pass stay in place
    until the next iteration clears them. */
module NoCluster {
  import opened Vectors
  import opened Points
  import opened Nearest
  import opened Lloyd
  import opened Objects
  import opened Seeding
  import opened Loops
  import opened Runs
  import opened Buffers
  import Flat
  import Iteration

  // ---------------------------------------------------------------------------
  // The assignment loop

  /** `fill(attribute_sums.begin(), attribute_sums.end(), 0.0)` at the start
      of an iteration. */
  function ClearAll(pr: Problem, x: Instance): (r: Instance)
    requires Fit(pr, x)
    ensures Fit(pr, r) && SumsClear(r)
    ensures r.points == x.points && r.centralValues == x.centralValues && r.clusterCounts == x.clusterCounts
  {
    x.(attributeSums := seq(|x.attributeSums|, _ => 0.0))
  }

  /** Clearing the sums buffer is the reference clear. */
  lemma ClearAllRows(pr: Problem, x: Instance)
    requires Fit(pr, x)
    ensures Shaped(pr, Rows(pr, x))
    ensures Rows(pr, ClearAll(pr, x)) == ClearSums(pr, Rows(pr, x))
  {
    FitRows(pr, x);
    var y := ClearAll(pr, x);
    Flat.RowsOfZeros(y.attributeSums, pr.k, pr.d);
  }

  /** The first half of the loop body for point i with nearest centre `k`:
      when the point is elsewhere the count of its old cluster drops (unless
      it was unassigned), it takes the new id and the new count rises; the
      flag is `done = false`. */
  function Relocate(pr: Problem, x: Instance, i: nat, k: nat): (r: (Instance, bool))
    requires Fit(pr, x) && i < |x.points| && k < pr.k
    ensures Fit(pr, r.0)
    ensures r.0.centralValues == x.centralValues && r.0.attributeSums == x.attributeSums
  {
    var prev := x.points[i].cluster;
    if prev != k then
      assert Ids(x.points)[i] == prev;
      var counts := if prev != Unassigned then x.clusterCounts[prev := x.clusterCounts[prev] - 1] else x.clusterCounts;
      SetClusterFits(pr, x.points, i, k);
      (x.(points := x.points[i := x.points[i].SetCluster(k)], clusterCounts := counts[k := counts[k] + 1]), true)
    else (x, false)
  }

  /** Relocating is the reference move of point i, flagged exactly when the
      point was elsewhere. */
  lemma RelocateRows(pr: Problem, x: Instance, i: nat, k: nat)
    requires Fit(pr, x) && i < |x.points| && k < pr.k
    ensures Shaped(pr, Rows(pr, x))
    ensures Rows(pr, Relocate(pr, x, i, k).0) == MovePoint(pr, Rows(pr, x), i, k)
    ensures Relocate(pr, x, i, k).1 <==> Rows(pr, x).assign[i] != k
  {
    FitRows(pr, x);
    if x.points[i].cluster != k {
      RelocateMoved(pr, x, i, k);
    }
  }

  /** RelocateRows for a point that was elsewhere. */
  lemma RelocateMoved(pr: Problem, x: Instance, i: nat, k: nat)
    requires Fit(pr, x) && i < |x.points| && k < pr.k && x.points[i].cluster != k
    ensures Shaped(pr, Rows(pr, x))
    ensures Rows(pr, Relocate(pr, x, i, k).0) == MovePoint(pr, Rows(pr, x), i, k)
  {
    FitRows(pr, x);
    IdsSetCluster(x.points, i, k);
  }

  /** The second half of the loop body: the values of point i are added to
      the sums row of cluster `k`, value by value. */
  function Accumulate(pr: Problem, x: Instance, i: nat, k: nat): (r: Instance)
    requires Fit(pr, x) && i < |x.points| && k < pr.k
    ensures Fit(pr, r)
    ensures r.points == x.points && r.centralValues == x.centralValues && r.clusterCounts == x.clusterCounts
  {
    Flat.OffsetMono(k, pr.k, pr.d);
    x.(attributeSums := Flat.SetRow(x.attributeSums, k, pr.d, Add(Flat.Row(x.attributeSums, k, pr.d), x.points[i].values)))
  }

  /** Accumulating is the reference addition of point i to sums row k. */
  lemma AccumulateRows(pr: Problem, x: Instance, i: nat, k: nat)
    requires Fit(pr, x) && i < |x.points| && k < pr.k
    ensures Shaped(pr, Rows(pr, x))
    ensures Rows(pr, Accumulate(pr, x, i, k)) == AddToSums(pr, Rows(pr, x), i, k)
  {
    FitRows(pr, x);
    Flat.OffsetMono(k, pr.k, pr.d);
    Flat.RowsSetRow(x.attributeSums, pr.k, pr.d, k, Add(Flat.Row(x.attributeSums, k, pr.d), x.points[i].values));
  }

  /** The loop body for point i: its nearest centre from the centroid
      buffer, the move, then the sums. */
  function AssignOne(pr: Problem, x: Instance, i: nat): (r: (Instance, bool))
    requires Fit(pr, x) && i < |x.points|
    ensures Fit(pr, r.0) && r.0.centralValues == x.centralValues
  {
    var k := NearestCentroid(x.points[i].values, CentRows(pr, x));
    var (y, moved) := Relocate(pr, x, i, k);
    (Accumulate(pr, y, i, k), moved)
  }

  /** Handling point i is the reference step for a point whose nearest
      cluster is `near[i]`. */
  lemma AssignOneRows(pr: Problem, near: seq<nat>, x: Instance, i: nat)
    requires Fit(pr, x) && i < |x.points| && near == Near(pr, CentRows(pr, x))
    ensures Shaped(pr, Rows(pr, x)) && NearOk(pr, near)
    ensures Rows(pr, AssignOne(pr, x, i).0) == AssignPoint(pr, near, Rows(pr, x), i)
    ensures AssignOne(pr, x, i).1 <==> Rows(pr, x).assign[i] != near[i]
  {
    FitRows(pr, x);
    var k := near[i];
    RelocateRows(pr, x, i, k);
    AccumulateRows(pr, Relocate(pr, x, i, k).0, i, k);
  }

  /** The rows of the objects, as one value. */
  function Observed(pr: Problem): Instance -> State
  {
    (y: Instance) => Rows(pr, y)
  }

  /** The loop body as a visit of the sweep over the points; objects that
      do not fit the problem are left alone. */
  function Handle(pr: Problem, x: Instance, i: nat): (r: (Instance, bool))
    ensures Fit(pr, x) && i < |x.points| ==> Fit(pr, r.0) && r.0.centralValues == x.centralValues
  {
    if Fit(pr, x) && i < |x.points| then AssignOne(pr, x, i) else (x, false)
  }

  /** Handling point i is the reference visit of point i, with the
      centroid buffer untouched. */
  lemma HandleRows(pr: Problem, near: seq<nat>, x: Instance, i: nat)
    requires Fit(pr, x) && i < |x.points| && near == Near(pr, CentRows(pr, x))
    ensures Fit(pr, Handle(pr, x, i).0) && CentRows(pr, Handle(pr, x, i).0) == CentRows(pr, x)
    ensures Shaped(pr, Rows(pr, x))
    ensures Rows(pr, Handle(pr, x, i).0) == Lloyd.Visit(pr, near, Rows(pr, x), i).0
    ensures Handle(pr, x, i).1 == Lloyd.Visit(pr, near, Rows(pr, x), i).1
  {
    AssignOneRows(pr, near, x, i);
  }

  /** The loop body as one value, to drive a sweep. */
  function Handles(pr: Problem): (Instance, nat) -> (Instance, bool)
  {
    (y: Instance, i: nat) => Handle(pr, y, i)
  }

  /** What the assignment loop keeps: the objects fit and the centroids
      are `cents`. */
  function Kept(pr: Problem, cents: seq<Vec>): Instance -> bool
  {
    (y: Instance) => Fit(pr, y) && CentRows(pr, y) == cents
  }

  /** On kept objects the loop body is the reference visit. */
  lemma HandlesAgree(pr: Problem, cents: seq<Vec>, n: nat)
    requires pr.Valid() && |cents| == pr.k && Dims(cents, pr.d) && n <= |pr.vals|
    ensures VisitsAgree(Handles(pr), Visits(pr, Near(pr, cents)), Observed(pr), Kept(pr, cents), n)
  {
    var near := Near(pr, cents);
    forall y, i: nat | Kept(pr, cents)(y) && i < n
      ensures VisitAgrees(Handles(pr), Visits(pr, near), Observed(pr), Kept(pr, cents), y, i)
    {
      HandleRows(pr, near, y, i);
    }
  }

  /** The assignment loop over all the points; the flag is `done = false`. */
  function Pass(pr: Problem, x: Instance): (r: (Instance, bool))
  {
    Sweep(x, Handles(pr), |x.points|)
  }

  /** The assignment loop is the reference counter pass: the objects it
      leaves stand for the rows the reference pass computes, with the same
      flag, and the centroid buffer is untouched. */
  lemma PassRows(pr: Problem, x: Instance)
    requires Fit(pr, x)
    ensures Fit(pr, Pass(pr, x).0) && CentRows(pr, Pass(pr, x).0) == CentRows(pr, x)
    ensures Shaped(pr, Rows(pr, x))
    ensures Rows(pr, Pass(pr, x).0) == CounterPass(pr, Rows(pr, x)).0
    ensures Pass(pr, x).1 == CounterPass(pr, Rows(pr, x)).1
  {
    FitRows(pr, x);
    var near := Near(pr, CentRows(pr, x));
    HandlesAgree(pr, CentRows(pr, x), |x.points|);
    SweepSimulation(x, Handles(pr), Rows(pr, x), Visits(pr, near), Observed(pr), Kept(pr, CentRows(pr, x)), |x.points|);
    PassUpToIsSweep(pr, near, Rows(pr, x), |x.points|);
  }

  // ---------------------------------------------------------------------------
  // The update loop

  /** The body of the recalculation loop for cluster c: with a positive
      count its centroid row becomes its sums divided by the count. No other
      row and nothing else changes. */
  function RecalcOne(pr: Problem, y: Instance, c: nat): (r: Instance)
    requires Fit(pr, y) && c < pr.k
    ensures Fit(pr, r)
    ensures r.points == y.points && r.attributeSums == y.attributeSums && r.clusterCounts == y.clusterCounts
    ensures CentRows(pr, r)
         == if y.clusterCounts[c] > 0 then CentRows(pr, y)[c := Div(SumRows(pr, y)[c], y.clusterCounts[c])] else CentRows(pr, y)
  {
    if y.clusterCounts[c] > 0 then
      Flat.OffsetMono(c, pr.k, pr.d);
      var mean := Div(Flat.Row(y.attributeSums, c, pr.d), y.clusterCounts[c]);
      Flat.RowsSetRow(y.centralValues, pr.k, pr.d, c, mean);
      y.(centralValues := Flat.SetRow(y.centralValues, c, pr.d, mean))
    else y
  }

  /** The recalculation loop over clusters [0,n). */
  function RecalcUpTo(pr: Problem, x: Instance, n: nat): (r: Instance)
    requires Fit(pr, x) && n <= pr.k
    ensures Fit(pr, r)
    ensures r.points == x.points && r.attributeSums == x.attributeSums && r.clusterCounts == x.clusterCounts
    decreases n
  {
    if n == 0 then x else RecalcOne(pr, RecalcUpTo(pr, x, n - 1), n - 1)
  }

  /** Handling cluster n-1 after clusters [0,n-1). */
  lemma RecalcStep(pr: Problem, x: Instance, n: nat)
    requires Fit(pr, x) && 0 < n <= pr.k
    ensures RecalcUpTo(pr, x, n) == RecalcOne(pr, RecalcUpTo(pr, x, n - 1), n - 1)
  {
  }

  /** Before any cluster is handled nothing has changed. */
  lemma RecalcNone(pr: Problem, x: Instance, n: nat)
    requires Fit(pr, x) && n == 0
    ensures RecalcUpTo(pr, x, n) == x
  {
  }

  /** Handling cluster n-1 with a positive count puts its centroid at its
      sums row divided by the count. */
  lemma RecalcMoved(pr: Problem, x: Instance, n: nat)
    requires Fit(pr, x) && 0 < n <= pr.k && x.clusterCounts[n - 1] > 0
    ensures CentRows(pr, RecalcUpTo(pr, x, n))[n - 1] == Div(SumRows(pr, x)[n - 1], x.clusterCounts[n - 1])
  {
    RecalcStep(pr, x, n);
  }

  /** Handling cluster n-1 keeps every other centroid, and its own when its
      count is not positive. */
  lemma RecalcKept(pr: Problem, x: Instance, n: nat, c: nat)
    requires Fit(pr, x) && 0 < n <= pr.k && c < pr.k
    requires c != n - 1 || x.clusterCounts[n - 1] <= 0
    ensures CentRows(pr, RecalcUpTo(pr, x, n))[c] == CentRows(pr, RecalcUpTo(pr, x, n - 1))[c]
  {
    RecalcStep(pr, x, n);
  }

  /** After clusters [0,n) are handled, each of them with a positive count
      sits at its sums divided by the count; the others keep their centroid. */
  lemma RecalcCentRow(pr: Problem, x: Instance, n: nat, c: nat)
    requires Fit(pr, x) && n <= pr.k && c < pr.k
    ensures CentRows(pr, RecalcUpTo(pr, x, n))[c]
         == if c < n && x.clusterCounts[c] > 0 then Div(SumRows(pr, x)[c], x.clusterCounts[c]) else CentRows(pr, x)[c]
  {
    if n == 0 {
      RecalcNone(pr, x, n);
    } else {
      RecalcCentRowFrom(pr, x, n, c);
    }
  }

  /** RecalcCentRow for at least one handled cluster, by induction on n. */
  lemma {:induction false} RecalcCentRowFrom(pr: Problem, x: Instance, n: nat, c: nat)
    requires Fit(pr, x) && 0 < n <= pr.k && c < pr.k
    ensures CentRows(pr, RecalcUpTo(pr, x, n))[c]
         == if c < n && x.clusterCounts[c] > 0 then Div(SumRows(pr, x)[c], x.clusterCounts[c]) else CentRows(pr, x)[c]
    decreases n
  {
    if n > 1 {
      RecalcCentRowFrom(pr, x, n - 1, c);
    } else {
      RecalcNone(pr, x, n - 1);
    }
    if c == n - 1 && x.clusterCounts[c] > 0 {
      RecalcMoved(pr, x, n);
    } else {
      RecalcKept(pr, x, n, c);
    }
  }

  /** The whole recalculation loop. */
  function Recalculate(pr: Problem, x: Instance): (r: Instance)
    requires Fit(pr, x)
    ensures Fit(pr, r)
  {
    RecalcUpTo(pr, x, pr.k)
  }

  /** Recalculating the centres is the reference update. */
  lemma RecalculateRows(pr: Problem, x: Instance)
    requires Fit(pr, x)
    ensures Shaped(pr, Rows(pr, x))
    ensures Rows(pr, Recalculate(pr, x)) == Update(pr, Rows(pr, x))
  {
    FitRows(pr, x);
    var r, u := Rows(pr, Recalculate(pr, x)), Update(pr, Rows(pr, x));
    forall c: nat | c < pr.k
      ensures r.cents[c] == u.cents[c]
    {
      RecalcCentRow(pr, x, pr.k, c);
    }
  }

  // ---------------------------------------------------------------------------
  // The run

  /** The assignment loop keeps the objects fitting. */
  lemma PassFits(pr: Problem, x: Instance)
    requires Fit(pr, x)
    ensures Fit(pr, Pass(pr, x).0)
  {
    PassRows(pr, x);
  }

  /** One pass of the for-loop body: clear the sums, assign every point,
      recalculate the centres; the flag is `!done`. Objects that do not fit
      the problem are left alone. */
  function Iterate(pr: Problem, x: Instance): (r: (Instance, bool))
    ensures Fit(pr, x) ==> Fit(pr, r.0)
  {
    if Fit(pr, x) then
      var y := ClearAll(pr, x);
      PassFits(pr, y);
      var (z, moved) := Pass(pr, y);
      (Recalculate(pr, z), moved)
    else (x, false)
  }

  /** An iteration is the clear-first reference iteration on the rows, with
      the same flag. */
  lemma IterateRows(pr: Problem, x: Instance)
    requires Fit(pr, x)
    ensures Shaped(pr, Rows(pr, x))
    ensures Rows(pr, Iterate(pr, x).0) == Iteration.ClearFirstStep(pr, Rows(pr, x)).0
    ensures Iterate(pr, x).1 == Iteration.ClearFirstStep(pr, Rows(pr, x)).1
  {
    var y := ClearAll(pr, x);
    ClearAllRows(pr, x);
    PassRows(pr, y);
    RecalculateRows(pr, Pass(pr, y).0);
  }

  /** The loop body as one value, to drive the for-loop. */
  function Iterates(pr: Problem): Instance -> (Instance, bool)
  {
    (y: Instance) => Iterate(pr, y)
  }

  /** The objects fit the problem, as one value. */
  function Fits(pr: Problem): Instance -> bool
  {
    (y: Instance) => Fit(pr, y)
  }

  /** On fitting objects an iteration is the clear-first reference
      iteration. */
  lemma IterateAgreesAt(pr: Problem, y: Instance)
    requires Fits(pr)(y)
    ensures StepAgrees(Iterates(pr), Iteration.ClearFirstSteps(pr), Observed(pr), Fits(pr), y)
  {
    IterateRows(pr, y);
  }

  lemma IteratesAgree(pr: Problem)
    ensures StepsAgree(Iterates(pr), Iteration.ClearFirstSteps(pr), Observed(pr), Fits(pr))
  {
    forall y | Fits(pr)(y)
      ensures StepAgrees(Iterates(pr), Iteration.ClearFirstSteps(pr), Observed(pr), Fits(pr), y)
    {
      IterateAgreesAt(pr, y);
    }
  }

  /** The for-loop over the iterations runs the clear-first reference loop
      on the rows: the same passes, the same reason to stop and the final
      objects standing for its final state. */
  lemma LoopRows(pr: Problem, x: Instance, maxIterations: int)
    requires Fit(pr, x)
    ensures Fit(pr, ForLoop(x, Iterates(pr), Budget(maxIterations)).state)
    ensures Corresponds(ForLoop(x, Iterates(pr), Budget(maxIterations)),
                        Iteration.ClearFirstRun(pr, Rows(pr, x), maxIterations), Observed(pr))
  {
    IteratesAgree(pr);
    FitRows(pr, x);
    ForLoopSimulation(x, Iterates(pr), Rows(pr, x), Iteration.ClearFirstSteps(pr), Observed(pr), Fits(pr), Budget(maxIterations));
  }

  /** The objects seen as the reference state between passes: the rows with
      the sums cleared, since this program clears them at the start of a
      pass where the reference clears them at the end. */
  function Abstract(pr: Problem, x: Instance): (s: State)
    ensures Fit(pr, x) ==> Shaped(pr, s) && SumsCleared(s) && s == Rows(pr, x).(sums := s.sums)
  {
    if Fit(pr, x) then
      FitRows(pr, x);
      ClearSums(pr, Rows(pr, x))
    else Rows(pr, x)
  }

  /** `KMeans::run` on the points `main` built (all unassigned), with the
      finite stream of `rand()` draws: nothing happens when K exceeds the
      number of points; otherwise the seeding and then the for-loop run. */
  function RunKMeans(pr: Problem, points: seq<Point>, draws: seq<nat>, maxIterations: int): (r: Report<Instance>)
    requires pr.Valid() && PointsHold(pr, points) && AllUnassigned(points)
    ensures r.TooFewPoints? <==> pr.k > |points|
    ensures r.Finished? ==> r.outcome.passes <= Budget(maxIterations) && Fit(pr, r.outcome.state)
  {
    if pr.k > |points| then TooFewPoints
    else
      StartSeeded(pr, points);
      var (x, seeds) := SeedFrom(pr, draws, Constructed(pr, points), []);
      if |seeds| < pr.k then OutOfDraws
      else
        SeededRows(pr, x, seeds);
        ForLoopKeeps(x, Iterates(pr), Budget(maxIterations), Fits(pr));
        Finished(ForLoop(x, Iterates(pr), Budget(maxIterations)))
  }

  /** From the seeded buffers the for-loop is the reference loop from the
      seeded state: the same passes, the same reason to stop, and the final
      buffers, sums aside, are the reference's final state. */
  lemma SeededLoop(pr: Problem, x: Instance, seeds: seq<nat>, maxIterations: int)
    requires SeededBy(pr, x, seeds) && |seeds| == pr.k
    ensures var o := ForLoop(x, Iterates(pr), Budget(maxIterations));
      Outcome(Abstract(pr, o.state), o.passes, o.converged) == Iteration.Run(pr, Seeded(pr, seeds), maxIterations)
  {
    SeededRows(pr, x, seeds);
    SeededSpec(pr, seeds);
    LoopRows(pr, x, maxIterations);
    Iteration.ClearFirstRunSpec(pr, Rows(pr, x), maxIterations);
    ClearSumsCleared(pr, Rows(pr, x));
  }

  /** The run is the reference seeded run: it gives up in the same cases,
      and when it finishes it took the same passes, stopped for the same
      reason and its buffers, sums aside, are the reference's final state:
      the same centroids, memberships and counts. */
  lemma RunKMeansSpec(pr: Problem, points: seq<Point>, draws: seq<nat>, maxIterations: int)
    requires pr.Valid() && PointsHold(pr, points) && AllUnassigned(points)
    ensures MapReport(RunKMeans(pr, points, draws, maxIterations), (x: Instance) => Abstract(pr, x))
            == SeededRun(pr, draws, maxIterations)
  {
    if pr.k <= |points| {
      StartSeeded(pr, points);
      var (x, seeds) := SeedFrom(pr, draws, Constructed(pr, points), []);
      if |seeds| == pr.k {
        SeededLoop(pr, x, seeds, maxIterations);
      }
    }
  }
}

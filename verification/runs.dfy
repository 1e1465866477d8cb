/** What a whole `run` computes, common to the programs: the guard on K, the
    choice of the initial centroids, and the iteration loop. */
module Runs {
  import opened Vectors
  import opened Lloyd
  import opened Loops
  import opened Seeding
  import Iteration

  /** How a run ends: it returns at once when there are more clusters than
      points; the random seeding never ends when the draws cannot supply K
      distinct indices; otherwise the iteration loop runs to its outcome. */
  datatype Report<S> = TooFewPoints | OutOfDraws | Finished(outcome: Outcome<S>)

  /** The same report with the final state seen through `f`. */
  function MapReport<S, T>(r: Report<S>, f: S -> T): (r': Report<T>)
    ensures r'.TooFewPoints? == r.TooFewPoints? && r'.OutOfDraws? == r.OutOfDraws?
    ensures r.Finished? ==>
              && r'.Finished? && r'.outcome.state == f(r.outcome.state)
              && r'.outcome.passes == r.outcome.passes && r'.outcome.converged == r.outcome.converged
  {
    match r
    case TooFewPoints => TooFewPoints
    case OutOfDraws => OutOfDraws
    case Finished(o) => Finished(Outcome(f(o.state), o.passes, o.converged))
  }

  /** A run seeded from K distinct random points (the four programs that call
      `rand()`), for a finite stream of draws. */
  function SeededRun(pr: Problem, draws: seq<nat>, maxIterations: int): (r: Report<State>)
    requires pr.Valid()
    ensures r.TooFewPoints? <==> pr.k > |pr.vals|
    ensures r.OutOfDraws? <==> pr.k <= |pr.vals| && |PickSeeds(draws, |pr.vals|, pr.k)| < pr.k
  {
    if pr.k > |pr.vals| then TooFewPoints
    else
      var seeds := PickSeeds(draws, |pr.vals|, pr.k);
      if |seeds| < pr.k then OutOfDraws
      else Finished(Iteration.Run(pr, Seeded(pr, seeds), maxIterations))
  }

  /** A run that finishes ends consistent, within the budget, and, when it
      stopped because a pass moved nothing, at a fixed point where every point
      sits in the cluster of its nearest centroid. */
  lemma SeededRunSpec(pr: Problem, draws: seq<nat>, maxIterations: int)
    requires pr.Valid()
    ensures var r := SeededRun(pr, draws, maxIterations);
      r.Finished? ==>
        && Consistent(pr, r.outcome.state)
        && r.outcome.passes <= Budget(maxIterations)
        && (r.outcome.converged ==>
              && Iteration.Step(pr, r.outcome.state) == (r.outcome.state, false)
              && r.outcome.state.assign == Near(pr, r.outcome.state.cents))
  {
    if pr.k <= |pr.vals| {
      var seeds := PickSeeds(draws, |pr.vals|, pr.k);
      if |seeds| == pr.k {
        SeededSpec(pr, seeds);
        Iteration.RunSpec(pr, Seeded(pr, seeds), maxIterations);
      }
    }
  }

  /** A report `r` that trails the seeded run through `abs`: it gives up in
      the same cases; when it finishes it took no more passes, its state is
      the seeded run's state after as many passes, and it is the seeded run
      exactly when it ran out of budget or that run's pass of the same number
      moved nothing either; otherwise the seeded run goes on from its final
      state with the budget left. */
  ghost predicate TrailsSeededRun<S>(pr: Problem, draws: seq<nat>, maxIterations: int, r: Report<S>, abs: S -> State)
    requires pr.Valid()
  {
    var q := SeededRun(pr, draws, maxIterations);
    && r.TooFewPoints? == q.TooFewPoints? && r.OutOfDraws? == q.OutOfDraws?
    && (r.Finished? ==>
          var p := SeededRun(pr, draws, r.outcome.passes).outcome;
          && r.outcome.passes <= q.outcome.passes
          && abs(r.outcome.state) == p.state
          && (MapReport(r, abs) == q <==> !r.outcome.converged || p.converged)
          && (!p.converged ==>
                q.outcome == Shifted(Iteration.Run(pr, abs(r.outcome.state), maxIterations - r.outcome.passes),
                                     r.outcome.passes)))
  }

  /** A report that gives up exactly where the seeded run does, and whose
      loop outcome trails the reference run from the seeded state when it
      finishes, trails the seeded run. */
  lemma SeededTrailing<S>(pr: Problem, draws: seq<nat>, maxIterations: int, r: Report<S>, abs: S -> State)
    requires pr.Valid()
    requires r.TooFewPoints? <==> pr.k > |pr.vals|
    requires r.OutOfDraws? <==> pr.k <= |pr.vals| && |PickSeeds(draws, |pr.vals|, pr.k)| < pr.k
    requires r.Finished? && pr.k <= |pr.vals| ==>
               Iteration.TrailsRun(pr, Seeded(pr, PickSeeds(draws, |pr.vals|, pr.k)), maxIterations, r.outcome, abs)
    ensures TrailsSeededRun(pr, draws, maxIterations, r, abs)
  {
  }

  /** Pairwise distinct indices are as many as the set they form. */
  lemma {:induction false} DistinctCardinality(r: seq<nat>, n: nat)
    requires DistinctIndexes(r, n)
    ensures |set m | 0 <= m < |r| :: r[m]| == |r|
    decreases |r|
  {
    if |r| > 0 {
      var p := r[..|r| - 1];
      DistinctCardinality(p, n);
      var last := r[|r| - 1];
      assert (set m | 0 <= m < |r| :: r[m]) == (set m | 0 <= m < |p| :: p[m]) + {last};
      assert last !in (set m | 0 <= m < |p| :: p[m]);
    }
  }

  /** The indices the draws hit, modulo n. */
  function Hits(draws: seq<nat>, n: nat): (h: set<nat>)
    requires n > 0
    ensures forall j :: 0 <= j < |draws| ==> draws[j] % n in h
  {
    set j | 0 <= j < |draws| :: draws[j] % n
  }

  /** Draws that all land in a list of distinct indices hit no more indices
      than the list holds. */
  lemma HitsBound(draws: seq<nat>, n: nat, r: seq<nat>)
    requires n > 0 && DistinctIndexes(r, n)
    requires forall j :: 0 <= j < |draws| ==> draws[j] % n in r
    ensures |Hits(draws, n)| <= |r|
  {
    var chosen := set m | 0 <= m < |r| :: r[m];
    forall x | x in Hits(draws, n)
      ensures x in chosen
    {
      var j :| 0 <= j < |draws| && draws[j] % n == x;
      var m :| 0 <= m < |r| && r[m] == x;
    }
    DistinctCardinality(r, n);
    SubsetCardinality(Hits(draws, n), chosen);
  }

  lemma {:induction false} SubsetCardinality(a: set<nat>, b: set<nat>)
    requires a <= b
    ensures |a| <= |b|
    decreases |a|
  {
    if a != {} {
      var x :| x in a;
      SubsetCardinality(a - {x}, b - {x});
    }
  }

  /** Seeding finishes whenever the draws, taken modulo N, hit at least K
      different indices. */
  lemma SeedingSucceeds(pr: Problem, draws: seq<nat>, maxIterations: int)
    requires pr.Valid() && pr.k <= |pr.vals|
    requires |Hits(draws, |pr.vals|)| >= pr.k
    ensures SeededRun(pr, draws, maxIterations).Finished?
  {
    var n := |pr.vals|;
    PickSeedsSpec(draws, n, pr.k);
    if |PickSeeds(draws, n, pr.k)| < pr.k {
      HitsBound(draws, n, PickSeeds(draws, n, pr.k));
    }
  }

  /** A run started from the first K rows of a predefined centroid table (the
      serial and parallel-simple programs), with the for-loop. */
  function PredefinedRun(pr: Problem, table: seq<Vec>, maxIterations: int): (r: Report<State>)
    requires pr.Valid()
    requires pr.k <= |pr.vals| ==> pr.k <= |table| && forall c :: 0 <= c < |table| ==> pr.d <= |table[c]|
    ensures !r.OutOfDraws?
    ensures r.TooFewPoints? <==> pr.k > |pr.vals|
  {
    if pr.k > |pr.vals| then TooFewPoints
    else Finished(Iteration.Run(pr, Predefined(pr, table), maxIterations))
  }

  /** The same guarantees as for the seeded run. */
  lemma PredefinedRunSpec(pr: Problem, table: seq<Vec>, maxIterations: int)
    requires pr.Valid()
    requires pr.k <= |pr.vals| ==> pr.k <= |table| && forall c :: 0 <= c < |table| ==> pr.d <= |table[c]|
    ensures var r := PredefinedRun(pr, table, maxIterations);
      r.Finished? ==>
        && Consistent(pr, r.outcome.state)
        && r.outcome.passes <= Budget(maxIterations)
        && (r.outcome.converged ==>
              && Iteration.Step(pr, r.outcome.state) == (r.outcome.state, false)
              && r.outcome.state.assign == Near(pr, r.outcome.state.cents))
  {
    if pr.k <= |pr.vals| {
      PredefinedSpec(pr, table);
      Iteration.RunSpec(pr, Predefined(pr, table), maxIterations);
    }
  }
}

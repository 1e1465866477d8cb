/** The reference iteration every program is compared against: the counter
    pass, then the centroid update, then clearing the attribute sums, repeated
    by the for-loop until a pass moves no point or the budget is spent. */
module Iteration {
  import opened Vectors
  import opened Lloyd
  import opened Loops

  /** One iteration on cluster rows; the flag says whether some point changed
      cluster. A state that is not shaped for the problem is left alone, which
      makes the step total so that it can drive the generic loops. */
  function Step(pr: Problem, s: State): (r: (State, bool))
  {
    if Shaped(pr, s) then
      var (t, moved) := CounterPass(pr, s);
      (ClearSums(pr, Update(pr, t)), moved)
    else (s, false)
  }

  /** One iteration from a consistent state reaches a consistent state in
      which every point sits in its nearest cluster of the previous centroids,
      every count is the new cluster size, every non-empty cluster moved to the
      mean of its new members and every empty one stayed put; the flag is
      raised exactly when some assignment changed. */
  lemma StepSpec(pr: Problem, s: State)
    requires Consistent(pr, s)
    ensures var (u, moved) := Step(pr, s);
      && Consistent(pr, u)
      && u.assign == Near(pr, s.cents)
      && (forall c :: 0 <= c < pr.k && CountOf(u.assign, c) == 0 ==> u.cents[c] == s.cents[c])
      && (moved <==> u.assign != s.assign)
  {
    CounterPassSpec(pr, s);
    var t := CounterPass(pr, s).0;
    UpdateSpec(pr, t);
  }

  /** A consistent state whose iteration moves no point is a fixed point of
      the iteration. */
  lemma StepNoMoveIsFixed(pr: Problem, s: State)
    requires Consistent(pr, s)
    requires !Step(pr, s).1
    ensures Step(pr, s).0 == s
  {
    NoMoveKeepsCentroids(pr, s);
    var u := Step(pr, s).0;
    forall c | 0 <= c < pr.k
      ensures u.sums[c] == s.sums[c]
    {
      ZeroIsZeros(s.sums[c]);
    }
  }

  /** Consistency is kept by every iteration, and an iteration that moves
      nothing changes nothing. */
  lemma StepFacts(pr: Problem)
    ensures forall x :: Consistent(pr, x) ==> Consistent(pr, Step(pr, x).0)
    ensures forall x :: Consistent(pr, x) && !Step(pr, x).1 ==> Step(pr, x).0 == x
  {
    forall x | Consistent(pr, x)
      ensures Consistent(pr, Step(pr, x).0)
    {
      StepSpec(pr, x);
    }
    forall x | Consistent(pr, x) && !Step(pr, x).1
      ensures Step(pr, x).0 == x
    {
      StepNoMoveIsFixed(pr, x);
    }
  }

  /** The iteration as one value, to drive the loops. */
  function Steps(pr: Problem): State -> (State, bool)
  {
    s => Step(pr, s)
  }

  /** The rest of the iteration loop from state `s` with `budget` passes left. */
  function Remaining(pr: Problem, s: State, budget: nat): (r: Outcome<State>)
    ensures r.passes <= budget
  {
    ForLoop(s, Steps(pr), budget)
  }

  /** The iteration loop from a given starting state with `max_iterations`. */
  function Run(pr: Problem, s0: State, maxIterations: int): (r: Outcome<State>)
    ensures r.passes <= Budget(maxIterations)
    ensures r.converged || r.passes == Budget(maxIterations)
  {
    Remaining(pr, s0, Budget(maxIterations))
  }

  /** The loop is the generic for-loop over the reference iteration. */
  lemma RunIsForLoop(pr: Problem, s0: State, maxIterations: int)
    ensures Run(pr, s0, maxIterations) == ForLoop(s0, Steps(pr), Budget(maxIterations))
  {
  }

  /** An outcome `r` of a loop that trails the reference run from `t` on a
      budget of `max_iterations`: it took no more passes, it ended in the
      reference state after as many passes, and it has the reference outcome
      exactly when it ran out of budget or the reference run stopped there
      too; otherwise the reference run goes on from that state with the
      budget left. */
  ghost predicate TrailsRun<S>(pr: Problem, t: State, maxIterations: int, r: Outcome<S>, abs: S -> State) {
    && r.passes <= Run(pr, t, maxIterations).passes
    && abs(r.state) == Run(pr, t, r.passes).state
    && (Corresponds(r, Run(pr, t, maxIterations), abs)
        <==> !r.converged || Run(pr, t, r.passes).converged)
    && (!Run(pr, t, r.passes).converged ==>
          Run(pr, t, maxIterations) == Shifted(Run(pr, abs(r.state), maxIterations - r.passes), r.passes))
  }

  /** A for-loop whose steps trail the reference iteration through `abs`
      keeps `inv` and trails the reference run from `abs(s)`. */
  lemma RunTrailed<S(!new)>(pr: Problem, s: S, step: S -> (S, bool), abs: S -> State, inv: S -> bool, t: State, maxIterations: int)
    requires inv(s) && abs(s) == t && StepsTrail(step, Steps(pr), abs, inv)
    ensures inv(ForLoop(s, step, Budget(maxIterations)).state)
    ensures TrailsRun(pr, t, maxIterations, ForLoop(s, step, Budget(maxIterations)), abs)
  {
    var r := ForLoop(s, step, Budget(maxIterations));
    TrailingLoop(s, step, t, Steps(pr), abs, inv, maxIterations);
    RunIsForLoop(pr, t, maxIterations);
    RunIsForLoop(pr, t, r.passes);
    RunIsForLoop(pr, abs(r.state), maxIterations - r.passes);
  }

  /** The `while (true)` loop entered with `iter = 1` is the for-loop with a
      budget of `max(max_iterations, 1)`: the body always runs once, and the
      pass count reported is the `iter` at the break. */
  lemma WhileRun(pr: Problem, s0: State, maxIterations: int)
    ensures WhileLoop(s0, Steps(pr), maxIterations, 1) == Run(pr, s0, if maxIterations > 1 then maxIterations else 1)
  {
    WhileLoopIsForLoop(s0, Steps(pr), maxIterations, 1);
  }

  /** One more pass of the loop: a pass that moves nothing ends the loop,
      any other leaves one pass less of budget. */
  lemma RemainingStep(pr: Problem, s: State, budget: nat)
    requires budget > 0
    ensures var (t, moved) := Step(pr, s);
      Remaining(pr, s, budget)
      == if !moved then Outcome(t, 1, true)
         else var r := Remaining(pr, t, budget - 1); Outcome(r.state, r.passes + 1, r.converged)
  {
  }

  /** Before the test of the for-loop with counter `iter` and flag `done`, in
      state `s`, of the run from `s0`: while not done, finishing the loop from
      `s` with the budget left gives the run's outcome; once done, the run
      stopped in `s` after `iter - 1` passes. */
  predicate LoopAt(pr: Problem, s0: State, maxIterations: int, s: State, iter: int, done: bool) {
    && 1 <= iter <= Budget(maxIterations) + 1
    && (!done ==> Run(pr, s0, maxIterations)
                  == Shifted(Remaining(pr, s, Budget(maxIterations) - (iter - 1)), iter - 1))
    && (done ==> Run(pr, s0, maxIterations) == Outcome(s, iter - 1, true))
  }

  /** The loop starts at `iter = 1` with `done = false`. */
  lemma LoopStart(pr: Problem, s0: State, maxIterations: int)
    ensures LoopAt(pr, s0, maxIterations, s0, 1, false)
  {
    assert Shifted(Remaining(pr, s0, Budget(maxIterations)), 0) == Remaining(pr, s0, Budget(maxIterations));
  }

  /** One pass and `iter++` keep the loop on the run. */
  lemma LoopAdvance(pr: Problem, s0: State, maxIterations: int, s: State, iter: int)
    requires LoopAt(pr, s0, maxIterations, s, iter, false) && iter <= maxIterations
    ensures LoopAt(pr, s0, maxIterations, Step(pr, s).0, iter + 1, !Step(pr, s).1)
  {
    RemainingStep(pr, s, Budget(maxIterations) - (iter - 1));
  }

  /** When the loop test fails, the run has ended in the loop's state. */
  lemma LoopExit(pr: Problem, s0: State, maxIterations: int, s: State, iter: int, done: bool)
    requires LoopAt(pr, s0, maxIterations, s, iter, done)
    requires done || iter > maxIterations
    ensures Run(pr, s0, maxIterations) == Outcome(s, iter - 1, done)
  {
    if !done {
      assert Remaining(pr, s, 0) == Outcome(s, 0, false);
    }
  }

  /** A run from a consistent state ends consistent, and when it stopped
      because a pass moved nothing, every point sits in the cluster of its
      nearest centroid and one more iteration would change nothing. */
  lemma RunSpec(pr: Problem, s0: State, maxIterations: int)
    requires Consistent(pr, s0)
    ensures Consistent(pr, Run(pr, s0, maxIterations).state)
    ensures Run(pr, s0, maxIterations).converged ==>
              && Step(pr, Run(pr, s0, maxIterations).state) == (Run(pr, s0, maxIterations).state, false)
              && Run(pr, s0, maxIterations).state.assign
                 == Near(pr, Run(pr, s0, maxIterations).state.cents)
  {
    var step := Steps(pr);
    var inv := x => Consistent(pr, x);
    StepFacts(pr);
    ForLoopKeeps(s0, step, Budget(maxIterations), inv);
    ForLoopConvergedIsFixed(s0, step, Budget(maxIterations), inv);
    var f := Run(pr, s0, maxIterations).state;
    if Run(pr, s0, maxIterations).converged {
      StepSpec(pr, f);
    }
  }

  /** The order of serial-fast and serial-fast-no-cluster: clear the sums at
      the start of the pass, run the counter pass, update the centroids, and
      leave the sums of the pass in place. */
  function ClearFirstStep(pr: Problem, s: State): (r: (State, bool))
    ensures Shaped(pr, s) ==> Shaped(pr, r.0)
  {
    if Shaped(pr, s) then
      var (t, moved) := CounterPass(pr, ClearSums(pr, s));
      (Update(pr, t), moved)
    else (s, false)
  }

  /** Clearing first and clearing last are the same iteration seen from the
      other side of the clear: the sums left by a clear-first pass are the
      member totals of the new clusters, and once cleared the state and the
      flag are those of the reference iteration from the cleared state. */
  lemma ClearFirstStepSpec(pr: Problem, s: State)
    requires Shaped(pr, s)
    ensures SumsMatch(pr, ClearFirstStep(pr, s).0)
    ensures ClearSums(pr, ClearFirstStep(pr, s).0) == Step(pr, ClearSums(pr, s)).0
    ensures ClearFirstStep(pr, s).1 == Step(pr, ClearSums(pr, s)).1
  {
    var z := ClearSums(pr, s);
    CounterPassAssign(pr, z);
    forall c | 0 <= c < pr.k
      ensures CounterPass(pr, z).0.sums[c] == MemberSum(pr.vals, CounterPass(pr, z).0.assign, c, pr.d)
    {
      CounterPassSum(pr, z, c);
    }
  }

  /** The clear-first iteration as one value, to drive the loops. */
  function ClearFirstSteps(pr: Problem): State -> (State, bool)
  {
    s => ClearFirstStep(pr, s)
  }

  /** The for-loop around the clear-first iteration. */
  function ClearFirstRun(pr: Problem, s0: State, maxIterations: int): (r: Outcome<State>)
    ensures r.passes <= Budget(maxIterations)
    ensures r.converged || r.passes == Budget(maxIterations)
  {
    ForLoop(s0, ClearFirstSteps(pr), Budget(maxIterations))
  }

  /** What the clear-first iteration looks like from the reference side:
      the state with its sums cleared. */
  function Cleared(pr: Problem): State -> State
  {
    x => if Shaped(pr, x) then ClearSums(pr, x) else x
  }

  function ShapedFor(pr: Problem): State -> bool
  {
    x => Shaped(pr, x)
  }

  /** One clear-first iteration agrees with the reference iteration once
      both are seen through the clear. */
  lemma ClearFirstAgreesAt(pr: Problem, x: State)
    requires ShapedFor(pr)(x)
    ensures StepAgrees(ClearFirstSteps(pr), Steps(pr), Cleared(pr), ShapedFor(pr), x)
  {
    ClearFirstStepSpec(pr, x);
  }

  /** So every clear-first iteration does. */
  lemma ClearFirstStepsAgree(pr: Problem)
    ensures StepsAgree(ClearFirstSteps(pr), Steps(pr), Cleared(pr), ShapedFor(pr))
  {
    forall x | ShapedFor(pr)(x)
      ensures StepAgrees(ClearFirstSteps(pr), Steps(pr), Cleared(pr), ShapedFor(pr), x)
    {
      ClearFirstAgreesAt(pr, x);
    }
  }

  /** A clear-first run takes the same passes as the reference run from the
      cleared state, stops for the same reason, and ends in the same state
      once its last sums are cleared. */
  lemma ClearFirstRunSpec(pr: Problem, s0: State, maxIterations: int)
    requires Shaped(pr, s0)
    ensures Shaped(pr, ClearFirstRun(pr, s0, maxIterations).state)
    ensures Corresponds(ClearFirstRun(pr, s0, maxIterations), Run(pr, ClearSums(pr, s0), maxIterations), Cleared(pr))
  {
    ClearFirstStepsAgree(pr);
    ForLoopSimulation(s0, ClearFirstSteps(pr), ClearSums(pr, s0), Steps(pr), Cleared(pr), ShapedFor(pr), Budget(maxIterations));
  }
}

/** The two outer loop shapes of the programs, generic in the state an
    iteration works on. A step returns the next state and whether any point
    changed cluster (the negation of the program's `done`). */
module Loops {

  /** The final state, how many passes ran, and whether the loop stopped
      because a pass reported no change. */
  datatype Outcome<S> = Outcome(state: S, passes: nat, converged: bool)

  /** The pass budget of `iter <= max_iterations` with `iter` counted from 1. */
  function Budget(maxIterations: int): (b: nat)
    ensures maxIterations >= 0 ==> b == maxIterations
    ensures maxIterations < 0 ==> b == 0
  {
    if maxIterations > 0 then maxIterations else 0
  }

  /** The budget left after `used` passes of it. */
  lemma BudgetLeft(maxIterations: int, used: nat)
    requires used <= Budget(maxIterations)
    ensures Budget(maxIterations - used) == Budget(maxIterations) - used
  {
  }

  /** `for (iter = 1; !done && iter <= max_iterations; iter++) { done = true; ... }`
      with `budget` passes left. */
  function ForLoop<S>(s: S, step: S -> (S, bool), budget: nat): (r: Outcome<S>)
    ensures r.passes <= budget
    ensures r.converged || r.passes == budget
    ensures r.converged ==> r.passes >= 1
    decreases budget
  {
    if budget == 0 then Outcome(s, 0, false)
    else
      var (t, changed) := step(s);
      if !changed then Outcome(t, 1, true)
      else
        var r := ForLoop(t, step, budget - 1);
        Outcome(r.state, r.passes + 1, r.converged)
  }

  /** The `iter` the for-loop programs print after the loop: one past the last
      pass, because `iter++` also runs after the final pass. */
  function ForLoopIter<S>(r: Outcome<S>): (iter: nat)
    ensures iter >= 1 && iter - 1 == r.passes
  {
    r.passes + 1
  }

  /** An outcome seen from `m` passes earlier. */
  function Shifted<S>(r: Outcome<S>, m: nat): (r': Outcome<S>)
    ensures r'.state == r.state && r'.converged == r.converged
    ensures r'.passes - m == r.passes
  {
    Outcome(r.state, r.passes + m, r.converged)
  }

  /** `while (true) { ...; if (done || iter >= max_iterations) break; iter++; }`
      entered with the given `iter`; the outcome's pass count is the `iter`
      printed at the break. */
  function WhileLoop<S>(s: S, step: S -> (S, bool), maxIterations: int, iter: nat): (r: Outcome<S>)
    requires iter >= 1
    ensures iter <= r.passes
    ensures r.passes <= if maxIterations > iter then maxIterations else iter
    ensures r.converged || r.passes >= maxIterations
    decreases if maxIterations > iter then maxIterations - iter else 0
  {
    var (t, changed) := step(s);
    if !changed || iter >= maxIterations then Outcome(t, iter, !changed)
    else WhileLoop(t, step, maxIterations, iter + 1)
  }

  /** A counter that every step raises by one ends raised by the number of
      passes the for-loop ran. */
  lemma {:induction false} ForLoopCounts<S>(s: S, step: S -> (S, bool), budget: nat, count: S -> nat)
    requires forall y :: count(step(y).0) == count(y) + 1
    ensures count(ForLoop(s, step, budget).state) == count(s) + ForLoop(s, step, budget).passes
    decreases budget
  {
    if budget > 0 {
      var (t, changed) := step(s);
      if changed {
        ForLoopCounts(t, step, budget - 1, count);
      }
    }
  }

  /** A property that every step keeps holds of the for-loop's final state. */
  lemma {:induction false} ForLoopKeeps<S>(s: S, step: S -> (S, bool), budget: nat, inv: S -> bool)
    requires inv(s)
    requires forall x :: inv(x) ==> inv(step(x).0)
    ensures inv(ForLoop(s, step, budget).state)
    decreases budget
  {
    if budget > 0 && step(s).1 {
      ForLoopKeeps(step(s).0, step, budget - 1, inv);
    }
  }

  /** The same for the while loop. */
  lemma {:induction false} WhileLoopKeeps<S>(s: S, step: S -> (S, bool), maxIterations: int, iter: nat, inv: S -> bool)
    requires iter >= 1
    requires inv(s)
    requires forall x :: inv(x) ==> inv(step(x).0)
    ensures inv(WhileLoop(s, step, maxIterations, iter).state)
    decreases if maxIterations > iter then maxIterations - iter else 0
  {
    if step(s).1 && iter < maxIterations {
      WhileLoopKeeps(step(s).0, step, maxIterations, iter + 1, inv);
    }
  }

  /** When a step that changes nothing returns its input unchanged, a
      converged for-loop ends in a fixed point: one more pass reports no change
      and returns the same state. */
  lemma {:induction false} ForLoopConvergedIsFixed<S>(s: S, step: S -> (S, bool), budget: nat, inv: S -> bool)
    requires inv(s)
    requires forall x :: inv(x) ==> inv(step(x).0)
    requires forall x :: inv(x) && !step(x).1 ==> step(x).0 == x
    ensures ForLoop(s, step, budget).converged ==>
              step(ForLoop(s, step, budget).state) == (ForLoop(s, step, budget).state, false)
    decreases budget
  {
    if budget > 0 && step(s).1 {
      ForLoopConvergedIsFixed(step(s).0, step, budget - 1, inv);
    }
  }

  /** The same for the while loop. */
  lemma {:induction false} WhileLoopConvergedIsFixed<S>(s: S, step: S -> (S, bool), maxIterations: int, iter: nat, inv: S -> bool)
    requires iter >= 1
    requires inv(s)
    requires forall x :: inv(x) ==> inv(step(x).0)
    requires forall x :: inv(x) && !step(x).1 ==> step(x).0 == x
    ensures WhileLoop(s, step, maxIterations, iter).converged ==>
              step(WhileLoop(s, step, maxIterations, iter).state)
              == (WhileLoop(s, step, maxIterations, iter).state, false)
    decreases if maxIterations > iter then maxIterations - iter else 0
  {
    if step(s).1 && iter < maxIterations {
      WhileLoopConvergedIsFixed(step(s).0, step, maxIterations, iter + 1, inv);
    }
  }

  /** The steps keep `inv` and agree through `abs` on the states
      satisfying it, flags included. */
  ghost predicate StepsAgree<S(!new), T>(step: S -> (S, bool), step': T -> (T, bool), abs: S -> T, inv: S -> bool) {
    forall x {:trigger StepAgrees(step, step', abs, inv, x)} :: inv(x) ==> StepAgrees(step, step', abs, inv, x)
  }

  /** The same at one state `x`. */
  ghost predicate StepAgrees<S, T>(step: S -> (S, bool), step': T -> (T, bool), abs: S -> T, inv: S -> bool, x: S) {
    && inv(step(x).0)
    && abs(step(x).0) == step'(abs(x)).0
    && step(x).1 == step'(abs(x)).1
  }

  /** Two outcomes with the same passes and reason to stop whose final
      states correspond through `abs`. */
  ghost predicate Corresponds<S, T>(r: Outcome<S>, q: Outcome<T>, abs: S -> T) {
    abs(r.state) == q.state && r.passes == q.passes && r.converged == q.converged
  }

  /** Two loops whose steps agree through `abs` on states satisfying a kept
      property run the same number of passes, stop for the same reason and end
      in corresponding states. */
  lemma {:induction false} ForLoopSimulation<S(!new), T>(
    s: S, step: S -> (S, bool), t: T, step': T -> (T, bool), abs: S -> T, inv: S -> bool, budget: nat)
    requires inv(s) && abs(s) == t
    requires StepsAgree(step, step', abs, inv)
    ensures inv(ForLoop(s, step, budget).state)
    ensures Corresponds(ForLoop(s, step, budget), ForLoop(t, step', budget), abs)
    decreases budget
  {
    assert StepAgrees(step, step', abs, inv, s);
    if budget > 0 && step(s).1 {
      ForLoopSimulation(step(s).0, step, step'(t).0, step', abs, inv, budget - 1);
    }
  }

  /** The same for the while loop. */
  lemma {:induction false} WhileLoopSimulation<S(!new), T>(
    s: S, step: S -> (S, bool), t: T, step': T -> (T, bool), abs: S -> T, inv: S -> bool,
    maxIterations: int, iter: nat)
    requires iter >= 1
    requires inv(s) && abs(s) == t
    requires StepsAgree(step, step', abs, inv)
    ensures inv(WhileLoop(s, step, maxIterations, iter).state)
    ensures Corresponds(WhileLoop(s, step, maxIterations, iter), WhileLoop(t, step', maxIterations, iter), abs)
    decreases if maxIterations > iter then maxIterations - iter else 0
  {
    assert StepAgrees(step, step', abs, inv, s);
    if step(s).1 && iter < maxIterations {
      WhileLoopSimulation(step(s).0, step, step'(t).0, step', abs, inv, maxIterations, iter + 1);
    }
  }

  /** The steps keep `inv` and agree through `abs` on the states satisfying
      it, except that the flag of `step` may stay down where the flag of
      `step'` is raised: a step that reports a change always made one, but a
      change can go unreported. */
  ghost predicate StepsTrail<S(!new), T>(step: S -> (S, bool), step': T -> (T, bool), abs: S -> T, inv: S -> bool) {
    forall x {:trigger StepTrails(step, step', abs, inv, x)} :: inv(x) ==> StepTrails(step, step', abs, inv, x)
  }

  /** The same at one state `x`. */
  ghost predicate StepTrails<S, T>(step: S -> (S, bool), step': T -> (T, bool), abs: S -> T, inv: S -> bool, x: S) {
    && inv(step(x).0)
    && abs(step(x).0) == step'(abs(x)).0
    && (step(x).1 ==> step'(abs(x)).1)
  }

  /** A loop whose flag can miss a change against the loop it trails: it
      stops no later, it ends in the state the trailed loop reaches after as
      many passes, and the two loops have the same outcome exactly when it
      ran out of budget or the trailed loop's last pass of those reported no
      change either. */
  lemma {:induction false} ForLoopTrails<S(!new), T>(
    s: S, step: S -> (S, bool), t: T, step': T -> (T, bool), abs: S -> T, inv: S -> bool, budget: nat)
    requires inv(s) && abs(s) == t
    requires StepsTrail(step, step', abs, inv)
    ensures inv(ForLoop(s, step, budget).state)
    ensures ForLoop(s, step, budget).passes <= ForLoop(t, step', budget).passes
    ensures abs(ForLoop(s, step, budget).state) == ForLoop(t, step', ForLoop(s, step, budget).passes).state
    ensures ForLoop(t, step', ForLoop(s, step, budget).passes).passes == ForLoop(s, step, budget).passes
    ensures Corresponds(ForLoop(s, step, budget), ForLoop(t, step', budget), abs)
        <==> !ForLoop(s, step, budget).converged || ForLoop(t, step', ForLoop(s, step, budget).passes).converged
    decreases budget
  {
    if budget > 0 {
      assert StepTrails(step, step', abs, inv, s);
      var (x, changed) := step(s);
      var (y, changed') := step'(t);
      if changed {
        ForLoopTrails(x, step, y, step', abs, inv, budget - 1);
      } else if changed' {
        var q := ForLoop(y, step', budget - 1);
        assert ForLoop(t, step', budget).passes == q.passes + 1;
        assert q.passes == 0 ==> !q.converged;
      }
    }
  }

  /** A loop that has not converged after m passes goes on from the state
      it reached with the budget left. */
  lemma {:induction false} ForLoopResume<S>(s: S, step: S -> (S, bool), m: nat, budget: nat)
    requires m <= budget && !ForLoop(s, step, m).converged
    ensures ForLoop(s, step, budget) == Shifted(ForLoop(ForLoop(s, step, m).state, step, budget - m), m)
    decreases m
  {
    if m > 0 {
      var (t, changed) := step(s);
      ForLoopResume(t, step, m - 1, budget - 1);
    }
  }

  /** The same, with the budget given as `max_iterations`. */
  lemma ResumeWithin<S>(s: S, step: S -> (S, bool), maxIterations: int, m: nat)
    requires m <= Budget(maxIterations) && !ForLoop(s, step, m).converged
    ensures ForLoop(s, step, Budget(maxIterations))
            == Shifted(ForLoop(ForLoop(s, step, m).state, step, Budget(maxIterations - m)), m)
  {
    BudgetLeft(maxIterations, m);
    ForLoopResume(s, step, m, Budget(maxIterations));
  }

  /** An outcome `r` of a loop that trails the loop from `t` with `step'`,
      both run on a budget of `max_iterations`: it took no more passes, it
      ended in the state the other loop reaches after as many passes, and
      it has the other loop's outcome exactly when it ran out of budget or
      the other loop stopped there too; otherwise the other loop goes on
      from that state with the budget left. */
  ghost predicate Trails<S, T>(t: T, step': T -> (T, bool), maxIterations: int, r: Outcome<S>, abs: S -> T) {
    && r.passes <= ForLoop(t, step', Budget(maxIterations)).passes
    && abs(r.state) == ForLoop(t, step', Budget(r.passes)).state
    && (Corresponds(r, ForLoop(t, step', Budget(maxIterations)), abs)
        <==> !r.converged || ForLoop(t, step', Budget(r.passes)).converged)
    && (!ForLoop(t, step', Budget(r.passes)).converged ==>
          ForLoop(t, step', Budget(maxIterations))
          == Shifted(ForLoop(abs(r.state), step', Budget(maxIterations - r.passes)), r.passes))
  }

  /** A loop whose steps trail those of another, run on a budget of
      `max_iterations`, keeps `inv` and trails the other loop. */
  lemma TrailingLoop<S(!new), T>(s: S, step: S -> (S, bool), t: T, step': T -> (T, bool),
                                 abs: S -> T, inv: S -> bool, maxIterations: int)
    requires inv(s) && abs(s) == t
    requires StepsTrail(step, step', abs, inv)
    ensures inv(ForLoop(s, step, Budget(maxIterations)).state)
    ensures Trails(t, step', maxIterations, ForLoop(s, step, Budget(maxIterations)), abs)
  {
    var r := ForLoop(s, step, Budget(maxIterations));
    ForLoopTrails(s, step, t, step', abs, inv, Budget(maxIterations));
    assert Budget(r.passes) == r.passes;
    if !ForLoop(t, step', r.passes).converged {
      ResumeWithin(t, step', maxIterations, r.passes);
    }
  }

  /** A loop whose first pass reports a change and whose second does not
      stops after two passes, given the budget for them. */
  lemma ForLoopTwoPasses<S>(s: S, step: S -> (S, bool), budget: nat)
    requires budget >= 2 && step(s).1 && !step(step(s).0).1
    ensures ForLoop(s, step, budget) == Outcome(step(step(s).0).0, 2, true)
  {
    assert ForLoop(step(s).0, step, budget - 1) == Outcome(step(step(s).0).0, 1, true);
  }

  /** A loop whose first two passes report a change runs a third pass when
      the budget allows it. */
  lemma ForLoopThirdPass<S>(s: S, step: S -> (S, bool), budget: nat)
    requires budget >= 3 && step(s).1 && step(step(s).0).1
    ensures ForLoop(s, step, budget).passes >= 3
  {
    var t := step(step(s).0).0;
    assert ForLoop(step(s).0, step, budget - 1).passes == ForLoop(t, step, budget - 2).passes + 1;
  }

  /** The while loop entered at `iter` runs exactly the passes of a for-loop
      with the budget it has left, at least one: its test comes after the
      body, so it runs one pass even when `max_iterations` is below `iter`.
      The pass count it reports is the `iter` at the break. */
  lemma {:induction false} WhileLoopIsForLoop<S>(s: S, step: S -> (S, bool), maxIterations: int, iter: nat)
    requires iter >= 1
    ensures WhileLoop(s, step, maxIterations, iter)
         == Shifted(ForLoop(s, step, if maxIterations > iter then maxIterations - iter + 1 else 1), iter - 1)
    decreases if maxIterations > iter then maxIterations - iter else 0
  {
    if step(s).1 && iter < maxIterations {
      WhileLoopIsForLoop(step(s).0, step, maxIterations, iter + 1);
    }
  }

  /** `for (i = 0; i < n; i++) { ... }` over the points: each visit returns
      the next state and whether it changed a cluster, and the sweep's flag
      is raised when any visit raised it. */
  function Sweep<S>(s: S, visit: (S, nat) -> (S, bool), n: nat): (r: (S, bool))
    ensures n == 0 ==> r == (s, false)
    decreases n
  {
    if n == 0 then (s, false)
    else
      var (t, moved) := Sweep(s, visit, n - 1);
      var (u, moved') := visit(t, n - 1);
      (u, moved || moved')
  }

  /** A property that every visit of the first n indices keeps holds after
      the sweep. */
  lemma {:induction false} SweepKeeps<S>(s: S, visit: (S, nat) -> (S, bool), inv: S -> bool, n: nat)
    requires inv(s)
    requires forall x, i: nat :: inv(x) && i < n ==> inv(visit(x, i).0)
    ensures inv(Sweep(s, visit, n).0)
    decreases n
  {
    if n > 0 {
      var m: nat := n - 1;
      SweepKeeps(s, visit, inv, m);
      var (x, _) := Sweep(s, visit, m);
      assert inv(visit(x, m).0);
    }
  }

  /** The visits of the first n indices keep `inv` and agree through `abs`
      on the states satisfying it, flags included. */
  ghost predicate VisitsAgree<S(!new), T>(visit: (S, nat) -> (S, bool), visit': (T, nat) -> (T, bool), abs: S -> T, inv: S -> bool, n: nat) {
    forall x, i: nat :: inv(x) && i < n ==> VisitAgrees(visit, visit', abs, inv, x, i)
  }

  /** The same for one state `x` and index `i`. */
  ghost predicate VisitAgrees<S, T>(visit: (S, nat) -> (S, bool), visit': (T, nat) -> (T, bool), abs: S -> T, inv: S -> bool, x: S, i: nat) {
    && inv(visit(x, i).0)
    && abs(visit(x, i).0) == visit'(abs(x), i).0
    && visit(x, i).1 == visit'(abs(x), i).1
  }

  /** Two sweeps whose visits agree through `abs` on states satisfying a kept
      property end in corresponding states with the same flag. */
  lemma {:induction false} SweepSimulation<S(!new), T>(
    s: S, visit: (S, nat) -> (S, bool), t: T, visit': (T, nat) -> (T, bool), abs: S -> T, inv: S -> bool, n: nat)
    requires inv(s) && abs(s) == t
    requires VisitsAgree(visit, visit', abs, inv, n)
    ensures inv(Sweep(s, visit, n).0)
    ensures abs(Sweep(s, visit, n).0) == Sweep(t, visit', n).0
    ensures Sweep(s, visit, n).1 == Sweep(t, visit', n).1
    decreases n
  {
    if n > 0 {
      var m: nat := n - 1;
      SweepSimulation(s, visit, t, visit', abs, inv, m);
      var (x, moved) := Sweep(s, visit, m);
      assert VisitAgrees(visit, visit', abs, inv, x, m);
    }
  }
}

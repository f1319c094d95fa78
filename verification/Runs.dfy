/** Runs of a step relation: sequences of states in which each state is a step away from the one before.
    Every concurrent program of this project is a state type with a step relation, and its whole-run
    theorems come from the three lemmas below. */
module Runs {

  ghost predicate StepAt<S(!new)>(next: (S, S) -> bool, run: seq<S>, i: nat)
    requires i + 1 < |run|
  {
    next(run[i], run[i + 1])
  }

  ghost predicate IsRun<S(!new)>(next: (S, S) -> bool, run: seq<S>) {
    && run != []
    && forall i: nat | i + 1 < |run| :: StepAt(next, run, i)
  }

  ghost predicate Reaches<S(!new)>(next: (S, S) -> bool, from: S, to: S) {
    exists run :: IsRun(next, run) && run[0] == from && run[|run| - 1] == to
  }

  ghost predicate Inductive<S(!new)>(next: (S, S) -> bool, inv: S -> bool) {
    forall s, t :: inv(s) && next(s, t) ==> inv(t)
  }

  ghost predicate Decreasing<S(!new)>(next: (S, S) -> bool, inv: S -> bool, measure: S -> nat) {
    forall s, t :: inv(s) && next(s, t) ==> measure(t) < measure(s)
  }

  /** What holds at first and is kept by each step holds all along a run. */
  lemma {:induction false} InvariantAlong<S(!new)>(next: (S, S) -> bool, inv: S -> bool, run: seq<S>, k: nat)
    requires IsRun(next, run) && inv(run[0]) && Inductive(next, inv)
    requires k < |run|
    ensures inv(run[k])
  {
    if k > 0 {
      InvariantAlong(next, inv, run, k - 1);
      assert StepAt(next, run, k - 1);
    }
  }

  /** A measure that drops at each step bounds the number of steps. */
  lemma {:induction false} LengthBounded<S(!new)>(
    next: (S, S) -> bool, inv: S -> bool, measure: S -> nat, run: seq<S>, k: nat)
    requires IsRun(next, run) && inv(run[0]) && Inductive(next, inv) && Decreasing(next, inv, measure)
    requires k < |run|
    ensures inv(run[k]) && k + measure(run[k]) <= measure(run[0])
  {
    if k > 0 {
      LengthBounded(next, inv, measure, run, k - 1);
      assert StepAt(next, run, k - 1);
    }
  }

  lemma ReachesItself<S(!new)>(next: (S, S) -> bool, s: S)
    ensures Reaches(next, s, s)
  {
    assert IsRun(next, [s]);
  }

  lemma ReachesFurther<S(!new)>(next: (S, S) -> bool, s: S, t: S, u: S)
    requires Reaches(next, s, t) && next(t, u)
    ensures Reaches(next, s, u)
  {
    var run :| IsRun(next, run) && run[0] == s && run[|run| - 1] == t;
    var longer := run + [u];
    forall i: nat | i + 1 < |longer| ensures StepAt(next, longer, i) {
      if i + 1 < |run| {
        assert StepAt(next, run, i);
      }
    }
    assert IsRun(next, longer);
  }

  /** An inductive invariant holds of every reachable state. */
  lemma InvariantReachable<S(!new)>(next: (S, S) -> bool, inv: S -> bool, s: S, t: S)
    requires Reaches(next, s, t) && inv(s) && Inductive(next, inv)
    ensures inv(t)
  {
    var run :| IsRun(next, run) && run[0] == s && run[|run| - 1] == t;
    InvariantAlong(next, inv, run, |run| - 1);
  }

  // ---- runs with the actions that make them

  ghost predicate Performs<S(!new), A(!new)>(step: (S, A, S) -> bool, run: seq<S>, actions: seq<A>) {
    && |run| == |actions| + 1
    && forall i | 0 <= i < |actions| :: step(run[i], actions[i], run[i + 1])
  }

  lemma PerformsLess<S(!new), A(!new)>(step: (S, A, S) -> bool, run: seq<S>, actions: seq<A>)
    requires Performs(step, run, actions) && actions != []
    ensures Performs(step, run[..|actions|], actions[..|actions| - 1])
    ensures step(run[|actions| - 1], actions[|actions| - 1], run[|actions|])
  {
    var earlier := run[..|actions|];
    forall i | 0 <= i < |actions| - 1 ensures step(earlier[i], actions[..|actions| - 1][i], earlier[i + 1]) {
      assert step(run[i], actions[i], run[i + 1]);
    }
  }

  lemma {:induction false} PerformedReaches<S(!new), A(!new)>(
    next: (S, S) -> bool, step: (S, A, S) -> bool, run: seq<S>, actions: seq<A>)
    requires Performs(step, run, actions)
    requires forall s, a, t | step(s, a, t) :: next(s, t)
    ensures Reaches(next, run[0], run[|actions|])
  {
    if actions == [] {
      ReachesItself(next, run[0]);
    } else {
      PerformsLess(step, run, actions);
      PerformedReaches(next, step, run[..|actions|], actions[..|actions| - 1]);
      ReachesFurther(next, run[0], run[|actions| - 1], run[|actions|]);
    }
  }
}

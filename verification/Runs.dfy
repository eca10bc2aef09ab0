/** Runs of a state machine, and what all of their states have in common. */
module Runs {

  ghost predicate StepsAt<S, A>(run: seq<S>, actions: seq<A>, step: (S, A, S) -> bool, i: nat)
    requires |run| == |actions| + 1 && i < |actions|
  {
    step(run[i], actions[i], run[i + 1])
  }

  /** A start, and then one step for each action. */
  ghost predicate IsRunOf<S, A>(run: seq<S>, actions: seq<A>, starts: S -> bool, step: (S, A, S) -> bool) {
    && |run| == |actions| + 1 && starts(run[0])
    && forall i :: 0 <= i < |actions| ==> StepsAt(run, actions, step, i)
  }

  /** What every start has and every step keeps, every state of every run has. */
  lemma {:induction false} RunKeeps<S(!new), A(!new)>(run: seq<S>, actions: seq<A>, starts: S -> bool,
                                                      step: (S, A, S) -> bool, inv: S -> bool, n: nat)
    requires IsRunOf(run, actions, starts, step) && n < |run|
    requires forall s :: starts(s) ==> inv(s)
    requires forall s, a, t :: inv(s) && step(s, a, t) ==> inv(t)
    ensures inv(run[n])
  {
    if n > 0 {
      RunKeeps(run, actions, starts, step, inv, n - 1);
      assert StepsAt(run, actions, step, n - 1);
    }
  }
}

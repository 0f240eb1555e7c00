/** Runs of a transition system, and the two ways the other modules reason about them. */
module Traces {

  /** A finite run: it starts in an initial state and every state follows from the one before it. */
  ghost predicate Trace<S(!new)>(run: seq<S>, init: S -> bool, step: (S, S) -> bool) {
    && run != [] && init(run[0])
    && forall i, j {:trigger step(run[i], run[j])} :: 0 <= i && j == i + 1 < |run| ==> step(run[i], run[j])
  }

  /** What holds initially and is kept by every step holds throughout. */
  lemma {:induction false} Always<S(!new)>(run: seq<S>, init: S -> bool, step: (S, S) -> bool, inv: S -> bool, k: nat)
    requires Trace(run, init, step) && k < |run|
    requires forall s :: init(s) ==> inv(s)
    requires forall s, s' :: inv(s) && step(s, s') ==> inv(s')
    ensures inv(run[k])
  {
    if k > 0 {
      Always(run, init, step, inv, k - 1);
      assert step(run[k - 1], run[k]);
    }
  }

  /** If `phase` can only be entered through a state satisfying `seen`, then looking back from a state in
      that phase there is such a state, with the run in that phase ever since. */
  lemma {:induction false} LookBack<S(!new)>(run: seq<S>, init: S -> bool, step: (S, S) -> bool, inv: S -> bool,
                                             phase: S -> bool, seen: S -> bool, j: nat) returns (k: nat)
    requires Trace(run, init, step) && j < |run| && phase(run[j])
    requires forall s :: init(s) ==> inv(s) && !phase(s)
    requires forall s, s' :: inv(s) && step(s, s') ==> inv(s') && (phase(s') ==> phase(s) || seen(s'))
    ensures k <= j && seen(run[k]) && forall i :: k <= i <= j ==> phase(run[i])
  {
    Always(run, init, step, inv, j);
    if seen(run[j]) {
      k := j;
    } else {
      Always(run, init, step, inv, j - 1);
      assert step(run[j - 1], run[j]);
      k := LookBack(run, init, step, inv, phase, seen, j - 1);
    }
  }
}

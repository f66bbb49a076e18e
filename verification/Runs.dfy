/** Whole runs of a state machine: what one step keeps, every run keeps. */
module Runs {

  ghost predicate IsRun<S(!new)>(init: S -> bool, next: (S, S) -> bool, run: seq<S>) {
    && |run| > 0
    && init(run[0])
    && forall i | 0 < i < |run| :: next(run[i - 1], run[i])
  }

  /** An inductive predicate holds in every state of every run. */
  lemma {:induction false} Always<S(!new)>(init: S -> bool, next: (S, S) -> bool, inv: S -> bool, run: seq<S>, i: nat)
    requires IsRun(init, next, run) && i < |run|
    requires forall s :: init(s) ==> inv(s)
    requires forall s, t :: inv(s) && next(s, t) ==> inv(t)
    ensures inv(run[i])
    decreases i
  {
    if i > 0 {
      Always(init, next, inv, run, i - 1);
    }
  }

  /** A predicate that no step can falsify lasts from the moment it becomes true. */
  lemma {:induction false} Henceforth<S(!new)>(init: S -> bool, next: (S, S) -> bool, inv: S -> bool,
                                              p: S -> bool, run: seq<S>, i: nat, j: nat)
    requires IsRun(init, next, run) && i <= j < |run|
    requires forall s :: init(s) ==> inv(s)
    requires forall s, t :: inv(s) && next(s, t) ==> inv(t)
    requires forall s, t :: inv(s) && p(s) && next(s, t) ==> p(t)
    requires p(run[i])
    ensures p(run[j])
    decreases j
  {
    if i < j {
      Henceforth(init, next, inv, p, run, i, j - 1);
      Always(init, next, inv, run, j - 1);
    }
  }

  /** A transitive relation between neighbouring states relates any two states of a run, as
      long as the run stays inside `inside`. */
  lemma {:induction false} Throughout<S(!new)>(init: S -> bool, next: (S, S) -> bool, inv: S -> bool, inside: S -> bool,
                                              rel: (S, S) -> bool, run: seq<S>, i: nat, j: nat)
    requires IsRun(init, next, run) && i <= j < |run|
    requires forall s :: init(s) ==> inv(s)
    requires forall s, t :: inv(s) && next(s, t) ==> inv(t)
    requires forall k | i <= k <= j :: inside(run[k])
    requires forall s :: inside(s) ==> rel(s, s)
    requires forall r, s, t :: inv(s) && inside(s) && inside(t) && rel(r, s) && next(s, t) ==> rel(r, t)
    ensures rel(run[i], run[j])
    decreases j
  {
    if i < j {
      Throughout(init, next, inv, inside, rel, run, i, j - 1);
      Always(init, next, inv, run, j - 1);
    }
  }
}

/** Executions of a step machine: sequences of states in which each follows from the one before. */
module Executions {

  ghost predicate Linked<S>(follows: (S, S) -> bool, run: seq<S>) {
    && run != []
    && forall i: nat | i + 1 < |run| :: follows(run[i], run[i + 1])
  }

  /** The beginning of an execution is one. */
  lemma Prefix<S>(follows: (S, S) -> bool, run: seq<S>, k: nat)
    requires Linked(follows, run) && 0 < k <= |run|
    ensures Linked(follows, run[..k])
  {
  }
}

/** Interleaved executions.

    Every concurrent protocol of this project is a step function: `step(s, a)` is the state after the
    atomic action `a`, or `None` when `a` cannot happen in `s` (a blocked wait, an action of a thread that
    is elsewhere in its code). A run is any finite sequence of actions, so any interleaving of any number of
    threads. */
module Runs {

  datatype Option<+T> = None | Some(value: T)

  /** The state after performing `acts` in order from `s`, or `None` if some action is not possible. */
  function Exec<S, A>(step: (S, A) -> Option<S>, s: S, acts: seq<A>): Option<S>
    decreases |acts|
  {
    if acts == [] then Some(s)
    else
      match Exec(step, s, acts[..|acts| - 1])
      case None => None
      case Some(p) => step(p, acts[|acts| - 1])
  }

  /** A predicate that holds at the start and that every step keeps holds after every run. */
  lemma {:induction false} Invariance<S(!new), A(!new)>(step: (S, A) -> Option<S>, inv: S -> bool, s: S, acts: seq<A>)
    requires inv(s)
    requires forall p, a :: inv(p) && step(p, a).Some? ==> inv(step(p, a).value)
    ensures Exec(step, s, acts).Some? ==> inv(Exec(step, s, acts).value)
    decreases |acts|
  {
    if acts != [] {
      Invariance(step, inv, s, acts[..|acts| - 1]);
    }
  }

  /** A run can be given by the states it goes through. */
  lemma {:induction false} Trace<S, A>(step: (S, A) -> Option<S>, states: seq<S>, acts: seq<A>)
    requires |states| == |acts| + 1
    requires forall i :: 0 <= i < |acts| ==> step(states[i], acts[i]) == Some(states[i + 1])
    ensures Exec(step, states[0], acts) == Some(states[|acts|])
    decreases |acts|
  {
    if acts != [] {
      Trace(step, states[..|acts|], acts[..|acts| - 1]);
    }
  }
}

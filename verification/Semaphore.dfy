/** Dispatch semaphores: a user-level counter over a kernel semaphore, with the undo of timed-out waits.

    Every atomic operation is an action. `tokens` is the count of the kernel semaphore, `pending` the number
    of signallers between their increment and their kernel signal, `slow` the threads in the slow path of
    dispatch_semaphore_wait. `signals`, `successes` and `timeouts` are history. */
module Semaphore {
  import opened Runs

  type Tid = nat

  datatype Timeout = Now | Until | Forever

  datatype Slow =
    | Blocked                 // in the timed kernel wait
    | Undo                    // timed out, about to read the counter
    | Undoing(seen: int)      // in the compare-exchange loop
    | Draining                // in the kernel wait without timeout

  datatype State = State(
    initial: nat, value: int, tokens: nat, pending: nat, slow: map<Tid, Slow>, signals: nat, successes: nat, timeouts: nat)

  /** dispatch_semaphore_create refuses a negative value. */
  function Create(value: int): Option<State> {
    if value < 0 then None else Some(State(value, value, 0, 0, map[], 0, 0, 0))
  }

  datatype Action =
    | Signal | KernelSignal | Wait(t: Tid, timeout: Timeout)
    | Woken(t: Tid) | TimeOut(t: Tid) | Read(t: Tid) | Exchange(t: Tid, spurious: bool)

  function Step(s: State, a: Action): Option<State> {
    match a
    case Signal =>
      var n := s.(value := s.value + 1, signals := s.signals + 1);
      Some(if n.value > 0 then n else n.(pending := s.pending + 1))
    case KernelSignal => if s.pending == 0 then None else Some(s.(pending := s.pending - 1, tokens := s.tokens + 1))
    case Wait(t, timeout) =>
      if t in s.slow then None
      else if s.value - 1 >= 0 then Some(s.(value := s.value - 1, successes := s.successes + 1))
      else
        var phase := match timeout case Now => Undo case Until => Blocked case Forever => Draining;
        Some(s.(value := s.value - 1, slow := s.slow[t := phase]))
    case Woken(t) =>
      if t in s.slow && (s.slow[t].Blocked? || s.slow[t].Draining?) && s.tokens > 0 then
        Some(s.(tokens := s.tokens - 1, slow := s.slow - {t}, successes := s.successes + 1))
      else None
    case TimeOut(t) => if t in s.slow && s.slow[t].Blocked? then Some(s.(slow := s.slow[t := Undo])) else None
    case Read(t) => if t in s.slow && s.slow[t].Undo? then Some(s.(slow := s.slow[t := Undoing(s.value)])) else None
    case Exchange(t, spurious) =>
      if t !in s.slow || !s.slow[t].Undoing? then None
      else if s.slow[t].seen >= 0 then Some(s.(slow := s.slow[t := Draining]))
      else if s.value == s.slow[t].seen && !spurious then
        Some(s.(value := s.value + 1, slow := s.slow - {t}, timeouts := s.timeouts + 1))
      else Some(s.(slow := s.slow[t := Undoing(s.value)]))
  }

  function Owing(value: int): nat { if value < 0 then -value else 0 }

  /** Wakeups that exist or are on the way are what the slow threads wait for, less what no signal has come for. */
  ghost predicate Inv(s: State) {
    && s.tokens + s.pending == |s.slow| - Owing(s.value)
    && s.successes + |s.slow| + s.value == s.initial + s.signals
  }

  lemma SlowCard(m: map<Tid, Slow>, t: Tid, p: Slow)
    ensures |m[t := p]| == if t in m then |m| else |m| + 1
    ensures |m - {t}| == if t in m then |m| - 1 else |m|
  {
    assert m[t := p].Keys == m.Keys + {t};
    assert (m - {t}).Keys == m.Keys - {t};
  }

  lemma StepKeeps(s: State, a: Action)
    requires Inv(s) && Step(s, a).Some?
    ensures Inv(Step(s, a).value)
  {
    if !a.Signal? && !a.KernelSignal? {
      var n := Step(s, a).value;
      SlowCard(s.slow, a.t, if a.t in n.slow then n.slow[a.t] else Undo);
    }
  }

  lemma Reachable(s: State, acts: seq<Action>)
    requires Create(s.initial) == Some(s)
    ensures var r := Exec(Step, s, acts); r.Some? ==> Inv(r.value)
  {
    forall p, a | Inv(p) && Step(p, a).Some? ensures Inv(Step(p, a).value) {
      StepKeeps(p, a);
    }
    Invariance(Step, Inv, s, acts);
  }

  /** However signals, waits and timeouts interleave, there are never more successful waits than the initial value
      plus the signals; every wait that was begun has succeeded, has timed out or is still in the slow path, and one
      that times out gives back exactly what it took. */
  lemma NoFreePasses(init: State, acts: seq<Action>, s: State)
    requires Create(init.initial) == Some(init) && Exec(Step, init, acts) == Some(s)
    ensures s.successes <= s.initial + s.signals
    ensures s.successes + |s.slow| + s.value == s.initial + s.signals
    ensures s.successes + s.timeouts + |s.slow| == Waits(acts) && s.signals == Signals(acts)
  {
    Reachable(init, acts);
    CallsCounted(init, acts, s);
  }

  /** No lost wakeup: a wakeup exists or is on the way for every slow thread exactly when the counter is not
      negative; in general for all but `-value` of them, so for none exactly when there are no more than that. */
  lemma WakeupsMatch(init: State, acts: seq<Action>, s: State)
    requires Create(init.initial) == Some(init) && Exec(Step, init, acts) == Some(s)
    ensures s.tokens + s.pending == |s.slow| - Owing(s.value)
    ensures s.tokens + s.pending == |s.slow| <==> s.value >= 0
    ensures s.tokens + s.pending > 0 <==> |s.slow| > Owing(s.value)
    ensures s.slow == map[] ==> s.tokens == 0 && s.pending == 0 && s.value >= 0
  {
    Reachable(init, acts);
  }

  // ---- How a wait ends -----------------------------------------------------------------------------------

  function Waits(acts: seq<Action>): nat {
    if acts == [] then 0 else Waits(acts[..|acts| - 1]) + if acts[|acts| - 1].Wait? then 1 else 0
  }

  function Signals(acts: seq<Action>): nat {
    if acts == [] then 0 else Signals(acts[..|acts| - 1]) + if acts[|acts| - 1].Signal? then 1 else 0
  }

  lemma StepCounts(s: State, a: Action)
    requires Step(s, a).Some?
    ensures var n := Step(s, a).value;
            && n.signals == s.signals + (if a.Signal? then 1 else 0) && n.initial == s.initial
            && n.successes + n.timeouts + |n.slow| == s.successes + s.timeouts + |s.slow| + if a.Wait? then 1 else 0
  {
    if !a.Signal? && !a.KernelSignal? {
      var n := Step(s, a).value;
      SlowCard(s.slow, a.t, if a.t in n.slow then n.slow[a.t] else Undo);
    }
  }

  /** Every wait that was begun has succeeded, has timed out, or is in the slow path; every signal is counted. */
  lemma {:induction false} CallsCounted(init: State, acts: seq<Action>, s: State)
    requires Create(init.initial) == Some(init) && Exec(Step, init, acts) == Some(s)
    ensures s.successes + s.timeouts + |s.slow| == Waits(acts) && s.signals == Signals(acts) && s.initial == init.initial
    decreases |acts|
  {
    if acts != [] {
      var p := Exec(Step, init, acts[..|acts| - 1]).value;
      CallsCounted(init, acts[..|acts| - 1], p);
      StepCounts(p, acts[|acts| - 1]);
    }
  }

  /** A wait takes one from the counter, and goes into the slow path exactly when there was none to take. */
  lemma WaitTakes(s: State, t: Tid, timeout: Timeout)
    requires t !in s.slow
    ensures Step(s, Wait(t, timeout)).Some?
    ensures var n := Step(s, Wait(t, timeout)).value;
            && n.value == s.value - 1 && (t in n.slow <==> s.value <= 0)
            && (t in n.slow ==> (n.slow[t].Undo? <==> timeout.Now?) && (n.slow[t].Draining? <==> timeout.Forever?))
  {
  }

  /** A thread leaves the slow path with a wakeup, or with a timeout that gives back what its wait took. */
  lemma SlowLeaves(s: State, a: Action, t: Tid)
    requires Step(s, a).Some? && t in s.slow && t !in Step(s, a).value.slow
    ensures var n := Step(s, a).value;
            || (a == Woken(t) && n == s.(tokens := s.tokens - 1, slow := n.slow, successes := s.successes + 1) && !s.slow[t].Undoing?)
            || (a == Exchange(t, false) && n == s.(value := s.value + 1, slow := n.slow, timeouts := s.timeouts + 1)
                && s.value < 0 && s.slow[t] == Undoing(s.value))
    ensures Step(s, a).value.slow == s.slow - {t}
  {
  }

  /** After `k` of the actions the counter is `v`. */
  ghost predicate Held(r: State, acts: seq<Action>, k: nat, v: int) {
    k <= |acts| && Exec(Step, r, acts[..k]).Some? && Exec(Step, r, acts[..k]).value.value == v
  }

  predicate Begins(a: Action, t: Tid) { a.Wait? && a.t == t }

  lemma SlowStep(s: State, a: Action, t: Tid)
    requires Step(s, a).Some? && !Begins(a, t) && t in Step(s, a).value.slow
    ensures t in s.slow
    ensures var was, now := s.slow[t], Step(s, a).value.slow[t];
            || now == was || now.Undo? || (now.Draining? && was.Undoing? && was.seen >= 0)
            || (now.Undoing? && now.seen == s.value)
  {
  }

  /** During one wait with a timeout: what the thread saw of the counter was its value at some moment of that wait, and
      it is draining only if it saw a counter that is not negative. */
  lemma {:induction false} UndoSees(r: State, t: Tid, acts: seq<Action>, s: State)
    requires t in r.slow && (r.slow[t].Undo? || r.slow[t].Blocked?) && Exec(Step, r, acts) == Some(s)
    requires forall i :: 0 <= i < |acts| ==> !Begins(acts[i], t)
    requires t in s.slow
    ensures s.slow[t].Undoing? ==> exists k: nat :: Held(r, acts, k, s.slow[t].seen)
    ensures s.slow[t].Draining? ==> exists k: nat, v: nat :: Held(r, acts, k, v)
    decreases |acts|
  {
    if acts != [] {
      var n := |acts| - 1;
      var front := acts[..n];
      var p := Exec(Step, r, front).value;
      SlowStep(p, acts[n], t);
      UndoSees(r, t, front, p);
      assert Held(r, acts, n, p.value);
      forall k: nat, v | Held(r, front, k, v) ensures Held(r, acts, k, v) {
        assert front[..k] == acts[..k];
      }
    }
  }

  /** The undo of a wait that began in `p`, at its exchange in `s`: the wait ends with a timeout exactly when the exchange
      finds the counter negative and as it was seen, and then the counter is one higher and no wakeup was touched; it
      goes on to drain exactly when the counter it saw was not negative, and the counter was that at some moment
      since; and otherwise it tries again with the counter of this moment. */
  lemma UndoEnds(p: State, t: Tid, timeout: Timeout, r: State, acts: seq<Action>, s: State, spurious: bool)
    requires Step(p, Wait(t, timeout)) == Some(r) && t in r.slow && !timeout.Forever?
    requires Exec(Step, r, acts) == Some(s) && forall i :: 0 <= i < |acts| ==> !Begins(acts[i], t)
    requires t in s.slow && s.slow[t].Undoing?
    ensures Step(s, Exchange(t, spurious)).Some?
    ensures var n, seen := Step(s, Exchange(t, spurious)).value, s.slow[t].seen;
            && (n.timeouts == s.timeouts + 1 <==> t !in n.slow)
            && (t !in n.slow <==> seen < 0 && s.value == seen && !spurious)
            && (t !in n.slow ==> n.value == s.value + 1 && n.tokens == s.tokens && n.pending == s.pending && n.successes == s.successes)
            && (t in n.slow ==> n == s.(slow := n.slow) && (n.slow[t].Draining? <==> seen >= 0))
            && (t in n.slow && seen < 0 ==> n.slow[t] == Undoing(s.value))
    ensures exists k: nat :: Held(r, acts, k, s.slow[t].seen)
  {
    UndoSees(r, t, acts, s);
  }

  /** A wait without timeout never times out: once draining, a thread leaves only with a wakeup. */
  lemma {:induction false} DrainsOn(r: State, t: Tid, acts: seq<Action>, s: State)
    requires t in r.slow && r.slow[t].Draining? && Exec(Step, r, acts) == Some(s) && Woken(t) !in acts
    ensures t in s.slow && s.slow[t].Draining?
    decreases |acts|
  {
    if acts != [] {
      var front, last := acts[..|acts| - 1], acts[|acts| - 1];
      assert acts == front + [last];
      DrainsOn(r, t, front, Exec(Step, r, front).value);
    }
  }

  /** No slow thread is stuck in the code: it can time out, read, exchange, and take any wakeup there is. */
  lemma SlowGoesOn(s: State, t: Tid)
    requires t in s.slow
    ensures match s.slow[t]
      case Blocked => Step(s, TimeOut(t)).Some? && (Step(s, Woken(t)).Some? <==> s.tokens > 0)
      case Undo => Step(s, Read(t)).Some? && Step(s, Read(t)).value.slow[t] == Undoing(s.value)
      case Undoing(_) => Step(s, Exchange(t, false)).Some?
      case Draining => Step(s, Woken(t)).Some? <==> s.tokens > 0
  {
  }

  // ---- A wakeup taken by another --------------------------------------------------------------------------

  const STEAL: seq<Action> :=
    [Wait(1, Now), Signal, KernelSignal, Read(1), Exchange(1, false), Wait(2, Forever), Woken(2)]

  /** The states of the run `STEAL` on a new semaphore of value 0. */
  function Stealing(k: nat): State {
    if k == 0 then State(0, 0, 0, 0, map[], 0, 0, 0)
    else if k == 1 then State(0, -1, 0, 0, map[1 := Undo], 0, 0, 0)
    else if k == 2 then State(0, 0, 0, 1, map[1 := Undo], 1, 0, 0)
    else if k == 3 then State(0, 0, 1, 0, map[1 := Undo], 1, 0, 0)
    else if k == 4 then State(0, 0, 1, 0, map[1 := Undoing(0)], 1, 0, 0)
    else if k == 5 then State(0, 0, 1, 0, map[1 := Draining], 1, 0, 0)
    else if k == 6 then State(0, -1, 1, 0, map[1 := Draining, 2 := Draining], 1, 0, 0)
    else State(0, -1, 0, 0, map[1 := Draining], 1, 1, 0)
  }

  lemma StealingStart(k: nat)
    requires k < 4
    ensures Step(Stealing(k), STEAL[k]) == Some(Stealing(k + 1))
  {
    if k == 0 {
      assert Step(Stealing(0), Wait(1, Now)).value.slow == Stealing(1).slow;
    } else if k == 3 {
      assert Step(Stealing(3), Read(1)).value.slow == Stealing(4).slow;
    }
  }

  lemma StealingEnd(k: nat)
    requires 4 <= k < 7
    ensures Step(Stealing(k), STEAL[k]) == Some(Stealing(k + 1))
  {
    if k == 4 {
      assert Step(Stealing(4), Exchange(1, false)).value.slow == Stealing(5).slow;
    } else if k == 5 {
      assert Step(Stealing(5), Wait(2, Forever)).value.slow == Stealing(6).slow;
    } else {
      assert Stealing(6).slow - {2} == Stealing(7).slow;
    }
  }

  /** A wait with a timeout that comes too late to undo waits for the wakeup of the signal it saw. Another waiter
      can take that wakeup, and then the timed wait stays blocked with none on the way. */
  lemma DrainedWakeupCanBeTaken()
    ensures var r := Exec(Step, Stealing(0), STEAL);
            r.Some? && r.value.slow == map[1 := Draining] && r.value.tokens + r.value.pending == 0
    ensures Create(0) == Some(Stealing(0))
  {
    var states := seq(8, k requires 0 <= k => Stealing(k));
    forall k | 0 <= k < 7 ensures Step(states[k], STEAL[k]) == Some(states[k + 1]) {
      if k < 4 { StealingStart(k); } else { StealingEnd(k); }
    }
    Trace(Step, states, STEAL);
  }
}

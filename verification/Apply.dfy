/** dispatch_apply: how the threads of one parallel apply share the indices, detect completion and free what they share.

    Thread 0 is the caller. Each access to the shared `da` is one step of one thread, so a run is a sequence of
    thread numbers. `stage`, `calls`, `ended`, `credited`, `notifier`, `inside` and `batch` are history. */
module Apply {
  import opened Runs

  type Tid = nat

  datatype Pc =
    | Begin             // about to take the first index
    | Read(at: nat)     // has an index, about to read the caller's da_dc
    | Running(at: nat)  // in the client's function
    | Again             // about to take the next index
    | Subtract          // no index left, about to subtract its count from da_todo
    | Notify            // subtracted the last items, about to signal the event
    | Leave             // at the exit; the caller waits here for the event
    | Drop              // about to decrement da_thr_cnt
    | Gone

  datatype Thread = Thread(pc: Pc, done: nat, batch: set<nat>)

  datatype Stage = Free | Taken(worker: Tid) | Done(worker: Tid) | Credited

  datatype State = State(
    index: nat, todo: int, thrCnt: int, signals: nat, freed: nat, threads: seq<Thread>,
    stage: seq<Stage>, calls: seq<nat>, ended: seq<nat>, credited: set<nat>, notifier: Option<Tid>, inside: set<Tid>)

  function Upto(n: nat): (r: set<nat>)
    ensures |r| == n && forall t :: t in r <==> 0 <= t < n
  {
    if n == 0 then {} else Upto(n - 1) + {n - 1}
  }

  /** The state in which _dispatch_apply_f has pushed its continuations. */
  function Start(iterations: nat, threads: nat): State {
    State(0, iterations, threads, 0, 0, seq(threads, _ => Thread(Begin, 0, {})),
          seq(iterations, _ => Free), seq(iterations, _ => 0), seq(iterations, _ => 0), {}, None,
          Upto(threads))
  }

  function Moved(s: State, t: Tid, pc: Pc): State
    requires t < |s.threads|
  {
    s.(threads := s.threads[t := s.threads[t].(pc := pc)])
  }

  /** Taking an index: da_index is incremented whether or not the index is any good. */
  function TakeIndex(s: State, t: Tid): State
    requires t < |s.threads| && |s.calls| == |s.stage|
  {
    var n := s.(index := s.index + 1);
    var first := s.threads[t].pc == Begin;
    if s.index >= |s.stage| then Moved(n, t, if first then Leave else Subtract)
    else if first then Moved(n, t, Read(s.index)).(stage := s.stage[s.index := Taken(t)])
    else Moved(n, t, Running(s.index)).(stage := s.stage[s.index := Taken(t)], calls := s.calls[s.index := s.calls[s.index] + 1])
  }

  function Finish(s: State, t: Tid, i: nat): State
    requires t < |s.threads| && i < |s.stage| == |s.ended|
  {
    s.(threads := s.threads[t := Thread(Again, s.threads[t].done + 1, s.threads[t].batch + {i})],
       stage := s.stage[i := Done(t)], ended := s.ended[i := s.ended[i] + 1])
  }

  /** All of the thread's finished calls are taken off da_todo at once. */
  function Settle(s: State, t: Tid): State
    requires t < |s.threads|
  {
    var todo, batch := s.todo - s.threads[t].done, s.threads[t].batch;
    var n := s.(todo := todo, credited := s.credited + batch,
                stage := seq(|s.stage|, i requires 0 <= i < |s.stage| => if i in batch then Credited else s.stage[i]));
    if todo == 0 then n.(threads := s.threads[t := Thread(Notify, 0, {})], notifier := Some(t))
    else n.(threads := s.threads[t := Thread(Leave, 0, {})])
  }

  function Exit(s: State, t: Tid): State
    requires t < |s.threads|
  {
    Moved(s, t, Gone).(thrCnt := s.thrCnt - 1, freed := s.freed + (if s.thrCnt - 1 == 0 then 1 else 0), inside := s.inside - {t})
  }

  function Step(s: State, t: Tid): Option<State> {
    if t >= |s.threads| || |s.calls| != |s.stage| || |s.ended| != |s.stage| then None
    else
      match s.threads[t].pc
      case Begin => Some(TakeIndex(s, t))
      case Again => Some(TakeIndex(s, t))
      case Read(i) => if i >= |s.calls| then None else Some(Moved(s, t, Running(i)).(calls := s.calls[i := s.calls[i] + 1]))
      case Running(i) => if i >= |s.stage| then None else Some(Finish(s, t, i))
      case Subtract => Some(Settle(s, t))
      case Notify => Some(Moved(s, t, Leave).(signals := s.signals + 1))
      case Leave => if t == 0 && s.signals == 0 then None else Some(Moved(s, t, Drop))
      case Drop => Some(Exit(s, t))
      case Gone => None
  }

  // The invariant, index by index and thread by thread.

  ghost predicate StageOk(index: nat, threads: seq<Thread>, stage: seq<Stage>, calls: seq<nat>, ended: seq<nat>,
                          credited: set<nat>, i: nat)
    requires i < |stage| == |calls| == |ended|
  {
    match stage[i]
    case Free => i >= index && calls[i] == 0 && ended[i] == 0 && i !in credited
    case Taken(t) =>
      && i < index && t < |threads| && ended[i] == 0 && i !in credited
      && (threads[t].pc == Read(i) || threads[t].pc == Running(i))
      && calls[i] == if threads[t].pc == Running(i) then 1 else 0
    case Done(t) => i < index && t < |threads| && i in threads[t].batch && calls[i] == 1 && ended[i] == 1 && i !in credited
    case Credited => i < index && i in credited && calls[i] == 1 && ended[i] == 1
  }

  ghost predicate ThreadOk(th: Thread, stage: seq<Stage>, t: Tid) {
    && th.done == |th.batch|
    && (forall i :: i in th.batch ==> i < |stage| && stage[i] == Done(t))
    && (th.pc.Read? || th.pc.Running? ==> th.pc.at < |stage| && stage[th.pc.at] == Taken(t))
    && (th.pc.Again? || th.pc.Subtract? ==> th.batch != {})
    && (!th.pc.Again? && !th.pc.Subtract? && !th.pc.Running? ==> th.batch == {})
  }

  ghost predicate CreditOk(s: State) {
    && (forall i :: i in s.credited ==> i < |s.stage| && s.stage[i] == Credited)
    && s.todo == |s.stage| - |s.credited|
  }

  ghost predicate SignalOk(s: State)
    requires 0 < |s.threads|
  {
    && s.signals <= 1
    && (s.todo == 0 <==> s.notifier.Some?)
    && (s.signals == 1 ==> s.notifier.Some?)
    && (forall t :: 0 <= t < |s.threads| ==> (s.threads[t].pc.Notify? <==> s.notifier == Some(t) && s.signals == 0))
    && (s.notifier.Some? ==> s.notifier.value < |s.threads|)
    && (s.threads[0].pc.Drop? || s.threads[0].pc.Gone? ==> s.signals == 1)
  }

  ghost predicate CountOk(s: State) {
    && (forall t :: t in s.inside <==> 0 <= t < |s.threads| && !s.threads[t].pc.Gone?)
    && s.thrCnt == |s.inside|
    && s.freed == if s.inside == {} then 1 else 0
  }

  ghost predicate Shape(s: State) {
    0 < |s.stage| == |s.calls| == |s.ended| && 0 < |s.threads|
  }

  ghost predicate StagesOk(s: State)
    requires Shape(s)
  {
    forall i :: 0 <= i < |s.stage| ==> StageOk(s.index, s.threads, s.stage, s.calls, s.ended, s.credited, i)
  }

  ghost predicate ThreadsOk(s: State) {
    forall t :: 0 <= t < |s.threads| ==> ThreadOk(s.threads[t], s.stage, t)
  }

  /** Threads stop only when the indices are used up. */
  ghost predicate UsedUp(s: State) {
    forall t :: 0 <= t < |s.threads| && Past(s.threads[t].pc) ==> s.index >= |s.stage|
  }

  predicate Past(pc: Pc) { pc.Subtract? || pc.Notify? || pc.Leave? || pc.Drop? || pc.Gone? }

  ghost predicate Inv(s: State) {
    Shape(s) && StagesOk(s) && ThreadsOk(s) && CreditOk(s) && SignalOk(s) && CountOk(s) && UsedUp(s)
  }

  lemma StartOk(iterations: nat, threads: nat)
    requires iterations > 0 && threads > 0
    ensures Inv(Start(iterations, threads))
  {
  }

  /** Past the last index: nothing but the position of the thread changes. */
  lemma TakeNothing(s: State, t: Tid)
    requires Inv(s) && t < |s.threads| && (s.threads[t].pc.Begin? || s.threads[t].pc.Again?) && s.index >= |s.stage|
    ensures Inv(TakeIndex(s, t))
  {
    var n := TakeIndex(s, t);
    forall i | 0 <= i < |n.stage| ensures StageOk(n.index, n.threads, n.stage, n.calls, n.ended, n.credited, i) {
      assert StageOk(s.index, s.threads, s.stage, s.calls, s.ended, s.credited, i);
    }
    forall u | 0 <= u < |n.threads| ensures ThreadOk(n.threads[u], n.stage, u) {
      assert ThreadOk(s.threads[u], s.stage, u);
    }
  }

  lemma TakeOne(s: State, t: Tid)
    requires Inv(s) && t < |s.threads| && (s.threads[t].pc.Begin? || s.threads[t].pc.Again?) && s.index < |s.stage|
    ensures Inv(TakeIndex(s, t))
  {
    TakeStages(s, t);
    TakeThreads(s, t);
  }

  lemma TakeStages(s: State, t: Tid)
    requires Shape(s) && StagesOk(s) && ThreadsOk(s) && s.index < |s.stage|
    requires t < |s.threads| && (s.threads[t].pc.Begin? || s.threads[t].pc.Again?)
    ensures StagesOk(TakeIndex(s, t)) && s.stage[s.index].Free?
  {
    var n := TakeIndex(s, t);
    forall i | 0 <= i < |n.stage| ensures StageOk(n.index, n.threads, n.stage, n.calls, n.ended, n.credited, i) {
      assert StageOk(s.index, s.threads, s.stage, s.calls, s.ended, s.credited, i);
    }
    assert StageOk(s.index, s.threads, s.stage, s.calls, s.ended, s.credited, s.index);
  }

  lemma TakeThreads(s: State, t: Tid)
    requires Shape(s) && ThreadsOk(s) && s.index < |s.stage| && s.stage[s.index].Free?
    requires t < |s.threads| && (s.threads[t].pc.Begin? || s.threads[t].pc.Again?)
    ensures ThreadsOk(TakeIndex(s, t))
  {
    var n := TakeIndex(s, t);
    forall u | 0 <= u < |n.threads| ensures ThreadOk(n.threads[u], n.stage, u) {
      assert ThreadOk(s.threads[u], s.stage, u);
    }
  }

  lemma ReadKeeps(s: State, t: Tid)
    requires Inv(s) && t < |s.threads| && s.threads[t].pc.Read? && Step(s, t).Some?
    ensures Inv(Step(s, t).value)
  {
    var n := Step(s, t).value;
    assert ThreadOk(s.threads[t], s.stage, t);
    forall i | 0 <= i < |n.stage| ensures StageOk(n.index, n.threads, n.stage, n.calls, n.ended, n.credited, i) {
      assert StageOk(s.index, s.threads, s.stage, s.calls, s.ended, s.credited, i);
    }
    forall u | 0 <= u < |n.threads| ensures ThreadOk(n.threads[u], n.stage, u) {
      assert ThreadOk(s.threads[u], s.stage, u);
    }
  }

  lemma FinishKeeps(s: State, t: Tid)
    requires Inv(s) && t < |s.threads| && s.threads[t].pc.Running? && Step(s, t).Some?
    ensures Inv(Step(s, t).value)
  {
    assert ThreadOk(s.threads[t], s.stage, t);
    FinishStages(s, t);
    FinishThreads(s, t);
  }

  lemma FinishStages(s: State, t: Tid)
    requires Shape(s) && StagesOk(s) && ThreadsOk(s) && t < |s.threads| && s.threads[t].pc.Running? && Step(s, t).Some?
    ensures StagesOk(Step(s, t).value)
  {
    var n, at := Step(s, t).value, s.threads[t].pc.at;
    assert ThreadOk(s.threads[t], s.stage, t);
    assert StageOk(s.index, s.threads, s.stage, s.calls, s.ended, s.credited, at);
    forall i | 0 <= i < |n.stage| ensures StageOk(n.index, n.threads, n.stage, n.calls, n.ended, n.credited, i) {
      assert StageOk(s.index, s.threads, s.stage, s.calls, s.ended, s.credited, i);
    }
  }

  lemma FinishThreads(s: State, t: Tid)
    requires Shape(s) && ThreadsOk(s) && t < |s.threads| && s.threads[t].pc.Running? && Step(s, t).Some?
    ensures ThreadsOk(Step(s, t).value)
  {
    var n := Step(s, t).value;
    assert ThreadOk(s.threads[t], s.stage, t);
    forall u | 0 <= u < |n.threads| ensures ThreadOk(n.threads[u], n.stage, u) {
      assert ThreadOk(s.threads[u], s.stage, u);
    }
  }

  lemma {:induction false} SubsetSize(a: set<nat>, b: set<nat>)
    requires a <= b
    ensures |a| <= |b| && (|a| == |b| ==> a == b)
    decreases a
  {
    if a != {} {
      var x :| x in a;
      SubsetSize(a - {x}, b - {x});
    }
  }

  lemma DisjointSize(a: set<nat>, b: set<nat>)
    requires a !! b
    ensures |a + b| == |a| + |b|
  {
  }

  /** Unsettled calls are not credited yet, so there is still something to do. */
  lemma SettleCount(s: State, t: Tid)
    requires Inv(s) && t < |s.threads| && s.threads[t].pc.Subtract?
    ensures |s.credited + s.threads[t].batch| == |s.credited| + s.threads[t].done <= |s.stage|
    ensures s.threads[t].done > 0
  {
    var batch := s.threads[t].batch;
    assert ThreadOk(s.threads[t], s.stage, t);
    DisjointSize(s.credited, batch);
    SubsetSize(s.credited + batch, Upto(|s.stage|));
  }

  lemma SettleKeeps(s: State, t: Tid)
    requires Inv(s) && t < |s.threads| && s.threads[t].pc.Subtract?
    ensures Inv(Settle(s, t))
  {
    SettleCount(s, t);
    SettleStages(s, t);
    SettleThreads(s, t);
  }

  lemma SettleThreads(s: State, t: Tid)
    requires ThreadsOk(s) && t < |s.threads| && s.threads[t].pc.Subtract?
    ensures ThreadsOk(Settle(s, t))
  {
    var n := Settle(s, t);
    assert ThreadOk(s.threads[t], s.stage, t);
    forall u | 0 <= u < |n.threads| ensures ThreadOk(n.threads[u], n.stage, u) {
      assert ThreadOk(s.threads[u], s.stage, u);
    }
  }

  lemma SettleStages(s: State, t: Tid)
    requires Inv(s) && t < |s.threads| && s.threads[t].pc.Subtract?
    ensures StagesOk(Settle(s, t))
  {
    var n := Settle(s, t);
    assert ThreadOk(s.threads[t], s.stage, t);
    forall i | 0 <= i < |n.stage| ensures StageOk(n.index, n.threads, n.stage, n.calls, n.ended, n.credited, i) {
      assert StageOk(s.index, s.threads, s.stage, s.calls, s.ended, s.credited, i);
    }
  }

  /** The steps that only move the thread, or only count. */
  lemma MoveKeeps(s: State, t: Tid)
    requires Inv(s) && t < |s.threads| && (s.threads[t].pc.Notify? || s.threads[t].pc.Leave?) && Step(s, t).Some?
    ensures Inv(Step(s, t).value)
  {
    var n := Step(s, t).value;
    forall i | 0 <= i < |n.stage| ensures StageOk(n.index, n.threads, n.stage, n.calls, n.ended, n.credited, i) {
      assert StageOk(s.index, s.threads, s.stage, s.calls, s.ended, s.credited, i);
    }
    forall u | 0 <= u < |n.threads| ensures ThreadOk(n.threads[u], n.stage, u) {
      assert ThreadOk(s.threads[u], s.stage, u);
    }
  }

  lemma ExitKeeps(s: State, t: Tid)
    requires Inv(s) && t < |s.threads| && s.threads[t].pc.Drop?
    ensures Inv(Exit(s, t))
  {
    var n := Exit(s, t);
    forall i | 0 <= i < |n.stage| ensures StageOk(n.index, n.threads, n.stage, n.calls, n.ended, n.credited, i) {
      assert StageOk(s.index, s.threads, s.stage, s.calls, s.ended, s.credited, i);
    }
    forall u | 0 <= u < |n.threads| ensures ThreadOk(n.threads[u], n.stage, u) {
      assert ThreadOk(s.threads[u], s.stage, u);
    }
    assert t in s.inside;
  }

  lemma StepKeeps(s: State, t: Tid)
    requires Inv(s) && Step(s, t).Some?
    ensures Inv(Step(s, t).value)
  {
    match s.threads[t].pc
    case Begin => if s.index < |s.stage| { TakeOne(s, t); } else { TakeNothing(s, t); }
    case Again => if s.index < |s.stage| { TakeOne(s, t); } else { TakeNothing(s, t); }
    case Read(_) => ReadKeeps(s, t);
    case Running(_) => FinishKeeps(s, t);
    case Subtract => SettleKeeps(s, t);
    case Notify => MoveKeeps(s, t);
    case Leave => MoveKeeps(s, t);
    case Drop => ExitKeeps(s, t);
  }

  lemma Reachable(iterations: nat, threads: nat, run: seq<Tid>)
    requires iterations > 0 && threads > 0
    ensures var r := Exec(Step, Start(iterations, threads), run); r.Some? ==> Inv(r.value)
  {
    forall p, t | Inv(p) && Step(p, t).Some? ensures Inv(Step(p, t).value) {
      StepKeeps(p, t);
    }
    StartOk(iterations, threads);
    Invariance(Step, Inv, Start(iterations, threads), run);
  }

  /** No index is invoked twice, in any run; the event is signalled and the shared state freed at most once. */
  lemma AtMostOnce(iterations: nat, threads: nat, run: seq<Tid>, s: State, i: nat)
    requires iterations > 0 && threads > 0 && Exec(Step, Start(iterations, threads), run) == Some(s)
    requires i < |s.calls|
    ensures s.calls[i] <= 1 && s.signals <= 1 && s.freed <= 1
  {
    Reachable(iterations, threads, run);
    assert StageOk(s.index, s.threads, s.stage, s.calls, s.ended, s.credited, i);
  }

  ghost predicate AllInvoked(s: State) {
    |s.calls| == |s.ended| && forall i :: 0 <= i < |s.calls| ==> s.calls[i] == 1 && s.ended[i] == 1
  }

  /** Once the event is signalled, every index has been invoked exactly once and every invocation has returned. */
  lemma SignalledMeansDone(s: State)
    requires Inv(s) && s.signals == 1
    ensures AllInvoked(s) && s.credited == Upto(|s.stage|)
  {
    SubsetSize(s.credited, Upto(|s.stage|));
    forall i | 0 <= i < |s.calls| ensures s.calls[i] == 1 && s.ended[i] == 1 {
      assert i in s.credited;
      assert StageOk(s.index, s.threads, s.stage, s.calls, s.ended, s.credited, i);
    }
  }

  /** The caller gets past its wait only after every index has been invoked exactly once and all invocations
      returned. From then on no thread reads the caller's da_dc or runs the client's function. */
  lemma CallerWaits(iterations: nat, threads: nat, run: seq<Tid>, s: State)
    requires iterations > 0 && threads > 0 && Exec(Step, Start(iterations, threads), run) == Some(s)
    requires |s.threads| > 0 && (s.threads[0].pc.Drop? || s.threads[0].pc.Gone?)
    ensures AllInvoked(s) && s.signals == 1
    ensures forall t :: 0 <= t < |s.threads| ==> !s.threads[t].pc.Read? && !s.threads[t].pc.Running?
  {
    Reachable(iterations, threads, run);
    SignalledMeansDone(s);
    forall t | 0 <= t < |s.threads| ensures !s.threads[t].pc.Read? && !s.threads[t].pc.Running? {
      assert ThreadOk(s.threads[t], s.stage, t);
    }
  }

  /** Whatever step a thread can still take, the shared state has not been freed; and when all threads are gone it has
      been freed once, the event was signalled once and every index was invoked exactly once. */
  lemma FreedLast(iterations: nat, threads: nat, run: seq<Tid>, s: State, t: Tid)
    requires iterations > 0 && threads > 0 && Exec(Step, Start(iterations, threads), run) == Some(s)
    ensures Step(s, t).Some? ==> s.freed == 0
    ensures (forall u :: 0 <= u < |s.threads| ==> s.threads[u].pc.Gone?) ==> s.freed == 1 && s.signals == 1 && AllInvoked(s)
  {
    Reachable(iterations, threads, run);
    if Step(s, t).Some? {
      assert t in s.inside;
    }
    if forall u :: 0 <= u < |s.threads| ==> s.threads[u].pc.Gone? {
      assert s.threads[0].pc.Gone?;
      SignalledMeansDone(s);
      assert forall u :: u !in s.inside;
    }
  }

  /** No run gets stuck: as long as some thread is not gone, some thread can take a step. */
  lemma NeverStuck(iterations: nat, threads: nat, run: seq<Tid>, s: State)
    requires iterations > 0 && threads > 0 && Exec(Step, Start(iterations, threads), run) == Some(s)
    requires s.inside != {}
    ensures exists t :: Step(s, t).Some?
  {
    Reachable(iterations, threads, run);
    var t :| t in s.inside;
    assert ThreadOk(s.threads[t], s.stage, t);
    if Step(s, t).None? {
      Unblocked(s);
    }
  }

  lemma Uncredited(credited: set<nat>, n: nat) returns (i: nat)
    requires |credited| != n && forall k :: k in credited ==> k < n
    ensures i < n && i !in credited
  {
    assert credited <= Upto(n) && credited != Upto(n);
    assert Upto(n) - credited != {};
    i :| i in Upto(n) - credited;
  }

  /** When the caller waits, somebody is still on the way to signalling. */
  lemma Unblocked(s: State)
    requires Inv(s) && s.threads[0].pc.Leave? && s.signals == 0
    ensures exists t :: Step(s, t).Some?
  {
    if s.notifier.Some? {
      assert Step(s, s.notifier.value).Some?;
    } else {
      var i := Uncredited(s.credited, |s.stage|);
      assert StageOk(s.index, s.threads, s.stage, s.calls, s.ended, s.credited, i);
      assert s.index >= |s.stage|;
      assert ThreadOk(s.threads[s.stage[i].worker], s.stage, s.stage[i].worker);
      assert Step(s, s.stage[i].worker).Some?;
    }
  }

  // Every apply comes to an end.

  /** How far a thread is from being gone, not counting indices still to be taken. */
  function Rank(pc: Pc): nat {
    match pc
    case Begin => 8 case Read(_) => 7 case Running(_) => 6 case Again => 5 case Subtract => 4
    case Notify => 3 case Leave => 2 case Drop => 1 case Gone => 0
  }

  function Ranks(threads: seq<Thread>, n: nat): nat
    requires n <= |threads|
  {
    if n == 0 then 0 else Ranks(threads, n - 1) + Rank(threads[n - 1].pc)
  }

  /** What is left to do: every index is worth two steps, every thread the steps to its end. */
  function Left(s: State): nat {
    2 * (if s.index < |s.stage| then |s.stage| - s.index else 0) + Ranks(s.threads, |s.threads|)
  }

  lemma {:induction false} RanksChange(a: seq<Thread>, b: seq<Thread>, t: Tid, n: nat)
    requires |a| == |b| && n <= |a| && t < |a| && forall u :: 0 <= u < |a| && u != t ==> a[u] == b[u]
    ensures Ranks(a, n) + (if t < n then Rank(b[t].pc) else 0) == Ranks(b, n) + (if t < n then Rank(a[t].pc) else 0)
  {
    if n > 0 {
      RanksChange(a, b, t, n - 1);
    }
  }

  lemma StepLowers(s: State, t: Tid)
    requires Step(s, t).Some?
    ensures Left(Step(s, t).value) < Left(s)
  {
    var n := Step(s, t).value;
    RanksChange(s.threads, n.threads, t, |s.threads|);
  }

  lemma {:induction false} RunLowers(s: State, run: seq<Tid>, t: State)
    requires Exec(Step, s, run) == Some(t)
    ensures |run| + Left(t) <= Left(s)
    decreases |run|
  {
    if run != [] {
      var p := Exec(Step, s, run[..|run| - 1]).value;
      RunLowers(s, run[..|run| - 1], p);
      StepLowers(p, run[|run| - 1]);
    }
  }

  lemma {:induction false} RanksAtStart(threads: seq<Thread>, n: nat)
    requires n <= |threads| && forall u :: 0 <= u < |threads| ==> threads[u].pc == Begin
    ensures Ranks(threads, n) == 8 * n
  {
    if n > 0 {
      RanksAtStart(threads, n - 1);
    }
  }

  /** Every apply completes. No run is longer than two steps for each index and eight for each thread, and a run that
      cannot go on has invoked every index exactly once, signalled the event once, and freed the shared object once. */
  lemma Completes(iterations: nat, threads: nat, run: seq<Tid>, s: State)
    requires iterations > 0 && threads > 0 && Exec(Step, Start(iterations, threads), run) == Some(s)
    ensures |run| <= 2 * iterations + 8 * threads
    ensures (forall t :: Step(s, t).None?) ==> s.freed == 1 && s.signals == 1 && AllInvoked(s)
  {
    RunLowers(Start(iterations, threads), run, s);
    RanksAtStart(Start(iterations, threads).threads, threads);
    if forall t :: Step(s, t).None? {
      if s.inside != {} {
        NeverStuck(iterations, threads, run, s);
        assert false;
      }
      Reachable(iterations, threads, run);
      AllGone(s);
    }
  }

  lemma AllGone(s: State)
    requires Inv(s) && s.inside == {}
    ensures s.freed == 1 && s.signals == 1 && AllInvoked(s)
  {
    assert 0 !in s.inside;
    SignalledMeansDone(s);
  }

  /** _dispatch_apply_serial: the loop without other threads invokes every index once, in order. */
  method Serially(iterations: nat) returns (invoked: seq<nat>)
    requires iterations > 0
    ensures |invoked| == iterations && forall i :: 0 <= i < iterations ==> invoked[i] == i
  {
    var idx := 0;
    invoked := [];
    while true
      invariant idx == |invoked| < iterations
      invariant forall i :: 0 <= i < |invoked| ==> invoked[i] == i
      decreases iterations - idx
    {
      invoked := invoked + [idx];
      idx := idx + 1;
      if idx >= iterations {
        break;
      }
    }
  }
}

/** Dispatch groups: the packed state word, and the protocol of enter, leave, notify and wait.

    The protocol is a machine over atomic actions of any number of threads. The notification list is the
    queue of module MpscQueue, seen through what is proved there: a push takes effect at its tail exchange, and
    a capture takes everything exchanged before it. Notifications are numbered in the order of their pushes. */
module Group {
  import opened Runs

  const GENERATIONS: nat := 0x1_0000_0000
  const VALUES: nat := 0x4000_0000

  type Tid = nat

  /** The word field by field; `zeros` counts how often the group became empty, the generation is its low 32 bits. */
  datatype Word = Word(zeros: nat, count: nat, notifs: bool, waiters: bool)

  function Gen(g: Word): nat { g.zeros % GENERATIONS }

  function Bit(b: bool): nat { if b then 1 else 0 }

  /** Bits 31-0: minus the count in 30 bits, then the two flags. */
  function LowBits(g: Word): nat
    requires g.count < VALUES
  {
    (if g.count == 0 then 0 else VALUES - g.count) * 4 + Bit(g.notifs) * 2 + Bit(g.waiters)
  }

  /** The 64-bit encoding. */
  function Bits(g: Word): nat
    requires g.count < VALUES
  {
    Gen(g) * 0x1_0000_0000 + LowBits(g)
  }

  // ---- The word ------------------------------------------------------------------------------------------

  /** dispatch_group_leave adds to all 64 bits, dispatch_group_enter subtracts from the low 32. */
  function LeaveBits(x: nat): nat { (x + 4) % 0x1_0000_0000_0000_0000 }
  function EnterBits(x: nat): nat {
    var low := x % 0x1_0000_0000;
    x - low + (if low >= 4 then low - 4 else low + 0x1_0000_0000 - 4)
  }

  datatype Op = Enter | Leave

  function Apply(g: Word, op: Op): Option<Word> {
    match op
    case Enter => if g.count + 1 < VALUES then Some(g.(count := g.count + 1)) else None
    case Leave => if g.count == 0 then None else Some(g.(count := g.count - 1, zeros := g.zeros + (if g.count == 1 then 1 else 0)))
  }

  function ApplyBits(x: nat, op: Op): nat {
    match op case Enter => EnterBits(x) case Leave => LeaveBits(x)
  }

  /** One enter or leave on the word is one on the counters: the flags stay, and the generation goes up exactly
      when the last member leaves. */
  lemma OpRefines(g: Word, op: Op)
    requires g.count < VALUES && Apply(g, op).Some?
    ensures Apply(g, op).value.count < VALUES && Bits(Apply(g, op).value) == ApplyBits(Bits(g), op)
  {
    HighLow(Gen(g), LowBits(g));
    match op
    case Enter =>
    case Leave => NextGeneration(g.zeros); Carry(Gen(g), LowBits(g));
  }

  lemma HighLow(high: nat, low: nat)
    requires low < 0x1_0000_0000
    ensures (high * 0x1_0000_0000 + low) % 0x1_0000_0000 == low
  {
  }

  lemma NextGeneration(z: nat)
    ensures (z + 1) % GENERATIONS == if z % GENERATIONS + 1 == GENERATIONS then 0 else z % GENERATIONS + 1
  {
  }

  lemma Carry(high: nat, low: nat)
    requires high < 0x1_0000_0000 && low < 0x1_0000_0000
    ensures LeaveBits(high * 0x1_0000_0000 + low) ==
            if low + 4 < 0x1_0000_0000 then high * 0x1_0000_0000 + low + 4
            else (if high + 1 == 0x1_0000_0000 then 0 else high + 1) * 0x1_0000_0000 + low + 4 - 0x1_0000_0000
  {
    var x := high * 0x1_0000_0000 + low + 4;
    assert x < 0x1_0000_0000_0000_0000 ==> x % 0x1_0000_0000_0000_0000 == x;
  }

  /** The tests of the source on the word: value mask and the whole low half. */
  lemma ValueTests(g: Word)
    requires g.count < VALUES
    ensures var value := Bits(g) % 0x1_0000_0000 / 4 * 4;
            && (value == 0xffff_fffc <==> g.count == 1) && (value == 0 <==> g.count == 0) && (value == 4 <==> g.count == VALUES - 1)
    ensures Bits(g) % 0x1_0000_0000 == 0 <==> g.count == 0 && !g.notifs && !g.waiters
    ensures Bits(g) / 0x1_0000_0000 == Gen(g)
  {
    HighLow(Gen(g), LowBits(g));
    var v := if g.count == 0 then 0 else VALUES - g.count;
    assert LowBits(g) / 4 == v;
  }

  function Run(g: Word, ops: seq<Op>): Option<Word> {
    Exec(Apply, g, ops)
  }

  function RunBits(x: nat, ops: seq<Op>): nat
    decreases |ops|
  {
    if ops == [] then x else ApplyBits(RunBits(x, ops[..|ops| - 1]), ops[|ops| - 1])
  }

  /** Over every balanced run the word is the encoding of the counters. */
  lemma {:induction false} RunRefines(g: Word, ops: seq<Op>)
    requires g.count < VALUES && Run(g, ops).Some?
    ensures Run(g, ops).value.count < VALUES && Bits(Run(g, ops).value) == RunBits(Bits(g), ops)
    ensures Run(g, ops).value.notifs == g.notifs && Run(g, ops).value.waiters == g.waiters
    decreases |ops|
  {
    if ops != [] {
      RunRefines(g, ops[..|ops| - 1]);
      OpRefines(Run(g, ops[..|ops| - 1]).value, ops[|ops| - 1]);
    }
  }

  // ---- The protocol --------------------------------------------------------------------------------------

  /** A call of dispatch_group_leave that emptied the group, or of dispatch_group_notify, that is not done. */
  datatype Call =
    | Deciding(local: Word)                           // leave: compare-exchange loop that clears the flags
    | Pushed(opener: bool)                            // notify: tail exchanged; opener if the list was empty
    | Marking                                         // notify of the opener: list linked, flag not yet set
    | Waking(notifs: bool, wake: bool)                // _dispatch_group_wake, with the flags it was given
    | Capturing(wake: bool)                           // inside os_mpsc_capture_snapshot
    | Submitting(lo: nat, hi: nat, wake: bool)        // handing notifications lo, lo + 1, ... hi - 1 to their queues

  /** A thread in the slow path of dispatch_group_wait; `since` is `zeros` when it registered. */
  datatype Waiter =
    | BeforeSleep(since: nat) | Asleep(since: nat) | Checking(since: nat, timedOut: bool)

  /** A return of dispatch_group_wait from its slow path: with 0, or with a timeout. */
  datatype Return = Return(tid: Tid, zero: bool)

  datatype Place = Queued | Taken(tid: Tid) | Given

  /** Notification n is `place[n]`; the list holds the numbers from `first` on, and `linked` says that its head
      has been stored. `overlap` records that some enter came while a leave or notify call was unfinished, and
      `ended` the ends of waits. */
  datatype State = State(
    g: Word, calls: map<Tid, Call>, waiting: map<Tid, Waiter>,
    first: nat, linked: bool, place: seq<Place>, submitted: seq<nat>, overlap: bool, ended: seq<Return>)

  predicate ListEmpty(s: State) { s.first >= |s.place| }

  /** A new group, entered `n` times as by _dispatch_group_create_with_count. */
  function Create(n: nat): State { State(Word(0, n, false, false), map[], map[], 0, false, [], [], false, []) }

  datatype Action =
    | DoEnter | DoLeave(t: Tid) | Decide(t: Tid)
    | Push(t: Tid) | LinkHead(t: Tid) | Mark(t: Tid)
    | CaptureBegin(t: Tid) | CaptureEnd(t: Tid) | Submit(t: Tid) | WakeAddress(t: Tid)
    | Wait(t: Tid) | Sleep(t: Tid) | WakeUp(t: Tid, timedOut: bool) | Check(t: Tid)

  /** What leave tries to store. */
  function Cleared(g: Word): Word {
    if g.count == 0 then g.(waiters := false, notifs := false) else g.(notifs := false)
  }

  predicate SameBits(g: Word, h: Word) {
    Gen(g) == Gen(h) && g.count == h.count && g.notifs == h.notifs && g.waiters == h.waiters
  }

  /** _dispatch_wake_by_address wakes every sleeper. */
  function AllWoken(waiting: map<Tid, Waiter>): map<Tid, Waiter> {
    map t | t in waiting :: if waiting[t].Asleep? then Checking(waiting[t].since, false) else waiting[t]
  }

  function StepLeave(s: State, a: Action): Option<State>
    requires a.DoEnter? || a.DoLeave? || a.Decide?
  {
    match a
    case DoEnter =>
      if s.g.count + 1 >= VALUES then None
      else Some(s.(g := s.g.(count := s.g.count + 1), overlap := s.overlap || s.calls != map[]))
    case DoLeave(t) =>
      if s.g.count == 0 || t in s.calls || t in s.waiting then None
      else if s.g.count > 1 then Some(s.(g := s.g.(count := s.g.count - 1)))
      else
        var g := s.g.(count := 0, zeros := s.g.zeros + 1);
        Some(s.(g := g, calls := s.calls[t := Deciding(g)]))
    case Decide(t) =>
      if t !in s.calls || !s.calls[t].Deciding? then None
      else
        var seen := s.calls[t].local;
        if seen == Cleared(seen) then Some(s.(calls := s.calls[t := Waking(seen.notifs, seen.waiters)]))
        else if SameBits(s.g, seen) then Some(s.(g := Cleared(s.g), calls := s.calls[t := Waking(seen.notifs, seen.waiters)]))
        else Some(s.(calls := s.calls[t := Deciding(s.g)]))
  }

  function StepNotify(s: State, a: Action): Option<State>
    requires a.Push? || a.LinkHead? || a.Mark?
  {
    match a
    case Push(t) =>
      if t in s.calls || t in s.waiting then None
      else Some(s.(calls := s.calls[t := Pushed(ListEmpty(s))], place := s.place + [Queued]))
    case LinkHead(t) =>
      if t !in s.calls || !s.calls[t].Pushed? then None
      else if s.calls[t].opener then Some(s.(linked := true, calls := s.calls[t := Marking]))
      else Some(s.(calls := s.calls - {t}))
    case Mark(t) =>
      if t !in s.calls || !s.calls[t].Marking? then None
      else if s.g.count == 0 && !s.g.notifs && !s.g.waiters then Some(s.(calls := s.calls[t := Waking(true, false)]))
      else Some(s.(g := s.g.(notifs := true), calls := s.calls - {t}))
  }

  function StepWake(s: State, a: Action): Option<State>
    requires a.CaptureBegin? || a.CaptureEnd? || a.Submit? || a.WakeAddress?
  {
    if a.t !in s.calls then None
    else
      var t, c := a.t, s.calls[a.t];
      match a
      case CaptureBegin(_) =>
        // get_head waits until the head of the list has been stored
        if c.Waking? && c.notifs && s.linked then Some(s.(calls := s.calls[t := Capturing(c.wake)])) else None
      case CaptureEnd(_) =>
        if c.Capturing? then
          Some(s.(calls := s.calls[t := Submitting(s.first, |s.place|, c.wake)], first := |s.place|, linked := false,
                  place := seq(|s.place|, n requires 0 <= n < |s.place| => if n < s.first then s.place[n] else Taken(t))))
        else None
      case Submit(_) =>
        if !c.Submitting? then None
        else if c.lo >= c.hi || c.lo >= |s.place| then Some(s.(calls := s.calls[t := Waking(false, c.wake)]))
        else Some(s.(submitted := s.submitted + [c.lo], place := s.place[c.lo := Given],
                     calls := s.calls[t := Submitting(c.lo + 1, c.hi, c.wake)]))
      case WakeAddress(_) =>
        if c.Waking? && !c.notifs then
          Some(s.(calls := s.calls - {t}, waiting := if c.wake then AllWoken(s.waiting) else s.waiting))
        else None
  }

  function StepWait(s: State, a: Action): Option<State>
    requires a.Wait? || a.Sleep? || a.WakeUp? || a.Check?
  {
    match a
    case Wait(t) =>
      // an empty group, or a zero timeout, returns without waiting
      if t in s.calls || t in s.waiting || s.g.count == 0 then None
      else Some(s.(g := s.g.(waiters := true), waiting := s.waiting[t := BeforeSleep(s.g.zeros)]))
    case Sleep(t) =>
      if t !in s.waiting || !s.waiting[t].BeforeSleep? then None
      else
        var z := s.waiting[t].since;
        Some(s.(waiting := s.waiting[t := if z % GENERATIONS == Gen(s.g) then Asleep(z) else Checking(z, false)]))
    case WakeUp(t, timedOut) =>
      // a timeout or a spurious wakeup
      if t in s.waiting && s.waiting[t].Asleep? then Some(s.(waiting := s.waiting[t := Checking(s.waiting[t].since, timedOut)]))
      else None
    case Check(t) =>
      if t !in s.waiting || !s.waiting[t].Checking? then None
      else
        var w := s.waiting[t];
        if w.since % GENERATIONS != Gen(s.g) then Some(s.(waiting := s.waiting - {t}, ended := s.ended + [Return(t, true)]))
        else if w.timedOut then Some(s.(waiting := s.waiting - {t}, ended := s.ended + [Return(t, false)]))
        else Some(s.(waiting := s.waiting[t := BeforeSleep(w.since)]))
  }

  function Step(s: State, a: Action): Option<State> {
    match a
    case DoEnter => StepLeave(s, a) case DoLeave(_) => StepLeave(s, a) case Decide(_) => StepLeave(s, a)
    case Push(_) => StepNotify(s, a) case LinkHead(_) => StepNotify(s, a) case Mark(_) => StepNotify(s, a)
    case CaptureBegin(_) => StepWake(s, a) case CaptureEnd(_) => StepWake(s, a)
    case Submit(_) => StepWake(s, a) case WakeAddress(_) => StepWake(s, a)
    case Wait(_) => StepWait(s, a) case Sleep(_) => StepWait(s, a) case WakeUp(_, _) => StepWait(s, a) case Check(_) => StepWait(s, a)
  }

  // ---- Notifications -------------------------------------------------------------------------------------

  /** The call is the one that must see to it that the list is captured. */
  predicate Responsible(c: Call) {
    (c.Pushed? && c.opener) || c.Marking? || (c.Waking? && c.notifs) || c.Capturing?
  }

  /** While the list is not empty exactly one party is responsible for it: the flag or one call. */
  ghost predicate OneResponsible(s: State) {
    && (forall t, u :: t in s.calls && u in s.calls && Responsible(s.calls[t]) && Responsible(s.calls[u]) ==> t == u)
    && (s.g.notifs ==> !ListEmpty(s) && forall t :: t in s.calls ==> !Responsible(s.calls[t]))
    && (ListEmpty(s) ==> forall t :: t in s.calls ==> !Responsible(s.calls[t]))
    && (!ListEmpty(s) ==> s.g.notifs || exists t :: t in s.calls && Responsible(s.calls[t]))
    && (!ListEmpty(s) && !s.linked ==> exists t :: t in s.calls && s.calls[t] == Pushed(true))
    && (s.linked ==> !ListEmpty(s) && forall t :: t in s.calls ==> s.calls[t] != Pushed(true))
  }

  ghost predicate PlacesOk(s: State) {
    && s.first <= |s.place|
    && (forall n :: 0 <= n < |s.place| ==> (s.place[n] == Queued <==> s.first <= n))
    && (forall n :: 0 <= n < |s.place| && s.place[n].Taken? ==>
          s.place[n].tid in s.calls && s.calls[s.place[n].tid].Submitting? && s.calls[s.place[n].tid].lo <= n < s.calls[s.place[n].tid].hi)
    && (forall t :: t in s.calls && s.calls[t].Submitting? ==> TodoOk(s.place, t, s.calls[t].lo, s.calls[t].hi))
  }

  ghost predicate TodoOk(place: seq<Place>, t: Tid, lo: nat, hi: nat) {
    hi <= |place| && forall n :: lo <= n < hi ==> place[n] == Taken(t)
  }

  ghost predicate SubmittedOk(s: State) {
    && (forall i :: 0 <= i < |s.submitted| ==> s.submitted[i] < |s.place| && s.place[s.submitted[i]] == Given)
    && (forall n :: 0 <= n < |s.place| && s.place[n] == Given ==> n in s.submitted)
    && (forall i, j :: 0 <= i < j < |s.submitted| ==> s.submitted[i] != s.submitted[j])
  }

  lemma ResponsibleAfterDecide(s: State, t: Tid)
    requires OneResponsible(s) && Step(s, Decide(t)).Some?
    ensures OneResponsible(Step(s, Decide(t)).value)
  {
    var n := Step(s, Decide(t)).value;
    OthersKeep(s, n, t);
    assert Responsible(n.calls[t]) <==> s.g.notifs && !n.g.notifs;
  }

  /** The witnesses among the other calls survive a step of call `t` that leaves the list alone. */
  lemma OthersKeep(s: State, n: State, t: Tid)
    requires OneResponsible(s) && ListEmpty(s) == ListEmpty(n)
    requires forall u :: u in s.calls && u != t ==> u in n.calls && n.calls[u] == s.calls[u]
    ensures !ListEmpty(s) && !s.g.notifs && (t !in s.calls || !Responsible(s.calls[t])) ==>
              exists u :: u in n.calls && Responsible(n.calls[u])
    ensures !ListEmpty(s) && !s.linked && (t !in s.calls || s.calls[t] != Pushed(true)) ==>
              exists u :: u in n.calls && n.calls[u] == Pushed(true)
  {
    if !ListEmpty(s) && !s.g.notifs && (t !in s.calls || !Responsible(s.calls[t])) {
      var u :| u in s.calls && Responsible(s.calls[u]);
      assert u in n.calls && Responsible(n.calls[u]);
    }
    if !ListEmpty(s) && !s.linked && (t !in s.calls || s.calls[t] != Pushed(true)) {
      var u :| u in s.calls && s.calls[u] == Pushed(true);
      assert u in n.calls && n.calls[u] == Pushed(true);
    }
  }

  lemma ResponsibleAfterLeave(s: State, t: Tid)
    requires OneResponsible(s) && Step(s, DoLeave(t)).Some?
    ensures OneResponsible(Step(s, DoLeave(t)).value)
  {
    OthersKeep(s, Step(s, DoLeave(t)).value, t);
  }

  lemma ResponsibleAfterPush(s: State, t: Tid)
    requires OneResponsible(s) && s.first <= |s.place| && Step(s, Push(t)).Some?
    ensures OneResponsible(Step(s, Push(t)).value)
  {
    var n := Step(s, Push(t)).value;
    if ListEmpty(s) { assert n.calls[t] == Pushed(true) && Responsible(n.calls[t]); } else { OthersKeep(s, n, t); }
  }

  lemma ResponsibleAfterMark(s: State, a: Action)
    requires OneResponsible(s) && (a.LinkHead? || a.Mark?) && Step(s, a).Some?
    ensures OneResponsible(Step(s, a).value)
  {
    var n := Step(s, a).value;
    OthersKeep(s, n, a.t);
    if a.t in n.calls { assert Responsible(n.calls[a.t]); }
  }

  lemma ResponsibleAfterCapture(s: State, a: Action)
    requires OneResponsible(s) && (a.CaptureBegin? || a.CaptureEnd?) && Step(s, a).Some?
    ensures OneResponsible(Step(s, a).value)
  {
    var n := Step(s, a).value;
    if a.CaptureBegin? {
      OthersKeep(s, n, a.t);
      assert Responsible(n.calls[a.t]);
    }
  }

  /** A step of a call that is not responsible before or after it. */
  lemma ResponsibleFrame(s: State, n: State, t: Tid)
    requires OneResponsible(s) && ListEmpty(s) == ListEmpty(n) && n.g.notifs == s.g.notifs && n.linked == s.linked
    requires forall u :: u != t ==> (u in s.calls <==> u in n.calls) && (u in s.calls ==> n.calls[u] == s.calls[u])
    requires t in s.calls ==> !Responsible(s.calls[t])
    requires t in n.calls ==> !Responsible(n.calls[t])
    ensures OneResponsible(n)
  {
    OthersKeep(s, n, t);
  }

  lemma ResponsibleAfterSubmit(s: State, a: Action)
    requires OneResponsible(s) && (a.Submit? || a.WakeAddress?) && Step(s, a).Some?
    ensures OneResponsible(Step(s, a).value)
  {
    ResponsibleFrame(s, Step(s, a).value, a.t);
  }

  lemma OneResponsibleKept(s: State, a: Action)
    requires OneResponsible(s) && s.first <= |s.place| && Step(s, a).Some?
    ensures OneResponsible(Step(s, a).value)
  {
    match a
    case DoLeave(t) => ResponsibleAfterLeave(s, t);
    case Decide(t) => ResponsibleAfterDecide(s, t);
    case Push(t) => ResponsibleAfterPush(s, t);
    case LinkHead(_) => ResponsibleAfterMark(s, a);
    case Mark(_) => ResponsibleAfterMark(s, a);
    case CaptureBegin(_) => ResponsibleAfterCapture(s, a);
    case CaptureEnd(_) => ResponsibleAfterCapture(s, a);
    case Submit(_) => ResponsibleAfterSubmit(s, a);
    case WakeAddress(_) => ResponsibleAfterSubmit(s, a);
    case _ => OthersKeep(s, Step(s, a).value, 0);
  }

  lemma PlacesAfterPush(s: State, t: Tid)
    requires PlacesOk(s) && SubmittedOk(s) && Step(s, Push(t)).Some?
    ensures PlacesOk(Step(s, Push(t)).value) && SubmittedOk(Step(s, Push(t)).value)
  {
    var n := Step(s, Push(t)).value;
    forall u | u in n.calls && n.calls[u].Submitting? ensures TodoOk(n.place, u, n.calls[u].lo, n.calls[u].hi) {
      assert TodoOk(s.place, u, s.calls[u].lo, s.calls[u].hi);
    }
  }

  lemma PlacesAfterCapture(s: State, t: Tid)
    requires PlacesOk(s) && SubmittedOk(s) && Step(s, CaptureEnd(t)).Some?
    ensures PlacesOk(Step(s, CaptureEnd(t)).value) && SubmittedOk(Step(s, CaptureEnd(t)).value)
  {
    var n := Step(s, CaptureEnd(t)).value;
    forall u | u in n.calls && n.calls[u].Submitting? ensures TodoOk(n.place, u, n.calls[u].lo, n.calls[u].hi) {
      if u != t { assert TodoOk(s.place, u, s.calls[u].lo, s.calls[u].hi); }
      forall k | n.calls[u].lo <= k < n.calls[u].hi ensures n.place[k] == Taken(u) {
        assert if u == t then s.place[k] == Queued else s.place[k] == Taken(u);
      }
    }
    forall k | 0 <= k < |n.place| ensures n.place[k] == Queued <==> n.first <= k {
      assert s.place[k] == Queued <==> s.first <= k;
    }
  }

  lemma PlacesAfterSubmit(s: State, t: Tid)
    requires PlacesOk(s) && Step(s, Submit(t)).Some?
    ensures PlacesOk(Step(s, Submit(t)).value)
  {
    var n := Step(s, Submit(t)).value;
    assert TodoOk(s.place, t, s.calls[t].lo, s.calls[t].hi);
    forall u | u in n.calls && n.calls[u].Submitting? ensures TodoOk(n.place, u, n.calls[u].lo, n.calls[u].hi) {
      assert TodoOk(s.place, u, s.calls[u].lo, s.calls[u].hi);
      forall k | n.calls[u].lo <= k < n.calls[u].hi ensures n.place[k] == Taken(u) {
        assert s.place[k] == Taken(u);
      }
    }
    forall k | 0 <= k < |n.place| ensures n.place[k] == Queued <==> n.first <= k {
      assert s.place[k] == Queued <==> s.first <= k;
    }
  }

  lemma SubmittedAfterSubmit(s: State, t: Tid)
    requires PlacesOk(s) && SubmittedOk(s) && Step(s, Submit(t)).Some?
    ensures SubmittedOk(Step(s, Submit(t)).value)
  {
    var n := Step(s, Submit(t)).value;
    assert TodoOk(s.place, t, s.calls[t].lo, s.calls[t].hi);
    forall k | 0 <= k < |n.place| && n.place[k] == Given ensures k in n.submitted {
      if s.place[k] == Given { assert k in s.submitted; } else { assert n.submitted[|s.submitted|] == k; }
    }
  }

  /** Steps of other kinds move no notification. */
  lemma PlacesFrame(s: State, n: State, t: Tid)
    requires PlacesOk(s) && SubmittedOk(s) && n.first == s.first && n.place == s.place && n.submitted == s.submitted
    requires forall u :: u != t ==> (u in n.calls <==> u in s.calls) && (u in s.calls ==> n.calls[u] == s.calls[u])
    requires t in s.calls ==> !s.calls[t].Submitting?
    requires t in n.calls ==> !n.calls[t].Submitting?
    ensures PlacesOk(n) && SubmittedOk(n)
  {
    forall u | u in n.calls && n.calls[u].Submitting? ensures TodoOk(n.place, u, n.calls[u].lo, n.calls[u].hi) {
      assert TodoOk(s.place, u, s.calls[u].lo, s.calls[u].hi);
    }
  }

  lemma PlacesAfterOther(s: State, a: Action)
    requires PlacesOk(s) && SubmittedOk(s) && Step(s, a).Some?
    requires a.DoLeave? || a.Decide? || a.LinkHead? || a.Mark? || a.CaptureBegin? || a.WakeAddress?
    ensures PlacesOk(Step(s, a).value) && SubmittedOk(Step(s, a).value)
  {
    PlacesFrame(s, Step(s, a).value, a.t);
  }

  lemma PlacesKept(s: State, a: Action)
    requires PlacesOk(s) && SubmittedOk(s) && Step(s, a).Some?
    ensures PlacesOk(Step(s, a).value) && SubmittedOk(Step(s, a).value)
  {
    match a
    case Push(t) => PlacesAfterPush(s, t);
    case CaptureEnd(t) => PlacesAfterCapture(s, t);
    case Submit(t) => PlacesAfterSubmit(s, t); SubmittedAfterSubmit(s, t);
    case DoLeave(_) => PlacesAfterOther(s, a);
    case Decide(_) => PlacesAfterOther(s, a);
    case LinkHead(_) => PlacesAfterOther(s, a);
    case Mark(_) => PlacesAfterOther(s, a);
    case CaptureBegin(_) => PlacesAfterOther(s, a);
    case WakeAddress(_) => PlacesAfterOther(s, a);
    case _ =>
  }

  // ---- Emptiness -----------------------------------------------------------------------------------------

  /** A call that wakes was started when the group was empty; only an overlapping enter can change that. */
  ghost predicate EmptyWhileWaking(s: State) {
    !s.overlap ==> forall t :: t in s.calls && !s.calls[t].Pushed? && !s.calls[t].Marking? ==> s.g.count == 0
  }

  /** Flags on an empty group are about to be collected by some leave. */
  ghost predicate FlagsCollected(s: State) {
    s.g.count == 0 && (s.g.notifs || s.g.waiters) ==>
      exists t :: t in s.calls && s.calls[t].Deciding? && Collects(s.calls[t].local)
  }

  predicate Collects(g: Word) { g.count == 0 && (g.notifs || g.waiters) }

  lemma EmptyWhileWakingKept(s: State, a: Action)
    requires EmptyWhileWaking(s) && Step(s, a).Some?
    ensures EmptyWhileWaking(Step(s, a).value)
  {
  }

  lemma FlagsCollectedKept(s: State, a: Action)
    requires FlagsCollected(s) && Step(s, a).Some?
    ensures FlagsCollected(Step(s, a).value)
  {
    var n := Step(s, a).value;
    if n.g.count == 0 && (n.g.notifs || n.g.waiters) {
      if s.g.count == 0 {
        var t :| t in s.calls && s.calls[t].Deciding? && Collects(s.calls[t].local);
        assert t in n.calls && n.calls[t].Deciding? && Collects(n.calls[t].local);
      } else {
        assert a.DoLeave? && Collects(n.calls[a.t].local);
      }
    }
  }

  // ---- Waiters -------------------------------------------------------------------------------------------

  /** No waiter is so late that the generation has come round. */
  predicate Recent(s: State) {
    forall t :: t in s.waiting ==> s.waiting[t].since <= s.g.zeros < s.waiting[t].since + GENERATIONS
  }

  /** The call will still wake the sleepers. */
  predicate WillWake(c: Call) {
    (c.Waking? || c.Capturing? || c.Submitting?) && c.wake
  }

  /** A waiter of the current generation has the flag set for it. */
  ghost predicate CurrentFlagged(s: State) {
    forall t :: t in s.waiting ==> s.waiting[t].since <= s.g.zeros && (s.waiting[t].since == s.g.zeros ==> s.g.waiters && s.g.count > 0)
  }

  /** Some leave in flight is committed to waking whoever sleeps on a past generation. */
  ghost predicate WakeOwed(s: State) {
    || (s.g.waiters && exists t :: t in s.calls && s.calls[t].Deciding? && s.calls[t].local.waiters)
    || (exists t :: t in s.calls && WillWake(s.calls[t]))
  }

  ghost predicate PastOwed(s: State) {
    forall t :: t in s.waiting && s.waiting[t].Asleep? && s.waiting[t].since < s.g.zeros ==> WakeOwed(s)
  }

  lemma CurrentFlaggedKept(s: State, a: Action)
    requires CurrentFlagged(s) && Step(s, a).Some?
    ensures CurrentFlagged(Step(s, a).value)
  {
  }

  lemma WillWakeKept(s: State, a: Action, t: Tid)
    requires t in s.calls && WillWake(s.calls[t]) && Step(s, a).Some? && !(a.WakeAddress? && s.calls[a.t].Waking? && s.calls[a.t].wake)
    ensures t in Step(s, a).value.calls && WillWake(Step(s, a).value.calls[t])
  {
  }

  lemma DecidingKept(s: State, a: Action, t: Tid)
    requires s.g.waiters && t in s.calls && s.calls[t].Deciding? && s.calls[t].local.waiters && Step(s, a).Some?
    ensures WakeOwed(Step(s, a).value)
  {
    var n := Step(s, a).value;
    assert t in n.calls && (WillWake(n.calls[t]) || (n.calls[t].Deciding? && n.calls[t].local.waiters));
    if !n.g.waiters { assert a.Decide? && WillWake(n.calls[a.t]); }
  }

  lemma OwedKept(s: State, a: Action)
    requires WakeOwed(s) && Step(s, a).Some? && !(a.WakeAddress? && s.calls[a.t].Waking? && s.calls[a.t].wake)
    ensures WakeOwed(Step(s, a).value)
  {
    if t :| t in s.calls && WillWake(s.calls[t]) {
      WillWakeKept(s, a, t);
    } else {
      var t :| t in s.calls && s.calls[t].Deciding? && s.calls[t].local.waiters;
      DecidingKept(s, a, t);
    }
  }

  lemma PastOwedKept(s: State, a: Action)
    requires CurrentFlagged(s) && PastOwed(s) && Step(s, a).Some? && Recent(s)
    ensures PastOwed(Step(s, a).value)
  {
    var n := Step(s, a).value;
    forall t | t in n.waiting && n.waiting[t].Asleep? && n.waiting[t].since < n.g.zeros ensures WakeOwed(n) {
      if a.DoLeave? && s.waiting[t].since == s.g.zeros {
        assert n.calls[a.t].Deciding? && n.calls[a.t].local.waiters;
      } else {
        assert t in s.waiting && s.waiting[t].Asleep? && s.waiting[t].since < s.g.zeros;
        OwedKept(s, a);
      }
    }
  }

  // ---- What every run guarantees -------------------------------------------------------------------------

  ghost predicate Inv(s: State) {
    OneResponsible(s) && PlacesOk(s) && SubmittedOk(s) && EmptyWhileWaking(s) && FlagsCollected(s) && CurrentFlagged(s)
  }

  lemma StepKeeps(s: State, a: Action)
    requires Inv(s) && Step(s, a).Some?
    ensures Inv(Step(s, a).value)
  {
    OneResponsibleKept(s, a);
    PlacesKept(s, a);
    EmptyWhileWakingKept(s, a);
    FlagsCollectedKept(s, a);
    CurrentFlaggedKept(s, a);
  }

  lemma Reachable(n: nat, acts: seq<Action>)
    ensures var r := Exec(Step, Create(n), acts); r.Some? ==> Inv(r.value)
  {
    forall p, a | Inv(p) && Step(p, a).Some? ensures Inv(Step(p, a).value) {
      StepKeeps(p, a);
    }
    Invariance(Step, Inv, Create(n), acts);
  }

  /** Every notification is waiting in the list, in the hands of exactly one unfinished wake, or has been
      submitted; none is submitted twice. */
  lemma NotifiedOnce(n: nat, acts: seq<Action>, s: State)
    requires Exec(Step, Create(n), acts) == Some(s)
    ensures forall i, j :: 0 <= i < j < |s.submitted| ==> s.submitted[i] != s.submitted[j]
    ensures forall k :: 0 <= k < |s.place| ==>
              (match s.place[k]
               case Queued => s.first <= k
               case Taken(t) => t in s.calls && s.calls[t].Submitting? && s.calls[t].lo <= k < s.calls[t].hi
               case Given => k in s.submitted)
  {
    Reachable(n, acts);
  }

  /** None is forgotten: once the group is empty and no leave or notify call is unfinished, all of them have been
      submitted and no flag is left behind. */
  lemma NotifiedAll(n: nat, acts: seq<Action>, s: State)
    requires Exec(Step, Create(n), acts) == Some(s) && s.g.count == 0 && s.calls == map[]
    ensures forall k :: 0 <= k < |s.place| ==> k in s.submitted
    ensures !s.g.notifs && !s.g.waiters && ListEmpty(s)
  {
    Reachable(n, acts);
    forall k | 0 <= k < |s.place| ensures k in s.submitted {
      assert s.place[k] == Given;
    }
  }

  /** Two wakes never capture the list at the same time, and one that sets out to capture finds a list with its
      head stored. */
  lemma CapturesExclude(n: nat, acts: seq<Action>, s: State, t: Tid, u: Tid)
    requires Exec(Step, Create(n), acts) == Some(s) && t in s.calls
    requires s.calls[t].Capturing? || (s.calls[t].Waking? && s.calls[t].notifs)
    ensures !ListEmpty(s) && s.linked
    ensures u in s.calls && u != t ==> !s.calls[u].Capturing? && !(s.calls[u].Waking? && s.calls[u].notifs)
  {
    Reachable(n, acts);
    assert Responsible(s.calls[t]);
  }

  /** Without an enter during an unfinished leave or notify call, the group is empty when its notifications are
      captured. */
  lemma EmptyAtCapture(n: nat, acts: seq<Action>, s: State, t: Tid)
    requires Exec(Step, Create(n), acts) == Some(s) && !s.overlap && Step(s, CaptureEnd(t)).Some?
    ensures s.g.count == 0
  {
    Reachable(n, acts);
  }

  const OVERLAPPING: seq<Action> :=
    [Push(1), LinkHead(1), Mark(1), DoLeave(2), Decide(2), DoEnter, CaptureBegin(2)]

  /** The states of the run `OVERLAPPING` on a group with one member. */
  function Overlap(k: nat): State {
    var empty := Word(1, 0, true, false);
    if k == 0 then Create(1)
    else if k == 1 then Create(1).(calls := map[1 := Pushed(true)], place := [Queued])
    else if k == 2 then Create(1).(calls := map[1 := Marking], place := [Queued], linked := true)
    else if k == 3 then State(Word(0, 1, true, false), map[], map[], 0, true, [Queued], [], false, [])
    else if k == 4 then State(empty, map[2 := Deciding(empty)], map[], 0, true, [Queued], [], false, [])
    else if k == 5 then State(Word(1, 0, false, false), map[2 := Waking(true, false)], map[], 0, true, [Queued], [], false, [])
    else if k == 6 then State(Word(1, 1, false, false), map[2 := Waking(true, false)], map[], 0, true, [Queued], [], true, [])
    else State(Word(1, 1, false, false), map[2 := Capturing(false)], map[], 0, true, [Queued], [], true, [])
  }

  lemma OverlapStarts(k: nat)
    requires k < 4
    ensures Step(Overlap(k), OVERLAPPING[k]) == Some(Overlap(k + 1))
  {
    var n := Step(Overlap(k), OVERLAPPING[k]);
    assert n.Some? && n.value.calls == Overlap(k + 1).calls && n.value.place == Overlap(k + 1).place;
  }

  lemma OverlapEnds(k: nat)
    requires 4 <= k < 7
    ensures Step(Overlap(k), OVERLAPPING[k]) == Some(Overlap(k + 1))
  {
    if k == 4 {
      assert Step(Overlap(4), Decide(2)).value.calls == Overlap(5).calls;
    } else if k == 5 {
      assert Overlap(5).calls[2] == Waking(true, false) && Overlap(5).calls != map[];
    } else {
      assert Step(Overlap(6), CaptureBegin(2)).value.calls == Overlap(7).calls;
    }
  }

  /** An enter between the leave that empties the group and the capture makes the group nonempty at the capture. */
  lemma CaptureAfterEnter()
    ensures var r := Exec(Step, Create(1), OVERLAPPING);
            r.Some? && r.value.overlap && Step(r.value, CaptureEnd(2)).Some? && r.value.g.count == 1
  {
    var states := seq(8, k requires 0 <= k => Overlap(k));
    forall k | 0 <= k < 7 ensures Step(states[k], OVERLAPPING[k]) == Some(states[k + 1]) {
      if k < 4 { OverlapStarts(k); } else { OverlapEnds(k); }
    }
    Trace(Step, states, OVERLAPPING);
  }

  /** `zeros` moves exactly when a leave empties the group, by one. */
  lemma ZerosCountEmptyings(s: State, a: Action)
    requires Step(s, a).Some?
    ensures var t := Step(s, a).value;
            if a.DoLeave? && s.g.count == 1 then t.g.count == 0 && t.g.zeros == s.g.zeros + 1 else t.g.zeros == s.g.zeros
  {
  }

  /** If the count of emptyings went up during a run, the group was empty at some moment of it. */
  lemma {:induction false} EmptyBetween(s: State, acts: seq<Action>, u: State)
    requires Exec(Step, s, acts) == Some(u) && s.g.zeros != u.g.zeros
    ensures exists k :: 0 <= k <= |acts| && EmptyAfter(s, acts[..k])
    decreases |acts|
  {
    if acts != [] {
      var front := acts[..|acts| - 1];
      var p := Exec(Step, s, front).value;
      ZerosCountEmptyings(p, acts[|acts| - 1]);
      if p.g.zeros == s.g.zeros {
        assert acts[..|acts|] == acts && EmptyAfter(s, acts[..|acts|]);
      } else {
        EmptyBetween(s, front, p);
        var k :| 0 <= k <= |front| && EmptyAfter(s, front[..k]);
        assert front[..k] == acts[..k];
      }
    }
  }

  ghost predicate EmptyAfter(s: State, acts: seq<Action>) {
    Exec(Step, s, acts).Some? && Exec(Step, s, acts).value.g.count == 0
  }

  lemma WaiterStep(s: State, a: Action, t: Tid)
    requires t in s.waiting && Step(s, a).Some? && t in Step(s, a).value.waiting && a != Wait(t)
    ensures var was, now := s.waiting[t], Step(s, a).value.waiting[t];
            && now.since == was.since
            && (now.Checking? && now.timedOut ==> a == WakeUp(t, true) || (was.Checking? && was.timedOut))
  {
  }

  /** During one wait: the waiter keeps the generation it registered with, and is timed out only by its own wakeup. */
  lemma {:induction false} OneWait(s: State, t: Tid, acts: seq<Action>, u: State)
    requires t in s.waiting && s.waiting[t].BeforeSleep? && Exec(Step, s, acts) == Some(u) && Wait(t) !in acts
    requires t in u.waiting
    ensures u.waiting[t].since == s.waiting[t].since
    ensures u.waiting[t].Checking? && u.waiting[t].timedOut ==> WakeUp(t, true) in acts
    decreases |acts|
  {
    if acts != [] {
      var front, last := acts[..|acts| - 1], acts[|acts| - 1];
      assert acts == front + [last];
      var p := Exec(Step, s, front).value;
      if t !in p.waiting {
        NoWayBack(p, last, t);
      }
      OneWait(s, t, front, p);
      WaiterStep(p, last, t);
    }
  }

  lemma NoWayBack(s: State, a: Action, t: Tid)
    requires t !in s.waiting && Step(s, a).Some? && a != Wait(t)
    ensures t !in Step(s, a).value.waiting
  {
  }

  /** What a waiter decides on the generation it registered with. */
  lemma CheckDecides(s: State, t: Tid)
    requires t in s.waiting && s.waiting[t].Checking?
    ensures Step(s, Check(t)).Some?
    ensures var n, w, passed := Step(s, Check(t)).value, s.waiting[t], s.waiting[t].since % GENERATIONS != Gen(s.g);
            && (passed || w.timedOut ==> t !in n.waiting && n.ended == s.ended + [Return(t, passed)])
            && (!passed && !w.timedOut ==> n == s.(waiting := s.waiting[t := BeforeSleep(w.since)]))
  {
  }

  /** dispatch_group_wait, for a call of `t` that registers in `s`, is in `r` then, and looks at the generation in `u`. It
      returns 0 only if the group was empty at some moment since; it returns a timeout only if it was woken by its
      timeout and the generation is still the same; and in all other cases, whatever woke it, it goes back to sleep. */
  lemma WaitReturns(s: State, t: Tid, r: State, acts: seq<Action>, u: State)
    requires Step(s, Wait(t)) == Some(r) && Exec(Step, r, acts) == Some(u) && Wait(t) !in acts
    requires t in u.waiting && u.waiting[t].Checking?
    ensures Step(u, Check(t)).Some?
    ensures var v, zero, late := Step(u, Check(t)).value, Return(t, true), Return(t, false);
            || (v.ended == u.ended + [zero] && t !in v.waiting && exists k :: 0 <= k <= |acts| && EmptyAfter(r, acts[..k]))
            || (v.ended == u.ended + [late] && t !in v.waiting && WakeUp(t, true) in acts && Gen(u.g) == Gen(s.g))
            || (v.ended == u.ended && t in v.waiting && v.waiting[t].BeforeSleep? && Gen(u.g) == Gen(s.g))
    ensures t in Step(u, Check(t)).value.waiting <==> Gen(u.g) == Gen(s.g) && !u.waiting[t].timedOut
  {
    assert r == s.(g := s.g.(waiters := true), waiting := s.waiting[t := BeforeSleep(s.g.zeros)]);
    OneWait(r, t, acts, u);
    CheckDecides(u, t);
    if Gen(u.g) != Gen(s.g) {
      EmptyBetween(r, acts, u);
    }
  }

  /** A waiter goes to sleep exactly when the generation it registered with has not passed. */
  lemma SleepDecides(s: State, t: Tid)
    requires t in s.waiting && s.waiting[t].BeforeSleep?
    ensures Step(s, Sleep(t)).Some?
    ensures var w, n := s.waiting[t], Step(s, Sleep(t)).value;
            if w.since % GENERATIONS == Gen(s.g) then n == s.(waiting := s.waiting[t := Asleep(w.since)])
            else n == s.(waiting := s.waiting[t := Checking(w.since, false)])
  {
  }

  /** A sleeper can be woken at any time, and remembers whether that was its timeout. */
  lemma WakeUpTells(s: State, t: Tid, timedOut: bool)
    requires t in s.waiting && s.waiting[t].Asleep?
    ensures Step(s, WakeUp(t, timedOut)) == Some(s.(waiting := s.waiting[t := Checking(s.waiting[t].since, timedOut)]))
  {
  }

  /** Nothing else ends a wait. */
  lemma OnlyCheckReturns(s: State, a: Action, t: Tid)
    requires Step(s, a).Some?
    ensures t in s.waiting && t !in Step(s, a).value.waiting ==> a == Check(t)
    ensures !a.Check? ==> Step(s, a).value.ended == s.ended
  {
  }

  /** A wait on an empty group does not register, and one on a group with members does. */
  lemma WaitRegisters(s: State, t: Tid)
    requires t !in s.calls && t !in s.waiting
    ensures Step(s, Wait(t)).Some? <==> s.g.count > 0
    ensures Step(s, Wait(t)).Some? ==>
      Step(s, Wait(t)).value == s.(g := s.g.(waiters := true), waiting := s.waiting[t := BeforeSleep(s.g.zeros)])
  {
  }

  // ---- Members, and the ends of calls ---------------------------------------------------------------------

  /** Members at the start, and enters minus leaves since. */
  function Members(n: nat, acts: seq<Action>): int
    decreases |acts|
  {
    if acts == [] then n
    else
      var last := acts[|acts| - 1];
      Members(n, acts[..|acts| - 1]) + (if last.DoEnter? then 1 else if last.DoLeave? then -1 else 0)
  }

  /** In every run the count is the number of members: no enter or leave is lost. */
  lemma {:induction false} MembersCounted(n: nat, acts: seq<Action>, s: State)
    requires Exec(Step, Create(n), acts) == Some(s)
    ensures s.g.count == Members(n, acts)
    decreases |acts|
  {
    if acts != [] {
      var p := Exec(Step, Create(n), acts[..|acts| - 1]).value;
      MembersCounted(n, acts[..|acts| - 1], p);
      CountStep(p, acts[|acts| - 1]);
    }
  }

  lemma CountStep(s: State, a: Action)
    requires Step(s, a).Some?
    ensures Step(s, a).value.g.count == s.g.count + (if a.DoEnter? then 1 else if a.DoLeave? then -1 else 0)
  {
  }

  /** Enter and leave of the protocol are the operations on the word. */
  lemma WordOperations(s: State, t: Tid)
    requires s.g.count < VALUES
    ensures Step(s, DoEnter).Some? ==> Some(Step(s, DoEnter).value.g) == Apply(s.g, Enter)
    ensures Step(s, DoEnter).Some? <==> Apply(s.g, Enter).Some?
    ensures Step(s, DoLeave(t)).Some? ==> Some(Step(s, DoLeave(t)).value.g) == Apply(s.g, Leave)
    ensures t !in s.calls && t !in s.waiting ==> (Step(s, DoLeave(t)).Some? <==> Apply(s.g, Leave).Some?)
  {
  }

  /** The leave that emptied the group takes the flags out of the word, and does for them what they ask for. With members
      again it leaves the flag of the waiters, who may have registered since. */
  lemma DecideTakes(s: State, t: Tid)
    requires t in s.calls && s.calls[t].Deciding? && SameBits(s.g, s.calls[t].local)
    ensures Step(s, Decide(t)) ==
      Some(s.(g := s.g.(notifs := false, waiters := s.g.waiters && s.g.count > 0),
              calls := s.calls[t := Waking(s.g.notifs, s.g.waiters)]))
  {
  }

  /** A notify on an empty group without flags wakes for the notifications only, and otherwise leaves a flag. */
  lemma MarkTakes(s: State, t: Tid)
    requires t in s.calls && s.calls[t].Marking?
    ensures Step(s, Mark(t)).Some?
    ensures var n := Step(s, Mark(t)).value;
            if s.g.count == 0 && !s.g.notifs && !s.g.waiters then n == s.(calls := s.calls[t := Waking(true, false)])
            else n == s.(g := s.g.(notifs := true), calls := s.calls - {t})
  {
  }

  /** Waking by address wakes all sleepers, if the flags of the call ask for it, and nobody otherwise. */
  lemma WakesSleepers(s: State, t: Tid, u: Tid)
    requires t in s.calls && s.calls[t].Waking? && !s.calls[t].notifs
    ensures Step(s, WakeAddress(t)).Some?
    ensures u in Step(s, WakeAddress(t)).value.waiting <==> u in s.waiting
    ensures u in s.waiting ==>
      Step(s, WakeAddress(t)).value.waiting[u] ==
      if s.calls[t].wake && s.waiting[u].Asleep? then Checking(s.waiting[u].since, false) else s.waiting[u]
  {
  }

  /** The next action of a call. */
  function Due(t: Tid, c: Call): Action {
    match c
    case Deciding(_) => Decide(t) case Pushed(_) => LinkHead(t) case Marking => Mark(t)
    case Waking(notifs, _) => if notifs then CaptureBegin(t) else WakeAddress(t)
    case Capturing(_) => CaptureEnd(t) case Submitting(_, _, _) => Submit(t)
  }

  function Stage(c: Call): nat {
    match c
    case Pushed(_) => 6 case Marking => 5 case Deciding(_) => 5 case Waking(notifs, _) => if notifs then 4 else 1
    case Capturing(_) => 3 case Submitting(_, _, _) => 2
  }

  /** The call is over, or nearer to its end. */
  predicate Nearer(s: State, n: State, t: Tid)
    requires t in s.calls
  {
    || t !in n.calls || Stage(n.calls[t]) < Stage(s.calls[t])
    || (n.calls[t].Submitting? && s.calls[t].Submitting? && s.calls[t].lo < n.calls[t].lo <= s.calls[t].hi == n.calls[t].hi)
  }

  lemma DueStep(s: State, t: Tid)
    requires OneResponsible(s) && PlacesOk(s) && t in s.calls
    ensures Step(s, Due(t, s.calls[t])).Some?
    ensures Nearer(s, Step(s, Due(t, s.calls[t])).value, t) || (s.calls[t].Deciding? && !SameBits(s.g, s.calls[t].local))
  {
    if s.calls[t].Submitting? { assert TodoOk(s.place, t, s.calls[t].lo, s.calls[t].hi); }
    assert s.calls[t].Waking? && s.calls[t].notifs ==> Responsible(s.calls[t]);
  }

  /** Every leave and every notify ends: in every run its next action is possible and brings it nearer to its end,
      unless the word has changed since a leave read it, and then the leave reads it again. */
  lemma CallsEnd(n: nat, acts: seq<Action>, s: State, t: Tid)
    requires Exec(Step, Create(n), acts) == Some(s) && t in s.calls
    ensures var next := Step(s, Due(t, s.calls[t]));
            && next.Some?
            && (Nearer(s, next.value, t)
                || (s.calls[t].Deciding? && !SameBits(s.g, s.calls[t].local) && next.value.calls == s.calls[t := Deciding(s.g)]))
  {
    Reachable(n, acts);
    DueStep(s, t);
  }

  /** Runs in which fewer than 2^32 generations pass during any wait. */
  function Timely(s: State, a: Action): Option<State> {
    var r := Step(s, a);
    if r.Some? && Recent(r.value) then r else None
  }

  ghost predicate TimelyInv(s: State) { Inv(s) && PastOwed(s) && Recent(s) }

  /** Nobody sleeps through: while a waiter sleeps on a past generation, some leave in flight is committed to waking it. */
  lemma SleepersAreOwed(n: nat, acts: seq<Action>, s: State, t: Tid)
    requires Exec(Timely, Create(n), acts) == Some(s) && t in s.waiting && s.waiting[t].Asleep? && s.waiting[t].since < s.g.zeros
    ensures WakeOwed(s)
  {
    forall p, a | TimelyInv(p) && Timely(p, a).Some? ensures TimelyInv(Timely(p, a).value) {
      StepKeeps(p, a);
      PastOwedKept(p, a);
    }
    Invariance(Timely, TimelyInv, Create(n), acts);
  }
}

/** The `dq_state` word of a lane: a reader/writer lock packed into width arithmetic.

    `DqState` is the word field by field and `Word` its 64-bit encoding; bits 40 to 54 (pending barrier, width
    with its full bit, in barrier) are one number, `Field`, because the source adds to and subtracts from them
    in one piece and a carry runs from one into the next.

    The machine adds who holds what: `readers` counts the width units of sync, async and apply items that are
    running, `hold` is the thread that owns the drain lock with the units that are its own. Every
    read-modify-write loop of the source is one action. */
module QueueState {
  import opened Runs

  type Tid = nat  // 0 is no thread

  const FULL: int := 0x1000          // DISPATCH_QUEUE_WIDTH_FULL
  const WIDTH_MAX: int := 0xffe      // DISPATCH_QUEUE_WIDTH_MAX
  const IN_BARRIER: int := 0x4000    // in units of `Field`

  /** The word, most significant field first. `suspend` is bits 63-55: any suspension makes it positive, and a
      suspend count is worth 8. `width` is bits 53-41: FULL and above is the queue-full bit. */
  datatype DqState = DqState(
    suspend: nat, inBarrier: bool, width: nat, pending: bool, dirty: bool, onManager: bool, role: nat,
    overridden: bool, qos: nat, owner: Tid, transfer: bool, enqueued: bool)

  predicate Representable(d: DqState) {
    d.suspend < 0x200 && d.width < 0x2000 && d.role < 4 && d.qos < 8 && d.owner < 0x4000_0000
  }

  function Bit(b: bool): nat { if b then 1 else 0 }

  /** Bits 54-40 as one number. */
  function Field(d: DqState): int {
    0x4000 * Bit(d.inBarrier) + 2 * d.width + Bit(d.pending)
  }

  function WithField(d: DqState, x: int): DqState
    requires 0 <= x < 0x8000
  {
    d.(inBarrier := x >= 0x4000, width := (x % 0x4000) / 2, pending := x % 2 == 1)
  }

  /** Bits 39-32. */
  function FlagBits(d: DqState): nat {
    (((Bit(d.dirty) * 2 + Bit(d.onManager)) * 4 + d.role) * 2 + Bit(d.overridden)) * 8 + d.qos
  }

  /** Bits 31-0, with the lock layout whose owner mask is 0xfffffffc. */
  function LockBits(d: DqState): nat {
    d.owner * 4 + Bit(d.transfer) * 2 + Bit(d.enqueued)
  }

  function LowBits(d: DqState): nat {
    FlagBits(d) * 0x1_0000_0000 + LockBits(d)
  }

  /** The 64-bit word. */
  function Word(d: DqState): nat {
    High(d) * 0x0000_0100_0000_0000 + LowBits(d)
  }

  // ---- Accessors -----------------------------------------------------------------------------------------

  predicate Suspended(d: DqState) { d.suspend > 0 }
  predicate SyncRunnable(d: DqState) { d.suspend == 0 && !d.inBarrier }
  predicate Runnable(d: DqState) { d.suspend == 0 && !d.inBarrier && d.width < FULL }
  predicate DrainLocked(d: DqState) { d.owner != 0 }
  function AvailableWidth(d: DqState): int { if d.width < FULL then FULL - d.width else 0 }
  function UsedWidth(d: DqState, w: nat): int {
    if d.pending then d.width - (FULL - w) - (w - 1) else d.width - (FULL - w)
  }

  /** DISPATCH_QUEUE_STATE_INIT_VALUE(w) with a role. */
  function Idle(w: nat, role: nat): DqState
    requires w <= FULL
  {
    DqState(0, false, FULL - w, false, false, false, role, false, 0, 0, false, false)
  }

  /** What remains of the word when a drain lock is taken, with the new owner and the queue-full bit. */
  function Locked(d: DqState, t: Tid, barrier: bool): DqState {
    d.(suspend := 0, inBarrier := barrier, width := FULL, pending := false, dirty := false, overridden := false,
       owner := t, transfer := false)
  }

  /** DISPATCH_QUEUE_DRAIN_UNLOCK_MASK cleared. */
  function Unowned(d: DqState): DqState {
    d.(owner := 0, overridden := false, transfer := false)
  }

  /** The pending-barrier reservation, in units of `Field`. */
  function Reservation(w: nat): int { 1 + 2 * (w - 1) }

  /** The full width can be taken: either it is reserved or nobody uses any of it. */
  predicate FullWidthFree(d: DqState, w: nat) { d.pending || d.width + w - 1 < FULL }

  // ---- The operations ------------------------------------------------------------------------------------

  /** Drain lock; the second component is the returned `owned`, in units of `Field`. */
  function DrainTryLock(d: DqState, w: nat, t: Tid, manager: bool): Option<(DqState, int)> {
    if !Runnable(d) || DrainLocked(d) || (d.onManager && !manager) then None
    else
      var n := Locked(d, t, FullWidthFree(d, w));
      Some((n, 0x4000 * Bit(n.inBarrier) + 2 * FULL - 2 * d.width))
  }

  /** Barrier sync: succeeds only on the completely idle word. */
  function TryAcquireBarrierSync(d: DqState, w: nat, t: Tid, suspendCount: nat): Option<DqState>
    requires w <= FULL
  {
    if d != Idle(w, d.role) then None
    else Some(Idle(w, d.role).(suspend := 8 * suspendCount, inBarrier := true, width := FULL, owner := t))
  }

  function TryReserveSync(d: DqState): Option<DqState> {
    if !SyncRunnable(d) || d.dirty || d.pending then None else Some(d.(width := d.width + 1))
  }

  function TryAcquireAsync(d: DqState): Option<DqState> {
    if !Runnable(d) || d.dirty || d.pending then None else Some(d.(width := d.width + 1))
  }

  /** Apply reservation of up to `n` units; the second component is how many were reserved. */
  function TryReserveApply(d: DqState, w: nat, n: nat): (r: (DqState, nat))
    ensures r.1 <= n && r.1 <= AvailableWidth(d) && r.0 == d.(width := d.width + r.1)
    ensures if w == 1 then r.1 == 0 else r.1 == n || r.1 == AvailableWidth(d)
  {
    if w == 1 then (d, 0)
    else
      var k := if AvailableWidth(d) > n then n else AvailableWidth(d);
      (d.(width := d.width + k), k)
  }

  /** Upgrade of a drainer that owns `owned` to the full width, or a pending barrier if that is not free. */
  function TryUpgrade(d: DqState, w: nat, owned: int): Option<DqState> {
    var x := Field(d) - owned + (if d.pending then 0 else Reservation(w));
    if !(0 <= x < 0x8000) then None
    else
      var n := WithField(d, x);
      var y := if Runnable(n) then x + 2 + IN_BARRIER - 1 else x;
      if y >= 0x8000 then None else Some(WithField(d, y).(dirty := false))
  }

  function AdjustOwned(w: nat, owned: int, nextIsBarrier: bool): int {
    if w > 1 && nextIsBarrier then owned - Reservation(w) else owned
  }

  /** The word minus `owned`; `None` when the subtraction leaves bits 54-40. */
  function Minus(d: DqState, owned: int): Option<DqState> {
    if 0 <= Field(d) - owned < 0x8000 then Some(WithField(d, Field(d) - owned)) else None
  }

  /** Drain unlock; the second component is whether the lock was released. */
  function DrainTryUnlock(d: DqState, owned: int, done: bool): Option<(DqState, bool)> {
    match Minus(d, owned)
    case None => None
    case Some(m) =>
      if Suspended(d) then Some((Unowned(m), true))
      else if d.dirty then Some((d.(dirty := false), false))
      else if done then Some((Unowned(m).(qos := 0), true))
      else Some((Unowned(m).(dirty := true), true))
  }

  /** The unconditional release at the end of an interrupted drain. */
  function InvokeFinish(d: DqState, owned: int): Option<DqState> {
    match Minus(d, owned)
    case None => None
    case Some(m) =>
      var n := Unowned(m).(dirty := true);
      Some(if Runnable(n) && !n.onManager then n.(enqueued := true) else n)
  }

  /** Release of a barrier; fails, clearing the dirty bit, when there may be new work and no wakeup is due. */
  function BarrierComplete(d: DqState, owned: int, wakeup: bool): Option<(DqState, bool)> {
    match Minus(d, owned)
    case None => None
    case Some(m) =>
      if Suspended(d) then Some((Unowned(m).(enqueued := d.enqueued && d.role < 2), true))
      else if wakeup then Some((Unowned(m).(enqueued := d.enqueued || !d.onManager), true))
      else if d.dirty then Some((d.(dirty := false), false))
      else Some((Unowned(m).(qos := 0), true))
  }

  /** A reader returns its unit and takes the barrier over if it was the last. */
  function NonBarrierComplete(d: DqState, w: nat, t: Tid): Option<DqState> {
    if d.width == 0 then None
    else
      var n := d.(width := d.width - 1);
      if DrainLocked(d) then Some(n.(dirty := true))
      else if !Runnable(n) then Some(n)
      else if n.width + (if n.pending then 1 else w) == FULL then
        Some(n.(inBarrier := true, width := FULL, pending := false, dirty := false, owner := t))
      else if d.dirty then Some(n.(enqueued := true))
      else Some(n)
  }

  /** A sync waiter is first in the list. */
  function PushWaiter(d: DqState, w: nat, t: Tid): DqState {
    // on an enqueued workloop the event thread drives the waiter instead
    if DrainLocked(d) || !Runnable(d) || (d.role >= 2 && (d.enqueued || d.onManager)) || !FullWidthFree(d, w)
    then d.(dirty := true)
    else Locked(d, t, true)
  }

  /** Resume of a queue with suspend counts only. */
  function Resume(d: DqState, w: nat, t: Tid): Option<DqState> {
    if d.suspend < 8 then None
    else
      var n := d.(suspend := d.suspend - 8);
      if !Runnable(n) || DrainLocked(n) then Some(n.(dirty := true))
      else if FullWidthFree(n, w) then Some(Locked(n, t, true))
      else Some(Unowned(n).(qos := 0))
  }

  // ---- The machine ---------------------------------------------------------------------------------------

  /** Who owns the drain lock: nobody, a thread in barrier mode, a thread with so many units of its own. */
  datatype Hold = Free | Barrier(tid: Tid) | Width(tid: Tid, units: nat)

  datatype State = State(dq: DqState, w: nat, readers: nat, hold: Hold)

  datatype Action =
    | Lock(t: Tid, manager: bool) | BarrierSync(t: Tid, suspendCount: nat) | ReserveSync | AcquireAsync | ReserveApply(n: nat)
    | ReturnApply(n: nat) | Complete(t: Tid) | Upgrade | DropBarrier | HandOver | DrainReserveSync | DrainAcquireAsync
    | Unlock(done: bool) | Finish(next: bool) | CompleteBarrier(wakeup: bool)
    | Waiter(t: Tid) | MakeDirty | Enqueued(b: bool) | Override(b: bool, qos: nat) | Suspend | ResumeBy(t: Tid)

  function Units(s: State): nat {
    match s.hold case Free => 0 case Barrier(_) => s.w case Width(_, k) => k
  }

  /** What the drain loop passes as `owned` when it leaves: everything that is its own. */
  function Owned(s: State): int {
    match s.hold case Free => 0 case Barrier(_) => IN_BARRIER + 2 * s.w case Width(_, k) => 2 * k
  }

  function Step(s: State, a: Action): Option<State> {
    var d, w := s.dq, s.w;
    match a
    case Lock(t, manager) =>
      if t == 0 then None
      else
        match DrainTryLock(d, w, t, manager) {
          case None => None
          case Some((n, owned)) => Some(s.(dq := n, hold := if n.inBarrier then Barrier(t) else Width(t, FULL - d.width)))
        }
    case BarrierSync(t, sc) =>
      if t == 0 || sc > 1 || w > FULL then None
      else
        match TryAcquireBarrierSync(d, w, t, sc) {
          case None => None
          case Some(n) => Some(s.(dq := n, hold := Barrier(t)))
        }
    // sync readers do not observe the limit; 4096 units on top of a pending barrier fill the 13-bit field
    case ReserveSync =>
      if TryReserveSync(d).None? || s.readers + Units(s) >= 0x1000 then None
      else Some(s.(dq := TryReserveSync(d).value, readers := s.readers + 1))
    case AcquireAsync =>
      if TryAcquireAsync(d).None? then None else Some(s.(dq := TryAcquireAsync(d).value, readers := s.readers + 1))
    case ReserveApply(n) =>
      var r := TryReserveApply(d, w, n);
      Some(s.(dq := r.0, readers := s.readers + r.1))
    case ReturnApply(n) =>
      if n > s.readers || n > d.width then None else Some(s.(dq := d.(width := d.width - n), readers := s.readers - n))
    case Complete(t) =>
      if s.readers == 0 || t == 0 || NonBarrierComplete(d, w, t).None? then None
      else
        var n := NonBarrierComplete(d, w, t).value;
        Some(s.(dq := n, readers := s.readers - 1, hold := if n.owner != d.owner then Barrier(t) else s.hold))
    case Upgrade =>
      if !s.hold.Width? || w < 2 || TryUpgrade(d, w, Owned(s)).None? then None
      else
        var n := TryUpgrade(d, w, Owned(s)).value;
        Some(s.(dq := n, hold := if n.inBarrier then Barrier(s.hold.tid) else Width(s.hold.tid, 0)))
    case DropBarrier =>
      if s.hold.Barrier? then Some(s.(dq := d.(inBarrier := false), hold := Width(s.hold.tid, w))) else None
    case HandOver =>
      if s.hold.Width? && s.hold.units > 0 then
        Some(s.(readers := s.readers + 1, hold := Width(s.hold.tid, s.hold.units - 1)))
      else None
    case DrainReserveSync =>
      if s.hold.Width? && s.hold.units == 0 && s.readers < 0x1000 then
        Some(s.(dq := d.(width := d.width + 1), hold := Width(s.hold.tid, 1)))
      else None
    case DrainAcquireAsync =>
      if s.hold.Width? && s.hold.units == 0 && TryAcquireAsync(d).Some? then
        Some(s.(dq := TryAcquireAsync(d).value, hold := Width(s.hold.tid, 1)))
      else None
    // only an exit that goes past drain_try_unlock adjusts what it owns
    case Unlock(done) =>
      if s.hold.Free? then None
      else
        match DrainTryUnlock(d, Owned(s), done) {
          case None => None
          case Some((n, released)) => Some(s.(dq := n, hold := if released then Free else s.hold))
        }
    case Finish(next) =>
      if s.hold.Free? then None
      else
        match InvokeFinish(d, AdjustOwned(w, Owned(s), next)) {
          case None => None
          case Some(n) => Some(s.(dq := n, hold := Free))
        }
    case CompleteBarrier(wakeup) =>
      if !s.hold.Barrier? then None
      else
        match BarrierComplete(d, Owned(s), wakeup) {
          case None => None
          case Some((n, released)) => Some(s.(dq := n, hold := if released then Free else s.hold))
        }
    case Waiter(t) =>
      if t == 0 then None
      else
        var n := PushWaiter(d, w, t);
        Some(s.(dq := n, hold := if n.owner != d.owner then Barrier(t) else s.hold))
    case MakeDirty => Some(s.(dq := d.(dirty := true)))
    case Enqueued(b) => Some(s.(dq := d.(enqueued := b)))
    case Override(b, qos) => if qos < 8 then Some(s.(dq := d.(overridden := b, qos := qos))) else None
    case Suspend => if d.suspend + 8 < 0x200 then Some(s.(dq := d.(suspend := d.suspend + 8))) else None
    case ResumeBy(t) =>
      if t == 0 || Resume(d, w, t).None? then None
      else
        var n := Resume(d, w, t).value;
        Some(s.(dq := n, hold := if n.owner != d.owner then Barrier(t) else s.hold))
  }

  // ---- The invariant -------------------------------------------------------------------------------------

  /** The width field is what nobody has, plus what readers have, plus what the drainer has, plus the
      reservation of a pending barrier. */
  predicate Balanced(s: State) {
    s.dq.width == FULL - s.w + s.readers + Units(s) + (if s.dq.pending then s.w - 1 else 0)
  }

  predicate Inv(s: State) {
    && 1 <= s.w <= WIDTH_MAX && s.readers + Units(s) <= 0x1000
    && Balanced(s)
    && (s.dq.inBarrier <==> s.hold.Barrier?)
    && (s.dq.inBarrier ==> s.readers == 0 && !s.dq.pending)
    && (s.dq.pending ==> s.w > 1)
    && s.dq.owner == (if s.hold.Free? then 0 else s.hold.tid)
    && (!s.hold.Free? ==> s.hold.tid != 0)
  }

  /** An exit of the drain that reserves for the next barrier although a reservation is already there. */
  predicate DoubleReserves(s: State, a: Action) {
    s.w > 1 && s.dq.pending && a.Finish? && a.next
  }

  lemma LockKeeps(s: State, a: Action)
    requires Inv(s) && Step(s, a).Some? && (a.Lock? || a.BarrierSync? || a.Waiter? || a.ResumeBy? || a.Complete?)
    ensures Inv(Step(s, a).value)
  {
  }

  lemma ReaderKeeps(s: State, a: Action)
    requires Inv(s) && Step(s, a).Some?
    requires a.ReserveSync? || a.AcquireAsync? || a.ReserveApply? || a.ReturnApply? || a.HandOver?
             || a.DrainReserveSync? || a.DrainAcquireAsync?
    ensures Inv(Step(s, a).value)
  {
  }

  lemma FieldWritten(d: DqState, x: int, width: int, pending: bool)
    requires 0 <= width < 0x2000 && x == 2 * width + Bit(pending)
    ensures WithField(d, x) == d.(inBarrier := false, width := width, pending := pending)
    ensures WithField(d, x + IN_BARRIER) == d.(inBarrier := true, width := width, pending := pending)
  {
  }

  /** What an upgrade does, for any drainer in width mode. */
  lemma UpgradeTaken(s: State)
    requires Inv(s) && s.hold.Width? && s.w > 1
    ensures var n := if s.readers == 0 && !Suspended(s.dq) then s.dq.(inBarrier := true, width := FULL, pending := false, dirty := false)
                     else s.dq.(width := FULL - s.w + s.readers + (s.w - 1), pending := true, dirty := false);
            TryUpgrade(s.dq, s.w, Owned(s)) == Some(n)
  {
    var x := Field(s.dq) - Owned(s) + (if s.dq.pending then 0 else Reservation(s.w));
    var width := FULL - s.w + s.readers + (s.w - 1);
    FieldWritten(s.dq, x, width, true);
    if s.readers == 0 { FieldWritten(s.dq, x + 1, FULL, false); }
  }

  lemma UpgradeKeeps(s: State)
    requires Inv(s) && Step(s, Upgrade).Some?
    ensures Inv(Step(s, Upgrade).value)
  {
    UpgradeTaken(s);
  }

  /** Bits 54-40 after subtracting what the drainer owns, with the reservation for the next barrier or not. */
  lemma OwnedReturned(s: State, next: bool)
    requires Inv(s) && !s.hold.Free?
    requires s.w > 1 && next ==> !s.dq.pending
    ensures var m := Minus(s.dq, AdjustOwned(s.w, Owned(s), next));
            && m.Some? && !m.value.inBarrier && m.value.pending == (s.dq.pending || (s.w > 1 && next))
            && m.value.width == FULL - s.w + s.readers + (if m.value.pending then s.w - 1 else 0)
  {
    var pending := s.dq.pending || (s.w > 1 && next);
    var width := FULL - s.w + s.readers + (if pending then s.w - 1 else 0);
    var x := Field(s.dq) - AdjustOwned(s.w, Owned(s), next);
    FieldLeft(s, next, width, pending);
    FieldWritten(s.dq, x, width, pending);
  }

  lemma FieldLeft(s: State, next: bool, width: int, pending: bool)
    requires Inv(s) && !s.hold.Free? && (s.w > 1 && next ==> !s.dq.pending)
    requires pending == (s.dq.pending || (s.w > 1 && next))
    requires width == FULL - s.w + s.readers + (if pending then s.w - 1 else 0)
    ensures 0 <= width < 0x2000 && Field(s.dq) - AdjustOwned(s.w, Owned(s), next) == 2 * width + Bit(pending)
  {
  }

  lemma ReleaseKeeps(s: State, a: Action)
    requires Inv(s) && Step(s, a).Some? && (a.Unlock? || a.Finish? || a.CompleteBarrier? || a.DropBarrier?)
    requires !DoubleReserves(s, a)
    ensures Inv(Step(s, a).value)
  {
    if a.Unlock? { UnlockKeeps(s, a); } else if a.Finish? { FinishKeeps(s, a); } else { BarrierEndKeeps(s, a); }
  }

  lemma UnlockKeeps(s: State, a: Action)
    requires Inv(s) && Step(s, a).Some? && a.Unlock?
    ensures Inv(Step(s, a).value)
  {
    OwnedReturned(s, false);
  }

  lemma FinishKeeps(s: State, a: Action)
    requires Inv(s) && Step(s, a).Some? && a.Finish? && !DoubleReserves(s, a)
    ensures Inv(Step(s, a).value)
  {
    OwnedReturned(s, a.next);
  }

  lemma BarrierEndKeeps(s: State, a: Action)
    requires Inv(s) && Step(s, a).Some? && (a.CompleteBarrier? || a.DropBarrier?)
    ensures Inv(Step(s, a).value)
  {
    if a.CompleteBarrier? { OwnedReturned(s, false); }
  }

  lemma EnvKeeps(s: State, a: Action)
    requires Inv(s) && Step(s, a).Some? && (a.MakeDirty? || a.Enqueued? || a.Override? || a.Suspend?)
    ensures Inv(Step(s, a).value)
  {
  }

  lemma StepKeeps(s: State, a: Action)
    requires Inv(s) && Step(s, a).Some? && !DoubleReserves(s, a)
    ensures Inv(Step(s, a).value)
  {
    if a.Lock? || a.BarrierSync? || a.Waiter? || a.ResumeBy? || a.Complete? {
      LockKeeps(s, a);
    } else if a.Upgrade? {
      UpgradeKeeps(s);
    } else if a.Unlock? || a.Finish? || a.CompleteBarrier? || a.DropBarrier? {
      ReleaseKeeps(s, a);
    } else if a.MakeDirty? || a.Enqueued? || a.Override? || a.Suspend? {
      EnvKeeps(s, a);
    } else {
      ReaderKeeps(s, a);
    }
  }

  // ---- What every run guarantees -------------------------------------------------------------------------

  /** Runs in which no drain reserves twice for the same barrier. */
  function Clean(s: State, a: Action): Option<State> {
    if DoubleReserves(s, a) then None else Step(s, a)
  }

  function Start(w: nat, role: nat): State
    requires 1 <= w <= WIDTH_MAX
  {
    State(Idle(w, role), w, 0, Free)
  }

  lemma Reachable(w: nat, role: nat, acts: seq<Action>)
    requires 1 <= w <= WIDTH_MAX
    ensures var r := Exec(Clean, Start(w, role), acts); r.Some? ==> Inv(r.value)
  {
    forall p, a | Inv(p) && Clean(p, a).Some? ensures Inv(Clean(p, a).value) {
      StepKeeps(p, a);
    }
    Invariance(Clean, Inv, Start(w, role), acts);
  }

  /** After a second reservation: nobody holds the lock, the field shows more than the whole width in use, and the dirty
      bit keeps sync readers out. */
  predicate Wedged(s: State) {
    && 1 < s.w <= WIDTH_MAX && s.hold.Free? && s.dq.owner == 0 && !s.dq.inBarrier && !s.dq.pending && s.dq.dirty
    && s.dq.width == FULL + s.w - 1 + s.readers
  }

  /** The second reservation carries into IN_BARRIER. */
  predicate Overflows(s: State, a: Action) { DoubleReserves(s, a) && s.readers + s.w > 0x1000 }

  /** What a second reservation does to bits 54-40, in every state of a run: either the queue is wedged, or, exactly
      when the readers and the width of the queue exceed 4096, IN_BARRIER is set although there are readers. */
  lemma SecondReservation(s: State, a: Action)
    requires Inv(s) && DoubleReserves(s, a) && Step(s, a).Some?
    ensures var t := Step(s, a).value;
            && t.hold.Free? && t.readers == s.readers
            && (if Overflows(s, a) then t.dq.inBarrier && t.readers > 0 else Wedged(t))
  {
    var x := Field(s.dq) - AdjustOwned(s.w, Owned(s), true);
    assert x == 2 * (FULL - 1 + s.readers + s.w);
    if Overflows(s, a) {
      FieldWritten(s.dq, x - IN_BARRIER, FULL - 1 + s.readers + s.w - 0x2000, false);
    } else {
      FieldWritten(s.dq, x, FULL - 1 + s.readers + s.w, false);
    }
  }

  /** All runs but those in which a second reservation carries into IN_BARRIER. */
  function Tame(s: State, a: Action): Option<State> {
    if Overflows(s, a) then None else Step(s, a)
  }

  lemma WedgedStays(s: State, a: Action)
    requires Wedged(s) && Step(s, a).Some?
    ensures Wedged(Step(s, a).value) && Step(s, a).value.readers <= s.readers
  {
  }

  lemma TameReachable(w: nat, role: nat, acts: seq<Action>)
    requires 1 <= w <= WIDTH_MAX
    ensures var r := Exec(Tame, Start(w, role), acts); r.Some? ==> Inv(r.value) || Wedged(r.value)
  {
    var both := (s: State) => Inv(s) || Wedged(s);
    forall p, a | both(p) && Tame(p, a).Some? ensures both(Tame(p, a).value) {
      if !Inv(p) { WedgedStays(p, a); } else if DoubleReserves(p, a) { SecondReservation(p, a); } else { StepKeeps(p, a); }
    }
    Invariance(Tame, both, Start(w, role), acts);
  }

  /** Nobody can lock a wedged queue again, whatever happens later, and no reader can come. */
  lemma {:induction false} WedgedForever(s: State, acts: seq<Action>, t: State)
    requires Wedged(s) && Exec(Step, s, acts) == Some(t)
    ensures Wedged(t) && t.readers <= s.readers && TryReserveSync(t.dq) == None
    ensures forall u, m :: DrainTryLock(t.dq, t.w, u, m) == None
    decreases |acts|
  {
    if acts != [] {
      var p := Exec(Step, s, acts[..|acts| - 1]).value;
      WedgedForever(s, acts[..|acts| - 1], p);
      WedgedStays(p, acts[|acts| - 1]);
    }
  }

  /** Mutual exclusion: while a barrier runs nobody holds a reader unit, every reservation fails and so does every
      other attempt to lock; the owner in the word is the one thread that holds the drain lock. */
  ghost predicate Exclusive(s: State) {
    && (s.dq.inBarrier <==> s.hold.Barrier?)
    && (s.hold.Free? <==> s.dq.owner == 0)
    && (!s.hold.Free? ==> s.dq.owner == s.hold.tid && forall t, m :: DrainTryLock(s.dq, s.w, t, m) == None)
    && (s.dq.inBarrier ==>
          && s.readers == 0 && TryReserveSync(s.dq) == None && TryAcquireAsync(s.dq) == None
          && (forall n :: TryReserveApply(s.dq, s.w, n) == (s.dq, 0))
          && (s.w <= FULL && forall t, k :: TryAcquireBarrierSync(s.dq, s.w, t, k) == None))
  }

  /** In every run mutual exclusion holds as long as no second reservation carries into IN_BARRIER, and it fails with
      the step that does. */
  lemma BarrierExcludes(w: nat, role: nat, acts: seq<Action>, s: State, a: Action)
    requires 1 <= w <= WIDTH_MAX && Exec(Tame, Start(w, role), acts) == Some(s)
    ensures Exclusive(s)
    ensures Step(s, a).Some? ==> (Exclusive(Step(s, a).value) <==> !Overflows(s, a))
  {
    TameReachable(w, role, acts);
    InvExclusive(s);
    if Step(s, a).Some? {
      if Overflows(s, a) {
        SecondReservation(s, a);
      } else {
        if !Inv(s) { WedgedStays(s, a); } else if DoubleReserves(s, a) { SecondReservation(s, a); } else { StepKeeps(s, a); }
        InvExclusive(Step(s, a).value);
      }
    }
  }

  lemma InvExclusive(s: State)
    requires Inv(s) || Wedged(s)
    ensures Exclusive(s)
  {
    if s.dq.inBarrier { BarrierBlocks(s); }
  }

  lemma BarrierBlocks(s: State)
    requires Inv(s) && s.dq.inBarrier
    ensures TryReserveSync(s.dq) == None && TryAcquireAsync(s.dq) == None
    ensures forall n :: TryReserveApply(s.dq, s.w, n) == (s.dq, 0)
    ensures forall t, k :: TryAcquireBarrierSync(s.dq, s.w, t, k) == None
  {
  }

  /** `_dq_state_used_width` is the number of units that readers and the drainer truly hold. */
  lemma UsedWidthIsHeld(w: nat, role: nat, acts: seq<Action>, s: State)
    requires 1 <= w <= WIDTH_MAX && Exec(Clean, Start(w, role), acts) == Some(s)
    ensures UsedWidth(s.dq, s.w) == s.readers + Units(s)
    ensures s.readers == 0 && s.hold.Free? && !s.dq.pending ==> s.dq.width == FULL - s.w
  {
    Reachable(w, role, acts);
  }

  /** A drain lock that fails to upgrade keeps nothing but one reservation for the barrier; it succeeds exactly
      when no reader is left and the queue is not suspended. */
  lemma UpgradeOrReserve(w: nat, role: nat, acts: seq<Action>, s: State)
    requires 1 <= w <= WIDTH_MAX && Exec(Clean, Start(w, role), acts) == Some(s) && s.hold.Width? && s.w > 1
    ensures Step(s, Upgrade).Some?
    ensures var t := Step(s, Upgrade).value;
            if s.readers == 0 && !Suspended(s.dq) then t.hold == Barrier(s.hold.tid) && t.dq.width == FULL && !t.dq.pending
            else t.hold == Width(s.hold.tid, 0) && t.dq.pending && t.dq.width == FULL - s.w + s.readers + (s.w - 1)
  {
    Reachable(w, role, acts);
    UpgradeTaken(s);
  }

  /** Actions of other threads that a drainer can see between its lock and its unlock. */
  predicate Traffic(a: Action) {
    a.ReserveSync? || a.AcquireAsync? || a.ReserveApply? || a.ReturnApply? || a.Complete? || a.Waiter? || a.MakeDirty?
    || a.Enqueued? || a.Override? || a.Suspend? || a.ResumeBy?
  }

  lemma {:induction false} TrafficKeepsHold(s: State, acts: seq<Action>, t: State)
    requires Inv(s) && !s.hold.Free? && (forall a :: a in acts ==> Traffic(a)) && Exec(Clean, s, acts) == Some(t)
    ensures Inv(t) && t.hold == s.hold && t.w == s.w && (!s.dq.pending ==> !t.dq.pending)
    decreases |acts|
  {
    if acts != [] {
      var p := Exec(Clean, s, acts[..|acts| - 1]).value;
      TrafficKeepsHold(s, acts[..|acts| - 1], p);
      TrafficStep(p, acts[|acts| - 1]);
    }
  }

  lemma TrafficStep(s: State, a: Action)
    requires Inv(s) && !s.hold.Free? && Traffic(a) && Clean(s, a).Some?
    ensures var t := Clean(s, a).value; Inv(t) && t.hold == s.hold && t.w == s.w && (!s.dq.pending ==> !t.dq.pending)
  {
    StepKeeps(s, a);
  }

  /** Conservation. A drain lock returns as `owned` exactly what it holds if and only if no barrier was pending
      when it was taken. */
  lemma LockReturnsWhatItHolds(s: State, t: Tid, manager: bool)
    requires Inv(s) && t != 0 && DrainTryLock(s.dq, s.w, t, manager).Some?
    ensures var r := Step(s, Lock(t, manager));
            r.Some? && (DrainTryLock(s.dq, s.w, t, manager).value.1 == Owned(r.value) <==> !s.dq.pending)
  {
  }

  /** It does not, for instance, when a drainer in width mode has left for a barrier that comes next: the reservation
      is still there when the queue is locked again. */
  lemma LockReturnsLess()
    ensures var r := Exec(Step, Start(2, 0), [Lock(1, false), DropBarrier, Finish(true)]);
            && r.Some? && r.value.dq.pending && DrainTryLock(r.value.dq, 2, 3, false).Some?
            && Step(r.value, Lock(3, false)).Some?
            && DrainTryLock(r.value.dq, 2, 3, false).value.1 == IN_BARRIER + 2
            && Owned(Step(r.value, Lock(3, false)).value) == IN_BARRIER + 4
  {
    var i := Idle(2, 0);
    var s0, s1 := Start(2, 0), State(i.(inBarrier := true, width := FULL, owner := 1), 2, 0, Barrier(1));
    var s2 := State(i.(width := FULL, owner := 1), 2, 0, Width(1, 2));
    var s3 := State(i.(width := FULL - 1, pending := true, dirty := true, enqueued := true), 2, 0, Free);
    assert Step(s0, Lock(1, false)) == Some(s1) && Step(s1, DropBarrier) == Some(s2);
    assert Step(s2, Finish(true)) == Some(s3) by {
      FieldWritten(s2.dq, 2 * (FULL - 1) + 1, FULL - 1, true);
    }
    Trace(Step, [s0, s1, s2, s3], [Lock(1, false), DropBarrier, Finish(true)]);
  }

  /** Lock, any traffic, unlock with the returned `owned`: the width is the initial one plus the readers of now. */
  lemma LockTrafficUnlock(s: State, t: Tid, manager: bool, acts: seq<Action>, u: State, done: bool)
    requires Inv(s) && !s.dq.pending && t != 0 && DrainTryLock(s.dq, s.w, t, manager).Some?
    requires Step(s, Lock(t, manager)).Some? && (forall a :: a in acts ==> Traffic(a))
    requires Exec(Clean, Step(s, Lock(t, manager)).value, acts) == Some(u)
    ensures var r := DrainTryUnlock(u.dq, DrainTryLock(s.dq, s.w, t, manager).value.1, done);
            && r.Some?
            && (if r.value.1 then r.value.0.owner == 0 && !r.value.0.inBarrier && r.value.0.width == FULL - s.w + u.readers
                else u.dq.dirty && r.value.0 == u.dq.(dirty := false))
  {
    LockReturnsWhatItHolds(s, t, manager);
    StepKeeps(s, Lock(t, manager));
    TrafficKeepsHold(Step(s, Lock(t, manager)).value, acts, u);
    OwnedReturned(u, false);
  }

  /** An exit that reserves for the next barrier keeps the balance, with exactly one reservation, if and only if
      none was there. */
  lemma AdjustedExit(s: State, t: State)
    requires Inv(s) && s.w > 1 && !s.hold.Free? && Step(s, Finish(true)) == Some(t)
    ensures Balanced(t) <==> !s.dq.pending
    ensures !s.dq.pending ==> t.dq.pending && t.dq.width == FULL - s.w + s.readers + (s.w - 1)
  {
    if !s.dq.pending { OwnedReturned(s, true); }
  }

  /** The second reservation does happen: a drainer fails to upgrade while a reader runs, the reader completes,
      the unlock is refused because the word is dirty, the queue is suspended, and the drain that starts over
      leaves at once and reserves again. Afterwards nobody holds anything, yet the whole width is in use and no
      drain lock can be taken. */
  lemma DoubleReservationRun()
    ensures var r := Exec(Step, Start(2, 0), RESERVING);
            && r.Some? && r.value.hold.Free? && r.value.readers == 0 && !r.value.dq.pending && !Suspended(r.value.dq)
            && UsedWidth(r.value.dq, 2) == 3 && forall t, m :: DrainTryLock(r.value.dq, 2, t, m) == None
  {
    var states := [RunState(0), RunState(1), RunState(2), RunState(3), RunState(4),
                   RunState(5), RunState(6), RunState(7), RunState(8), RunState(9)];
    RunBegins();
    RunReserves();
    RunSuspends();
    RunFinishes();
    RunResumes();
    Trace(Step, states, RESERVING);
  }

  const RESERVING: seq<Action> :=
    [Lock(1, false), DropBarrier, HandOver, Upgrade, Complete(2), Unlock(false), Suspend, Finish(true), ResumeBy(3)]

  /** The states of that run. */
  function RunState(k: nat): State
    requires k < 10
  {
    var i := Idle(2, 0);
    var pending := i.(width := FULL - 1, pending := true, owner := 1);
    if k == 0 then State(i, 2, 0, Free)
    else if k == 1 then State(i.(inBarrier := true, width := FULL, owner := 1), 2, 0, Barrier(1))
    else if k == 2 then State(i.(width := FULL, owner := 1), 2, 0, Width(1, 2))
    else if k == 3 then State(i.(width := FULL, owner := 1), 2, 1, Width(1, 1))
    else if k == 4 then State(pending.(width := FULL), 2, 1, Width(1, 0))
    else if k == 5 then State(pending.(dirty := true), 2, 0, Width(1, 0))
    else if k == 6 then State(pending, 2, 0, Width(1, 0))
    else if k == 7 then State(pending.(suspend := 8), 2, 0, Width(1, 0))
    else if k == 8 then State(i.(suspend := 8, width := FULL + 1, dirty := true), 2, 0, Free)
    else State(i.(width := FULL + 1, dirty := true), 2, 0, Free)
  }

  lemma RunBegins()
    ensures Step(RunState(0), Lock(1, false)) == Some(RunState(1))
    ensures Step(RunState(1), DropBarrier) == Some(RunState(2))
    ensures Step(RunState(2), HandOver) == Some(RunState(3))
  {
  }

  lemma RunReserves()
    ensures Step(RunState(3), Upgrade) == Some(RunState(4))
    ensures Step(RunState(4), Complete(2)) == Some(RunState(5))
    ensures Step(RunState(5), Unlock(false)) == Some(RunState(6))
  {
    UpgradeTaken(RunState(3));
    assert NonBarrierComplete(RunState(4).dq, 2, 2) == Some(RunState(5).dq);
    assert DrainTryUnlock(RunState(5).dq, 0, false) == Some((RunState(6).dq, false));
  }

  lemma RunSuspends()
    ensures Step(RunState(6), Suspend) == Some(RunState(7))
  {
  }

  lemma RunFinishes()
    ensures Step(RunState(7), Finish(true)) == Some(RunState(8))
  {
  }

  lemma RunResumes()
    ensures Step(RunState(8), ResumeBy(3)) == Some(RunState(9))
  {
  }

  /** And it carries into IN_BARRIER on a concurrent queue of the usual width with three readers left: the barrier
      bit is set, nobody owns the lock, and the readers are still running. */
  lemma BarrierOverReaders()
    ensures var r := Exec(Step, Start(WIDTH_MAX, 0), OVERFLOWING);
            r.Some? && r.value.dq.inBarrier && r.value.hold.Free? && r.value.readers == 3
  {
    var states := seq(12, k requires 0 <= k < 12 => OverflowState(k));
    forall k | 0 <= k < 11 ensures Step(states[k], OVERFLOWING[k]) == Some(states[k + 1]) {
      if k < 6 { OverflowBegins(k); } else { OverflowEnds(k); }
    }
    Trace(Step, states, OVERFLOWING);
  }

  const OVERFLOWING: seq<Action> :=
    [Lock(1, false), DropBarrier, HandOver, HandOver, HandOver, HandOver, Upgrade, Complete(2), Unlock(false), Suspend,
     Finish(true)]

  function OverflowState(k: nat): State
    requires k < 12
  {
    var i := Idle(WIDTH_MAX, 0);
    if k == 0 then State(i, WIDTH_MAX, 0, Free)
    else if k == 1 then State(i.(inBarrier := true, width := FULL, owner := 1), WIDTH_MAX, 0, Barrier(1))
    else if k < 7 then State(i.(width := FULL, owner := 1), WIDTH_MAX, k - 2, Width(1, WIDTH_MAX - (k - 2)))
    else if k == 7 then State(i.(width := FULL + 3, pending := true, owner := 1), WIDTH_MAX, 4, Width(1, 0))
    else if k == 8 then State(i.(width := FULL + 2, pending := true, dirty := true, owner := 1), WIDTH_MAX, 3, Width(1, 0))
    else if k == 9 then State(i.(width := FULL + 2, pending := true, owner := 1), WIDTH_MAX, 3, Width(1, 0))
    else if k == 10 then State(i.(width := FULL + 2, pending := true, owner := 1, suspend := 8), WIDTH_MAX, 3, Width(1, 0))
    else State(i.(width := 0, inBarrier := true, dirty := true, suspend := 8), WIDTH_MAX, 3, Free)
  }

  lemma OverflowBegins(k: nat)
    requires k < 6
    ensures Step(OverflowState(k), OVERFLOWING[k]) == Some(OverflowState(k + 1))
  {
  }

  lemma OverflowEnds(k: nat)
    requires 6 <= k < 11
    ensures Step(OverflowState(k), OVERFLOWING[k]) == Some(OverflowState(k + 1))
  {
    var s := OverflowState(k);
    if k == 6 {
      UpgradeTaken(s);
    } else if k == 7 {
      assert NonBarrierComplete(s.dq, s.w, 2) == Some(OverflowState(8).dq);
    } else if k == 8 {
      assert DrainTryUnlock(s.dq, 0, false) == Some((OverflowState(9).dq, false));
    }
  }

  // ---- When each attempt succeeds, and what it leaves behind ---------------------------------------------
  //
  // In every state of a run without a second reservation, in terms of who holds what.

  /** Nobody holds the lock and the queue is not suspended. */
  predicate Open(s: State) { s.hold.Free? && !Suspended(s.dq) }

  /** The drain lock is granted exactly when the queue is open, a unit is to be had (with a barrier pending: no reader
      is left), and the caller may drain it. It is a barrier exactly when there is no reader; otherwise the drainer
      gets all units that readers do not have. */
  lemma LockGranted(s: State, t: Tid, manager: bool)
    requires Inv(s) && t != 0
    ensures Step(s, Lock(t, manager)).Some? <==>
              Open(s) && (if s.dq.pending then s.readers == 0 else s.readers < s.w) && (s.dq.onManager ==> manager)
    ensures Step(s, Lock(t, manager)).Some? ==>
              var n := Step(s, Lock(t, manager)).value;
              && n.readers == s.readers && !n.dq.dirty && !n.dq.pending
              && !n.dq.overridden && !n.dq.transfer && n.dq.qos == s.dq.qos && n.dq.enqueued == s.dq.enqueued
              && n.hold == if s.readers == 0 then Barrier(t) else Width(t, s.w - s.readers)
  {
  }

  /** A sync reader gets in exactly when the queue is not suspended, in no barrier, not dirty, and no barrier waits. */
  lemma SyncGranted(s: State)
    requires Inv(s) && s.readers + Units(s) < 0x1000
    ensures Step(s, ReserveSync).Some? <==> !Suspended(s.dq) && !s.hold.Barrier? && !s.dq.dirty && !s.dq.pending
    ensures Step(s, ReserveSync).Some? ==>
              var n := Step(s, ReserveSync).value;
              n.readers == s.readers + 1 && n.hold == s.hold && n.dq == s.dq.(width := n.dq.width)
  {
  }

  /** An async reader needs a free unit besides. */
  lemma AsyncGranted(s: State)
    requires Inv(s)
    ensures Step(s, AcquireAsync).Some? <==>
              !Suspended(s.dq) && !s.hold.Barrier? && !s.dq.dirty && !s.dq.pending && s.readers + Units(s) < s.w
    ensures Step(s, AcquireAsync).Some? ==>
              var n := Step(s, AcquireAsync).value;
              n.readers == s.readers + 1 && n.hold == s.hold && n.dq == s.dq.(width := n.dq.width)
  {
  }

  /** What an apply gets: nothing on a serial queue, otherwise as much as it asks for of the units that nobody holds. A
      pending barrier leaves one unit, as long as nobody holds any. */
  lemma ApplyGranted(s: State, n: nat)
    requires Inv(s)
    ensures var free := if s.hold.Barrier? then 0 else (if s.dq.pending then 1 else s.w) - s.readers - Units(s);
            && Step(s, ReserveApply(n)).Some?
            && Step(s, ReserveApply(n)).value.readers
               == s.readers + (if s.w == 1 || free <= 0 then 0 else if n < free then n else free)
            && Step(s, ReserveApply(n)).value.hold == s.hold
  {
  }

  /** A barrier sync gets in exactly on an idle queue: nothing held, nothing pending, and no other bit but the role. */
  lemma BarrierSyncGranted(s: State, t: Tid, k: nat)
    requires Inv(s) && t != 0 && k <= 1
    ensures Step(s, BarrierSync(t, k)).Some? <==>
              && Open(s) && s.readers == 0 && !s.dq.pending && !s.dq.dirty && !s.dq.onManager && !s.dq.overridden
              && s.dq.qos == 0 && !s.dq.transfer && !s.dq.enqueued
    ensures Step(s, BarrierSync(t, k)).Some? ==>
              var n := Step(s, BarrierSync(t, k)).value;
              n.hold == Barrier(t) && n.readers == 0 && n.dq.suspend == 8 * k && n.dq.role == s.dq.role
  {
  }

  /** A completing reader gives its unit back, and then somebody sees to what was waiting: on an open queue the last
      reader takes the barrier itself, and one that is not the last enqueues a queue that is dirty and has a unit;
      a drainer is told by the dirty bit. */
  lemma CompletionHandsOver(s: State, t: Tid)
    requires Inv(s) && t != 0 && s.readers > 0
    ensures Step(s, Complete(t)).Some?
    ensures var n := Step(s, Complete(t)).value;
            && n.readers == s.readers - 1
            && (n.hold == Barrier(t) && s.hold.Free? <==> Open(s) && n.readers == 0)
            && (!(Open(s) && n.readers == 0) ==> n.hold == s.hold && n.dq.pending == s.dq.pending)
            && (Open(s) && n.readers == 0 ==> !n.dq.pending && !n.dq.dirty && n.dq.enqueued == s.dq.enqueued)
            && (Open(s) && n.readers > 0 && s.dq.dirty && !s.dq.pending && n.readers < s.w ==> n.dq.enqueued)
            && (!s.hold.Free? ==> n.dq.dirty)
            && (n.hold.Free? ==> n.dq.dirty == s.dq.dirty && (n.dq.enqueued ==> s.dq.enqueued || s.dq.dirty))
  {
  }

  /** The same over runs: in every state of a run without a second reservation in which nobody holds the lock and the
      queue is not suspended, the completing thread takes the barrier exactly when no reader is left, so that a pending
      barrier is never forgotten; and when it does not, a dirty queue with a unit to give is enqueued. */
  lemma LastReaderTakesOver(w: nat, role: nat, acts: seq<Action>, s: State, t: Tid)
    requires 1 <= w <= WIDTH_MAX && Exec(Clean, Start(w, role), acts) == Some(s) && Open(s) && s.readers > 0 && t != 0
    ensures Step(s, Complete(t)).Some?
    ensures var n := Step(s, Complete(t)).value;
            && n.readers == s.readers - 1 && (n.hold == Barrier(t) <==> n.readers == 0)
            && (n.readers == 0 ==> !n.dq.pending && !n.dq.dirty && n.dq.enqueued == s.dq.enqueued)
            && (n.readers > 0 ==> n.hold.Free? && n.dq.dirty == s.dq.dirty && n.dq.pending == s.dq.pending)
            && (n.readers > 0 && Runnable(n.dq) && s.dq.dirty ==> n.dq.enqueued)
            && (n.readers > 0 && !(Runnable(n.dq) && s.dq.dirty) ==> n.dq.enqueued == s.dq.enqueued)
  {
    Reachable(w, role, acts);
    CompletionHandsOver(s, t);
  }

  /** A sync waiter that is first in the list takes the barrier exactly when the queue is open and has no reader, unless
      the event thread of an enqueued workloop will; otherwise it leaves the queue dirty. */
  lemma WaiterTakesOver(s: State, t: Tid)
    requires Inv(s) && t != 0
    ensures var n := Step(s, Waiter(t));
            && n.Some? && n.value.readers == s.readers
            && var takes := Open(s) && s.readers == 0 && !(s.dq.role >= 2 && (s.dq.enqueued || s.dq.onManager));
               if takes then n.value.hold == Barrier(t) && !n.value.dq.pending && !n.value.dq.dirty
               else n.value == s.(dq := s.dq.(dirty := true))
  {
  }

  /** A resume that ends the suspension of a queue takes the barrier exactly when nobody holds the lock and there is no
      reader. A queue that has no unit to give, or is locked, is left dirty. */
  lemma ResumeTakesOver(s: State, t: Tid)
    requires Inv(s) && t != 0
    ensures Step(s, ResumeBy(t)).Some? <==> s.dq.suspend >= 8
    ensures s.dq.suspend >= 8 ==>
              var n := Step(s, ResumeBy(t)).value;
              && n.readers == s.readers
              && (if s.hold.Free? && s.dq.suspend == 8 && s.readers == 0 then n.hold == Barrier(t)
                  else n.hold == s.hold && n.dq.suspend == s.dq.suspend - 8 && n.dq.pending == s.dq.pending)
              && (!s.hold.Free? || s.dq.suspend > 8 || s.dq.pending || s.readers >= s.w ==> n.dq.dirty || n.hold.Barrier?)
              && (s.hold.Free? && s.dq.suspend == 8 && !s.dq.pending && 0 < s.readers < s.w ==>
                    n.dq == s.dq.(suspend := 0, overridden := false, transfer := false, qos := 0))
  {
  }

  /** A drainer without a unit of its own takes one for a sync waiter whatever the limit, and for an async item exactly
      when one is free, nothing is dirty and no barrier is pending; and it hands its units on one at a time. */
  lemma DrainerTakes(s: State)
    requires Inv(s) && s.hold.Width?
    ensures s.hold.units == 0 && s.readers < 0x1000 ==>
      Step(s, DrainReserveSync) == Some(s.(dq := s.dq.(width := s.dq.width + 1), hold := Width(s.hold.tid, 1)))
    ensures s.hold.units == 0 ==>
      (Step(s, DrainAcquireAsync).Some? <==> !Suspended(s.dq) && !s.dq.dirty && !s.dq.pending && s.readers < s.w)
    ensures Step(s, DrainAcquireAsync).Some? ==> Step(s, DrainAcquireAsync) == Step(s, DrainReserveSync)
    ensures s.hold.units > 0 ==>
      Step(s, HandOver) == Some(s.(readers := s.readers + 1, hold := Width(s.hold.tid, s.hold.units - 1)))
  {
  }

  /** An unlock is refused exactly when the queue is dirty and not suspended, and then takes the dirty bit away so that
      the drainer looks again. Otherwise everything the drainer had is given back, and the queue is left dirty
      when the drain was not done. */
  lemma UnlockAnswers(s: State, done: bool)
    requires Inv(s) && !s.hold.Free?
    ensures Step(s, Unlock(done)).Some?
    ensures var n := Step(s, Unlock(done)).value;
            if s.dq.dirty && !Suspended(s.dq) then n == s.(dq := s.dq.(dirty := false))
            else && n.hold.Free? && n.readers == s.readers && n.dq.pending == s.dq.pending
                 && n.dq.enqueued == s.dq.enqueued && n.dq.suspend == s.dq.suspend
                 && !n.dq.overridden && !n.dq.transfer
                 && (n.dq.dirty <==> if Suspended(s.dq) then s.dq.dirty else !done)
                 && n.dq.qos == (if Suspended(s.dq) || !done then s.dq.qos else 0)
  {
    OwnedReturned(s, false);
  }

  /** An interrupted drain gives everything back, leaves the queue dirty, reserves for a barrier that comes next, and
      enqueues the queue if it can be drained. */
  lemma FinishAnswers(s: State, next: bool)
    requires Inv(s) && !s.hold.Free? && !DoubleReserves(s, Finish(next))
    ensures Step(s, Finish(next)).Some?
    ensures var n := Step(s, Finish(next)).value;
            && n.hold.Free? && n.readers == s.readers && n.dq.dirty && n.dq.suspend == s.dq.suspend
            && !n.dq.overridden && !n.dq.transfer && n.dq.qos == s.dq.qos
            && (n.dq.pending <==> s.dq.pending || (s.w > 1 && next))
            && (n.dq.enqueued <==>
                  (s.dq.enqueued
                   || (!Suspended(s.dq) && !s.dq.onManager && (if n.dq.pending then s.readers == 0 else s.readers < s.w))))
  {
    OwnedReturned(s, next);
  }

  /** The end of a barrier is refused exactly when the queue is dirty, not suspended, and no wakeup follows. */
  lemma BarrierEndAnswers(s: State, wakeup: bool)
    requires Inv(s) && s.hold.Barrier?
    ensures Step(s, CompleteBarrier(wakeup)).Some?
    ensures var n := Step(s, CompleteBarrier(wakeup)).value;
            if s.dq.dirty && !Suspended(s.dq) && !wakeup then n == s.(dq := s.dq.(dirty := false))
            else && n.hold.Free? && n.readers == 0 && !n.dq.pending && n.dq.dirty == s.dq.dirty
                 && n.dq.suspend == s.dq.suspend && !n.dq.overridden && !n.dq.transfer
                 && n.dq.qos == (if Suspended(s.dq) || wakeup then s.dq.qos else 0)
                 && (n.dq.enqueued <==>
                       (if Suspended(s.dq) then s.dq.enqueued && s.dq.role < 2
                        else s.dq.enqueued || (wakeup && !s.dq.onManager)))
  {
    OwnedReturned(s, false);
  }

  // ---- The 64-bit word -----------------------------------------------------------------------------------

  lemma LowBitsBounded(d: DqState)
    requires Representable(d)
    ensures LowBits(d) < 0x0000_0100_0000_0000 && LockBits(d) < 0x1_0000_0000
  {
    assert FlagBits(d) <= 255 && LockBits(d) < 0x1_0000_0000;
  }

  lemma Cut(high: nat, low: nat, c: nat)
    requires low < 0x0000_0100_0000_0000
    ensures high * 0x0000_0100_0000_0000 + low < c * 0x0000_0100_0000_0000 <==> high < c
  {
  }

  /** The comparisons that the source makes on the whole word test what the fields say. */
  lemma WordTests(d: DqState)
    requires Representable(d)
    ensures Word(d) < 0x1_0000_0000_0000_0000
    ensures Runnable(d) <==> Word(d) < 0x0020_0000_0000_0000
    ensures SyncRunnable(d) <==> Word(d) < 0x0040_0000_0000_0000
    ensures Suspended(d) <==> Word(d) >= 0x0080_0000_0000_0000
  {
    LowBitsBounded(d);
    HighTests(d);
    Compare(Word(d), High(d), LowBits(d));
  }

  lemma Compare(word: nat, high: nat, low: nat)
    requires low < 0x0000_0100_0000_0000 && word == high * 0x0000_0100_0000_0000 + low
    ensures high < 0x100_0000 <==> word < 0x1_0000_0000_0000_0000
    ensures high < 0x2000 <==> word < 0x0020_0000_0000_0000
    ensures high < 0x4000 <==> word < 0x0040_0000_0000_0000
    ensures high < 0x8000 <==> word < 0x0080_0000_0000_0000
  {
    Cut(high, low, 0x100_0000);
    Cut(high, low, 0x2000);
    Cut(high, low, 0x4000);
    Cut(high, low, 0x8000);
  }

  /** Bits 63-40. */
  function High(d: DqState): nat { d.suspend * 0x8000 + Field(d) }

  lemma HighTests(d: DqState)
    requires Representable(d)
    ensures High(d) < 0x100_0000
    ensures Runnable(d) <==> High(d) < 0x2000
    ensures SyncRunnable(d) <==> High(d) < 0x4000
    ensures Suspended(d) <==> High(d) >= 0x8000
  {
  }

  /** The comparison that drain_try_lock makes to find the full width free. */
  lemma WidthTest(d: DqState, w: nat)
    requires Representable(d) && 1 <= w <= WIDTH_MAX && Runnable(d)
    ensures d.width + w - 1 < FULL <==> Word(d) + (w - 1) * 0x0000_0200_0000_0000 < 0x0020_0000_0000_0000
  {
    LowBitsBounded(d);
    Cut(Field(d) + 2 * (w - 1), LowBits(d), 0x2000);
  }

  /** Subtracting `owned` from the word is `Minus` on the fields. */
  lemma WordMinus(d: DqState, owned: int)
    requires Minus(d, owned).Some?
    ensures Word(Minus(d, owned).value) == Word(d) - owned * 0x0000_0100_0000_0000
  {
    var m := Minus(d, owned).value;
    assert LowBits(m) == LowBits(d);
    assert Field(m) == Field(d) - owned;
  }

  lemma Digits(m: nat, a: nat, b: nat, c: nat, d: nat)
    requires b < m && d < m && a * m + b == c * m + d
    ensures a == c && b == d
  {
    assert a < c ==> (a + 1) * m <= c * m;
    assert c < a ==> (c + 1) * m <= a * m;
  }

  /** No two states share a word. */
  lemma WordInjective(d: DqState, e: DqState)
    requires Representable(d) && Representable(e) && Word(d) == Word(e)
    ensures d == e
  {
    WordHalves(d, e);
    FieldInjective(d, e);
    FlagBitsInjective(d, e);
    LockBitsInjective(d, e);
  }

  lemma WordHalves(d: DqState, e: DqState)
    requires Representable(d) && Representable(e) && Word(d) == Word(e)
    ensures d.suspend * 0x8000 + Field(d) == e.suspend * 0x8000 + Field(e)
    ensures FlagBits(d) == FlagBits(e) && LockBits(d) == LockBits(e)
  {
    LowBitsBounded(d);
    LowBitsBounded(e);
    Digits(0x0000_0100_0000_0000, d.suspend * 0x8000 + Field(d), LowBits(d), e.suspend * 0x8000 + Field(e), LowBits(e));
    Digits(0x1_0000_0000, FlagBits(d), LockBits(d), FlagBits(e), LockBits(e));
  }

  lemma FieldInjective(d: DqState, e: DqState)
    requires Representable(d) && Representable(e) && d.suspend * 0x8000 + Field(d) == e.suspend * 0x8000 + Field(e)
    ensures d.suspend == e.suspend && d.inBarrier == e.inBarrier && d.width == e.width && d.pending == e.pending
  {
    Digits(0x8000, d.suspend, Field(d), e.suspend, Field(e));
    Digits(0x4000, Bit(d.inBarrier), 2 * d.width + Bit(d.pending), Bit(e.inBarrier), 2 * e.width + Bit(e.pending));
  }

  lemma LockBitsInjective(d: DqState, e: DqState)
    requires LockBits(d) == LockBits(e)
    ensures d.owner == e.owner && d.transfer == e.transfer && d.enqueued == e.enqueued
  {
    Digits(4, d.owner, Bit(d.transfer) * 2 + Bit(d.enqueued), e.owner, Bit(e.transfer) * 2 + Bit(e.enqueued));
  }

  lemma FlagBitsInjective(d: DqState, e: DqState)
    requires Representable(d) && Representable(e) && FlagBits(d) == FlagBits(e)
    ensures d.dirty == e.dirty && d.onManager == e.onManager && d.role == e.role && d.overridden == e.overridden && d.qos == e.qos
  {
    var a, b := Bit(d.dirty) * 2 + Bit(d.onManager), Bit(e.dirty) * 2 + Bit(e.onManager);
    Digits(8, (a * 4 + d.role) * 2 + Bit(d.overridden), d.qos, (b * 4 + e.role) * 2 + Bit(e.overridden), e.qos);
    Digits(2, a * 4 + d.role, Bit(d.overridden), b * 4 + e.role, Bit(e.overridden));
    Digits(4, a, d.role, b, e.role);
  }
}

/** Continuation allocation, freeing and page reclaiming by concurrent threads.

    Every atomic operation on a bitmap is an action. `pages[p][k]` is bitmap `k` of page `p`; `owner` is history: which
    client, if any, was handed each slot, or which thread has locked it to give its page back. */
module AllocatorReclaim {
  import opened Runs
  import opened AllocatorMagazine

  type Tid = nat

  datatype Owner = Nobody | Client(id: nat) | Reclaimer(thread: Tid)

  datatype Map = Map(bits: Bits, owner: seq<Owner>)

  /** Where a thread is in _dispatch_alloc_maybe_madvise_page, for page `p`. */
  datatype Pc =
    | Checking(p: nat, k: nat)    // bitmaps before `k` were seen empty
    | Locking(p: nat, k: nat)     // bitmaps before `k` are locked
    | Advising(p: nat)            // all are locked
    | Unlocking(p: nat, k: nat)   // bitmaps before `k` are still to be unlocked

  datatype State = State(pages: seq<seq<Map>>, threads: map<Tid, Pc>, clients: nat, advised: seq<nat>)

  datatype Action = Alloc(p: nat, k: nat) | Free(p: nat, k: nat, i: nat) | Start(t: Tid, p: nat) | Go(t: Tid)

  predicate Zero(bits: Bits) { forall i :: 0 <= i < |bits| ==> !bits[i] }

  function WithMap(s: State, p: nat, k: nat, m: Map): State
    requires p < |s.pages| && k < |s.pages[p]|
  {
    s.(pages := s.pages[p := s.pages[p][k := m]])
  }

  /** Sets bit `i` for a new client. */
  function Given(m: Map, i: nat, id: nat): Map
    requires i < |m.bits| == |m.owner|
  {
    Map(m.bits[i := true], m.owner[i := Client(id)])
  }

  function Cleared(m: Map, i: nat): Map
    requires i < |m.bits| == |m.owner|
  {
    Map(m.bits[i := false], m.owner[i := Nobody])
  }

  /** The compare-exchange from no bits to all bits. Slots that somebody owned would keep their owner. */
  function LockedBy(m: Map, t: Tid): Map {
    Map(seq(|m.bits|, _ => true),
        seq(|m.owner|, i requires 0 <= i < |m.owner| => if m.owner[i] == Nobody then Reclaimer(t) else m.owner[i]))
  }

  /** The plain store of no bits. Slots that are not the thread's own would keep their owner. */
  function UnlockedBy(m: Map, t: Tid): Map {
    Map(seq(|m.bits|, _ => false),
        seq(|m.owner|, i requires 0 <= i < |m.owner| => if m.owner[i] == Reclaimer(t) then Nobody else m.owner[i]))
  }

  function Step(s: State, a: Action): Option<State> {
    match a
    case Alloc(p, k) =>
      if p >= |s.pages| || k >= |s.pages[p]| || |s.pages[p][k].bits| != |s.pages[p][k].owner| then None
      else
        var m := s.pages[p][k];
        (match FirstUnset(m.bits)
         case None => None
         case Some(i) => Some(WithMap(s, p, k, Given(m, i, s.clients)).(clients := s.clients + 1)))
    case Free(p, k, i) =>
      if p >= |s.pages| || k >= |s.pages[p]| || |s.pages[p][k].bits| != |s.pages[p][k].owner| then None
      else
        var m := s.pages[p][k];
        if i < |m.owner| && m.owner[i].Client? then Some(WithMap(s, p, k, Cleared(m, i))) else None
    case Start(t, p) =>
      if t in s.threads || p >= |s.pages| then None else Some(s.(threads := s.threads[t := Checking(p, 0)]))
    case Go(t) =>
      if t !in s.threads || s.threads[t].p >= |s.pages| then None else Reclaim(s, t, s.threads[t], |s.pages[s.threads[t].p]|)
  }

  /** One step of reclaiming a page of `size` bitmaps. */
  function Reclaim(s: State, t: Tid, pc: Pc, size: nat): Option<State>
    requires pc.p < |s.pages| && |s.pages[pc.p]| == size
  {
    match pc
    case Checking(p, k) =>
      if k >= size then Some(s.(threads := s.threads[t := Locking(p, 0)]))
      else if Zero(s.pages[p][k].bits) then Some(s.(threads := s.threads[t := Checking(p, k + 1)]))
      else Some(s.(threads := s.threads - {t}))
    case Locking(p, k) =>
      if k >= size then Some(s.(threads := s.threads[t := Advising(p)]))
      else if Zero(s.pages[p][k].bits) then
        Some(WithMap(s, p, k, LockedBy(s.pages[p][k], t)).(threads := s.threads[t := Locking(p, k + 1)]))
      else Some(s.(threads := s.threads[t := Unlocking(p, k)]))
    case Advising(p) => Some(s.(advised := s.advised + [p], threads := s.threads[t := Unlocking(p, size)]))
    case Unlocking(p, k) =>
      if k == 0 then Some(s.(threads := s.threads - {t}))
      else if k > size then None
      else Some(WithMap(s, p, k - 1, UnlockedBy(s.pages[p][k - 1], t)).(threads := s.threads[t := Unlocking(p, k - 1)]))
  }

  /** A magazine of empty bitmaps of `n` bits. */
  function Fresh(pages: nat, perPage: nat, n: nat): State {
    State(seq(pages, _ => seq(perPage, _ => Map(seq(n, _ => false), seq(n, _ => Nobody)))), map[], 0, [])
  }

  // The invariant, bitmap by bitmap.

  /** A bit is set exactly when its slot has an owner. */
  ghost predicate MapOk(m: Map) {
    && 0 < |m.bits| == |m.owner|
    && forall i :: 0 <= i < |m.bits| ==> (m.bits[i] <==> m.owner[i] != Nobody)
  }

  ghost predicate AllBy(m: Map, t: Tid) { forall i :: 0 <= i < |m.owner| ==> m.owner[i] == Reclaimer(t) }

  /** How many bitmaps of its page a thread has locked. */
  function Held(pc: Pc, size: nat): nat {
    match pc case Checking(_, _) => 0 case Locking(_, k) => k case Advising(_) => size case Unlocking(_, k) => k
  }

  ghost predicate MapsOk(s: State) {
    forall p, k :: 0 <= p < |s.pages| && 0 <= k < |s.pages[p]| ==> MapOk(s.pages[p][k])
  }

  /** A thread owns every slot of the bitmaps it has locked. */
  ghost predicate HoldsOk(s: State) {
    forall t :: t in s.threads ==> ThreadOk(s.pages, s.threads[t], t)
  }

  ghost predicate ThreadOk(pages: seq<seq<Map>>, pc: Pc, t: Tid) {
    && pc.p < |pages| && Held(pc, |pages[pc.p]|) <= |pages[pc.p]|
    && forall k :: 0 <= k < Held(pc, |pages[pc.p]|) ==> AllBy(pages[pc.p][k], t)
  }

  /** Slots are locked only by threads that are going to unlock them. */
  ghost predicate LocksOk(s: State) {
    forall p, k :: 0 <= p < |s.pages| && 0 <= k < |s.pages[p]| ==> MapLocksOk(s.pages[p][k], s.threads, p, k, |s.pages[p]|)
  }

  ghost predicate MapLocksOk(m: Map, threads: map<Tid, Pc>, p: nat, k: nat, size: nat) {
    forall i :: 0 <= i < |m.owner| && m.owner[i].Reclaimer? ==>
      var t := m.owner[i].thread;
      t in threads && threads[t].p == p && k < Held(threads[t], size)
  }

  ghost predicate Inv(s: State) { MapsOk(s) && HoldsOk(s) && LocksOk(s) }

  lemma FreshOk(pages: nat, perPage: nat, n: nat)
    requires n > 0
    ensures Inv(Fresh(pages, perPage, n))
  {
  }

  /** A client takes or gives back a slot of a bitmap that is not locked there. */
  lemma ClientKeeps(s: State, a: Action)
    requires Inv(s) && (a.Alloc? || a.Free?) && Step(s, a).Some?
    ensures Inv(Step(s, a).value)
  {
    var n := Step(s, a).value;
    assert MapOk(s.pages[a.p][a.k]);
    forall t | t in n.threads ensures ThreadOk(n.pages, n.threads[t], t) {
      assert ThreadOk(s.pages, s.threads[t], t);
    }
    forall p, k | 0 <= p < |n.pages| && 0 <= k < |n.pages[p]|
      ensures MapOk(n.pages[p][k]) && MapLocksOk(n.pages[p][k], n.threads, p, k, |n.pages[p]|)
    {
      assert MapOk(s.pages[p][k]) && MapLocksOk(s.pages[p][k], s.threads, p, k, |s.pages[p]|);
    }
  }

  /** A thread moves on without touching a bitmap, and without forgetting a bitmap it has locked. */
  lemma MoveKeeps(s: State, t: Tid, threads: map<Tid, Pc>)
    requires Inv(s)
    requires forall u :: u != t ==> (u in threads <==> u in s.threads) && (u in threads ==> threads[u] == s.threads[u])
    requires t in threads ==> ThreadOk(s.pages, threads[t], t)
    requires t in s.threads ==> HeldIn(s, t) == 0 || (t in threads && threads[t].p == s.threads[t].p
                                                      && Held(threads[t], |s.pages[threads[t].p]|) == HeldIn(s, t))
    ensures Inv(s.(threads := threads))
  {
    var n := s.(threads := threads);
    forall u | u in n.threads ensures ThreadOk(n.pages, n.threads[u], u) {
      assert u != t ==> ThreadOk(s.pages, s.threads[u], u);
    }
    forall p, k | 0 <= p < |n.pages| && 0 <= k < |n.pages[p]| ensures MapLocksOk(n.pages[p][k], n.threads, p, k, |n.pages[p]|) {
      assert MapLocksOk(s.pages[p][k], s.threads, p, k, |s.pages[p]|);
    }
  }

  ghost function HeldIn(s: State, t: Tid): nat
    requires HoldsOk(s) && t in s.threads
  {
    assert ThreadOk(s.pages, s.threads[t], t);
    Held(s.threads[t], |s.pages[s.threads[t].p]|)
  }

  lemma LockKeeps(s: State, t: Tid)
    requires Inv(s) && t in s.threads && s.threads[t].Locking? && Step(s, Go(t)).Some?
    ensures Inv(Step(s, Go(t)).value)
  {
    var p0, k0 := s.threads[t].p, s.threads[t].k;
    assert ThreadOk(s.pages, s.threads[t], t);
    if k0 >= |s.pages[p0]| {
      MoveKeeps(s, t, s.threads[t := Advising(p0)]);
    } else if !Zero(s.pages[p0][k0].bits) {
      MoveKeeps(s, t, s.threads[t := Unlocking(p0, k0)]);
    } else {
      LockOneKeeps(s, t, p0, k0);
    }
  }

  /** An empty bitmap belongs to nobody, so locking it takes nothing away. */
  lemma LockOneKeeps(s: State, t: Tid, p0: nat, k0: nat)
    requires Inv(s) && t in s.threads && s.threads[t] == Locking(p0, k0)
    requires p0 < |s.pages| && k0 < |s.pages[p0]| && Zero(s.pages[p0][k0].bits)
    ensures Inv(WithMap(s, p0, k0, LockedBy(s.pages[p0][k0], t)).(threads := s.threads[t := Locking(p0, k0 + 1)]))
  {
    var n := WithMap(s, p0, k0, LockedBy(s.pages[p0][k0], t)).(threads := s.threads[t := Locking(p0, k0 + 1)]);
    assert MapOk(s.pages[p0][k0]);
    assert AllBy(n.pages[p0][k0], t);
    forall u | u in n.threads ensures ThreadOk(n.pages, n.threads[u], u) {
      assert ThreadOk(s.pages, s.threads[u], u);
      assert s.pages[p0][k0].owner[0] == Nobody;
    }
    forall p, k | 0 <= p < |n.pages| && 0 <= k < |n.pages[p]|
      ensures MapOk(n.pages[p][k]) && MapLocksOk(n.pages[p][k], n.threads, p, k, |n.pages[p]|)
    {
      assert MapOk(s.pages[p][k]) && MapLocksOk(s.pages[p][k], s.threads, p, k, |s.pages[p]|);
    }
  }

  /** Unlocking clears exactly the slots that the thread locked. */
  lemma UnlockKeeps(s: State, t: Tid)
    requires Inv(s) && t in s.threads && s.threads[t].Unlocking? && s.threads[t].k > 0 && Step(s, Go(t)).Some?
    ensures Inv(Step(s, Go(t)).value)
  {
    var n, p0, k0 := Step(s, Go(t)).value, s.threads[t].p, s.threads[t].k - 1;
    assert ThreadOk(s.pages, s.threads[t], t);
    assert MapOk(s.pages[p0][k0]) && AllBy(s.pages[p0][k0], t);
    forall u | u in n.threads ensures ThreadOk(n.pages, n.threads[u], u) {
      assert ThreadOk(s.pages, s.threads[u], u);
      assert u != t ==> s.pages[p0][k0].owner[0] != Reclaimer(u);
    }
    forall p, k | 0 <= p < |n.pages| && 0 <= k < |n.pages[p]|
      ensures MapOk(n.pages[p][k]) && MapLocksOk(n.pages[p][k], n.threads, p, k, |n.pages[p]|)
    {
      assert MapOk(s.pages[p][k]) && MapLocksOk(s.pages[p][k], s.threads, p, k, |s.pages[p]|);
    }
  }

  lemma StepKeeps(s: State, a: Action)
    requires Inv(s) && Step(s, a).Some?
    ensures Inv(Step(s, a).value)
  {
    if a.Alloc? || a.Free? {
      ClientKeeps(s, a);
    } else if a.Start? {
      MoveKeeps(s, a.t, s.threads[a.t := Checking(a.p, 0)]);
    } else if s.threads[a.t].Locking? {
      LockKeeps(s, a.t);
    } else if s.threads[a.t].Unlocking? && s.threads[a.t].k > 0 {
      UnlockKeeps(s, a.t);
    } else {
      assert ThreadOk(s.pages, s.threads[a.t], a.t);
      MoveKeeps(s, a.t, Step(s, a).value.threads);
    }
  }

  lemma Reachable(pages: nat, perPage: nat, n: nat, acts: seq<Action>)
    requires n > 0
    ensures var r := Exec(Step, Fresh(pages, perPage, n), acts); r.Some? ==> Inv(r.value)
  {
    forall s, a | Inv(s) && Step(s, a).Some? ensures Inv(Step(s, a).value) {
      StepKeeps(s, a);
    }
    FreshOk(pages, perPage, n);
    Invariance(Step, Inv, Fresh(pages, perPage, n), acts);
  }

  ghost predicate IsSlotOf(s: State, p: nat, k: nat, i: nat) {
    p < |s.pages| && k < |s.pages[p]| && i < |s.pages[p][k].owner| == |s.pages[p][k].bits|
  }

  /** In every run a slot's bit is set exactly when a client or a reclaiming thread owns it, and a reclaiming thread
      that owns slots has not finished. */
  lemma BitIffOwned(pages: nat, perPage: nat, n: nat, acts: seq<Action>, s: State, p: nat, k: nat, i: nat)
    requires n > 0 && Exec(Step, Fresh(pages, perPage, n), acts) == Some(s) && p < |s.pages| && k < |s.pages[p]|
    requires i < |s.pages[p][k].bits|
    ensures IsSlotOf(s, p, k, i)
    ensures s.pages[p][k].bits[i] <==> s.pages[p][k].owner[i] != Nobody
    ensures s.pages[p][k].owner[i].Reclaimer? ==> s.pages[p][k].owner[i].thread in s.threads
  {
    Reachable(pages, perPage, n, acts);
    assert MapOk(s.pages[p][k]) && MapLocksOk(s.pages[p][k], s.threads, p, k, |s.pages[p]|);
  }

  /** A slot is handed out only when nobody owns it; until its client frees it, no step of anyone changes its owner or
      clears its bit: no second allocation, no lock and no unlock; and freeing it leaves it without an owner. */
  lemma OneOwner(pages: nat, perPage: nat, n: nat, acts: seq<Action>, s: State, a: Action, p: nat, k: nat, i: nat)
    requires n > 0 && Exec(Step, Fresh(pages, perPage, n), acts) == Some(s) && Step(s, a).Some? && IsSlotOf(s, p, k, i)
    ensures IsSlotOf(Step(s, a).value, p, k, i) && OwnerKept(s, a, Step(s, a).value, p, k, i)
  {
    Reachable(pages, perPage, n, acts);
    SlotStep(s, a, p, k, i);
  }

  ghost predicate OwnerKept(s: State, a: Action, t: State, p: nat, k: nat, i: nat)
    requires IsSlotOf(s, p, k, i) && IsSlotOf(t, p, k, i)
  {
    var was, now := s.pages[p][k].owner[i], t.pages[p][k].owner[i];
    && (was.Client? && a != Free(p, k, i) ==> now == was && t.pages[p][k].bits[i])
    && (now.Client? && now != was ==> was == Nobody && a == Alloc(p, k) && now.id == s.clients)
    && (a == Free(p, k, i) ==> was.Client? && now == Nobody && !t.pages[p][k].bits[i])
    && (now.Reclaimer? && now != was ==> was == Nobody && a == Go(now.thread))
    && (was.Reclaimer? && now != was ==> now == Nobody && a == Go(was.thread))
  }

  lemma SlotStep(s: State, a: Action, p: nat, k: nat, i: nat)
    requires Inv(s) && Step(s, a).Some? && IsSlotOf(s, p, k, i)
    ensures IsSlotOf(Step(s, a).value, p, k, i) && OwnerKept(s, a, Step(s, a).value, p, k, i)
  {
    assert MapOk(s.pages[p][k]);
    if a.Go? {
      assert ThreadOk(s.pages, s.threads[a.t], a.t);
      SlotReclaim(s, a.t, p, k, i);
    }
  }

  lemma SlotReclaim(s: State, t: Tid, p: nat, k: nat, i: nat)
    requires t in s.threads && ThreadOk(s.pages, s.threads[t], t) && Step(s, Go(t)).Some?
    requires IsSlotOf(s, p, k, i) && MapOk(s.pages[p][k])
    ensures IsSlotOf(Step(s, Go(t)).value, p, k, i) && OwnerKept(s, Go(t), Step(s, Go(t)).value, p, k, i)
  {
    var pc := s.threads[t];
    if pc.Unlocking? && 0 < pc.k {
      assert AllBy(s.pages[pc.p][pc.k - 1], t);
    }
  }

  /** A page is given back to the system only while the thread that does it owns every slot of the page, so no client
      owns one; and that page is the one given back. */
  lemma AdvisedUnused(pages: nat, perPage: nat, n: nat, acts: seq<Action>, s: State, t: Tid, k: nat, i: nat)
    requires n > 0 && Exec(Step, Fresh(pages, perPage, n), acts) == Some(s)
    requires t in s.threads && s.threads[t].Advising? && IsSlotOf(s, s.threads[t].p, k, i)
    ensures s.pages[s.threads[t].p][k].owner[i] == Reclaimer(t)
    ensures Step(s, Go(t)).Some? && Step(s, Go(t)).value.advised == s.advised + [s.threads[t].p]
  {
    Reachable(pages, perPage, n, acts);
    assert ThreadOk(s.pages, s.threads[t], t);
    assert AllBy(s.pages[s.threads[t].p][k], t);
  }

  /** Each store of the unlock path clears a bitmap all of whose slots the thread has locked itself, whether it got
      the whole page or gave up; and a thread that has finished leaves no slot locked. */
  lemma UnlockExact(pages: nat, perPage: nat, n: nat, acts: seq<Action>, s: State, t: Tid)
    requires n > 0 && Exec(Step, Fresh(pages, perPage, n), acts) == Some(s)
    ensures t in s.threads && s.threads[t].Unlocking? && s.threads[t].k > 0 && Step(s, Go(t)).Some? ==>
      AllBy(s.pages[s.threads[t].p][s.threads[t].k - 1], t)
    ensures t !in s.threads ==> forall p: nat, k: nat, i: nat :: IsSlotOf(s, p, k, i) ==> s.pages[p][k].owner[i] != Reclaimer(t)
  {
    Reachable(pages, perPage, n, acts);
    if t in s.threads {
      assert ThreadOk(s.pages, s.threads[t], t);
    } else {
      forall p: nat, k: nat, i: nat | IsSlotOf(s, p, k, i) ensures s.pages[p][k].owner[i] != Reclaimer(t) {
        assert MapLocksOk(s.pages[p][k], s.threads, p, k, |s.pages[p]|);
      }
    }
  }

  ghost predicate PageBy(maps: seq<Map>, o: Owner) {
    forall k, i :: 0 <= k < |maps| && 0 <= i < |maps[k].owner| ==> maps[k].owner[i] == o
  }

  /** In every run, a step that gives a page back gives back one page, and all slots of that page belong to the thread
      that takes the step. */
  lemma AdvisedIs(pages: nat, perPage: nat, n: nat, acts: seq<Action>, s: State, a: Action)
    requires n > 0 && Exec(Step, Fresh(pages, perPage, n), acts) == Some(s) && Step(s, a).Some?
    requires Step(s, a).value.advised != s.advised
    ensures a.Go? && a.t in s.threads
    ensures var q := s.threads[a.t].p;
            Step(s, a).value.advised == s.advised + [q] && q < |s.pages| && PageBy(s.pages[q], Reclaimer(a.t))
  {
    Reachable(pages, perPage, n, acts);
    assert ThreadOk(s.pages, s.threads[a.t], a.t);
    var maps := s.pages[s.threads[a.t].p];
    forall k, i | 0 <= k < |maps| && 0 <= i < |maps[k].owner| ensures maps[k].owner[i] == Reclaimer(a.t) {
      assert AllBy(maps[k], a.t);
    }
  }

  lemma SizesKept(s: State, a: Action, q: nat)
    requires Step(s, a).Some? && q < |s.pages|
    ensures |Step(s, a).value.pages| == |s.pages| && |Step(s, a).value.pages[q]| == |s.pages[q]|
  {
  }

  /** The thread has locked all bitmaps of page `q`, and has not given it back. */
  predicate HasAll(s: State, t: Tid, q: nat) {
    && q < |s.pages| && t in s.threads && s.threads[t].p == q
    && (s.threads[t].Advising? || (s.threads[t].Locking? && s.threads[t].k >= |s.pages[q]|))
  }

  lemma HasAllStep(s: State, a: Action, t: Tid, q: nat)
    requires HasAll(s, t, q) && Step(s, a).Some?
    ensures HasAll(Step(s, a).value, t, q) || Step(s, a).value.advised == s.advised + [q]
  {
    SizesKept(s, a, q);
  }

  lemma AdvisedGrows(s: State, a: Action)
    requires Step(s, a).Some?
    ensures s.advised <= Step(s, a).value.advised
  {
  }

  /** A thread that has locked every bitmap of its page gives that page back before it unlocks any. */
  lemma {:induction false} LockedAdvises(s: State, t: Tid, q: nat, acts: seq<Action>, u: State)
    requires HasAll(s, t, q) && Exec(Step, s, acts) == Some(u)
    ensures s.advised <= u.advised
    ensures HasAll(u, t, q) || q in u.advised[|s.advised|..]
    decreases |acts|
  {
    if acts != [] {
      var front, last := acts[..|acts| - 1], acts[|acts| - 1];
      var p := Exec(Step, s, front).value;
      LockedAdvises(s, t, q, front, p);
      AdvisedGrows(p, last);
      if HasAll(p, t, q) {
        HasAllStep(p, last, t, q);
        if u.advised == p.advised + [q] {
          assert u.advised[|p.advised|] == q;
        }
      } else {
        var i :| |s.advised| <= i < |p.advised| && p.advised[i] == q;
        assert u.advised[i] == q;
      }
    }
  }

  /** An allocation from a bitmap fails only when every slot has an owner; otherwise the first slot without one goes to
      a new client, and nothing else changes. */
  lemma AllocGives(pages: nat, perPage: nat, n: nat, acts: seq<Action>, s: State, p: nat, k: nat)
    requires n > 0 && Exec(Step, Fresh(pages, perPage, n), acts) == Some(s) && p < |s.pages| && k < |s.pages[p]|
    ensures Step(s, Alloc(p, k)).None? <==> forall i :: 0 <= i < |s.pages[p][k].owner| ==> s.pages[p][k].owner[i] != Nobody
    ensures Step(s, Alloc(p, k)).Some? ==>
      exists i :: IsSlotOf(s, p, k, i) && FirstFree(s.pages[p][k].owner, i)
        && Step(s, Alloc(p, k)).value == WithMap(s, p, k, Given(s.pages[p][k], i, s.clients)).(clients := s.clients + 1)
  {
    Reachable(pages, perPage, n, acts);
    assert MapOk(s.pages[p][k]);
    var m := s.pages[p][k];
    match FirstUnset(m.bits)
    case None =>
    case Some(i) => assert FirstFree(m.owner, i);
  }

  ghost predicate FirstFree(owner: seq<Owner>, i: nat) {
    i < |owner| && owner[i] == Nobody && forall j :: 0 <= j < i ==> owner[j] != Nobody
  }

  // ---- Reclaiming ends ------------------------------------------------------------------------------------

  function Rank(pc: Pc, size: nat): nat {
    match pc
    case Checking(_, k) => 2 * size + 4 + if k < size then size - k else 0
    case Locking(_, k) => size + 3 + if k < size then size - k else 0
    case Advising(_) => size + 2
    case Unlocking(_, k) => k + 1
  }

  lemma GoLowers(s: State, t: Tid)
    requires t in s.threads && ThreadOk(s.pages, s.threads[t], t)
    ensures Step(s, Go(t)).Some?
    ensures var r, size := Step(s, Go(t)).value, |s.pages[s.threads[t].p]|;
            t !in r.threads || (r.threads[t].p == s.threads[t].p && Rank(r.threads[t], size) < Rank(s.threads[t], size))
  {
  }

  lemma OthersLeave(s: State, a: Action, t: Tid)
    requires t in s.threads && a != Go(t) && Step(s, a).Some?
    ensures t in Step(s, a).value.threads && Step(s, a).value.threads[t] == s.threads[t]
  {
  }

  /** In every run, a thread that is reclaiming can take its next step, and that step ends the call or brings it nearer
      to its end; steps of others leave it where it is. */
  lemma ReclaimEnds(pages: nat, perPage: nat, n: nat, acts: seq<Action>, s: State, t: Tid, a: Action)
    requires n > 0 && Exec(Step, Fresh(pages, perPage, n), acts) == Some(s) && t in s.threads
    ensures Step(s, Go(t)).Some?
    ensures var r, size := Step(s, Go(t)).value, |s.pages[s.threads[t].p]|;
            t !in r.threads || (r.threads[t].p == s.threads[t].p && Rank(r.threads[t], size) < Rank(s.threads[t], size))
    ensures a != Go(t) && Step(s, a).Some? ==> t in Step(s, a).value.threads && Step(s, a).value.threads[t] == s.threads[t]
  {
    Reachable(pages, perPage, n, acts);
    assert ThreadOk(s.pages, s.threads[t], t);
    GoLowers(s, t);
    if a != Go(t) && Step(s, a).Some? { OthersLeave(s, a, t); }
  }

  /** In every run, a thread that looks at a bitmap of its page gives up exactly when some slot there has an owner: before
      it has locked any bitmap it just stops, and afterwards it turns to unlocking. */
  lemma GivesUp(pages: nat, perPage: nat, n: nat, acts: seq<Action>, s: State, t: Tid)
    requires n > 0 && Exec(Step, Fresh(pages, perPage, n), acts) == Some(s) && t in s.threads
    requires s.threads[t].Checking? || s.threads[t].Locking?
    requires s.threads[t].p < |s.pages| && s.threads[t].k < |s.pages[s.threads[t].p]|
    ensures Step(s, Go(t)).Some?
    ensures var r, pc := Step(s, Go(t)).value, s.threads[t];
            if NoOwner(s.pages[pc.p][pc.k]) then t in r.threads && r.threads[t] == pc.(k := pc.k + 1)
            else if pc.Checking? then t !in r.threads
            else t in r.threads && r.threads[t] == Unlocking(pc.p, pc.k)
  {
    Reachable(pages, perPage, n, acts);
    assert MapOk(s.pages[s.threads[t].p][s.threads[t].k]);
  }

  // ---- An undisturbed reclaim -----------------------------------------------------------------------------

  function LockedTo(maps: seq<Map>, t: Tid, k: nat): seq<Map> {
    seq(|maps|, i requires 0 <= i < |maps| => if i < k then LockedBy(maps[i], t) else maps[i])
  }

  /** The states that a thread goes through that reclaims page `p` and meets nobody. */
  function Alone(s: State, t: Tid, p: nat, j: nat): State
    requires p < |s.pages| && j <= 3 * |s.pages[p]| + 4
  {
    var size := |s.pages[p]|;
    if j <= size then s.(threads := s.threads[t := Checking(p, j)])
    else if j <= 2 * size + 1 then At(s, t, p, j - size - 1, Locking(p, j - size - 1))
    else if j == 2 * size + 2 then At(s, t, p, size, Advising(p))
    else if j <= 3 * size + 3 then At(s, t, p, 3 * size + 3 - j, Unlocking(p, 3 * size + 3 - j)).(advised := s.advised + [p])
    else s.(advised := s.advised + [p], threads := s.threads - {t})
  }

  function At(s: State, t: Tid, p: nat, k: nat, pc: Pc): State
    requires p < |s.pages|
  {
    s.(pages := s.pages[p := LockedTo(s.pages[p], t, k)], threads := s.threads[t := pc])
  }

  ghost predicate EmptyPage(maps: seq<Map>) {
    forall k :: 0 <= k < |maps| ==> |maps[k].bits| == |maps[k].owner| && Zero(maps[k].bits) && NoOwner(maps[k])
  }

  ghost predicate NoOwner(m: Map) { forall i :: 0 <= i < |m.owner| ==> m.owner[i] == Nobody }

  lemma AloneLocks(s: State, t: Tid, p: nat, k: nat)
    requires p < |s.pages| && k < |s.pages[p]| && EmptyPage(s.pages[p])
    ensures Step(At(s, t, p, k, Locking(p, k)), Go(t)) == Some(At(s, t, p, k + 1, Locking(p, k + 1)))
  {
    var x, n := At(s, t, p, k, Locking(p, k)), At(s, t, p, k + 1, Locking(p, k + 1));
    assert x.pages[p][k] == s.pages[p][k];
    assert LockedTo(s.pages[p], t, k)[k := LockedBy(s.pages[p][k], t)] == LockedTo(s.pages[p], t, k + 1);
    assert WithMap(x, p, k, LockedBy(x.pages[p][k], t)).pages == n.pages;
    assert x.threads[t := Locking(p, k + 1)] == n.threads;
  }

  lemma AloneUnlocks(s: State, t: Tid, p: nat, k: nat)
    requires p < |s.pages| && k < |s.pages[p]| && EmptyPage(s.pages[p])
    ensures Step(At(s, t, p, k + 1, Unlocking(p, k + 1)), Go(t)) == Some(At(s, t, p, k, Unlocking(p, k)))
  {
    var x, n := At(s, t, p, k + 1, Unlocking(p, k + 1)), At(s, t, p, k, Unlocking(p, k));
    var m := s.pages[p][k];
    assert UnlockedBy(LockedBy(m, t), t) == m by {
      assert UnlockedBy(LockedBy(m, t), t).bits == m.bits;
      assert UnlockedBy(LockedBy(m, t), t).owner == m.owner;
    }
    assert LockedTo(s.pages[p], t, k + 1)[k := m] == LockedTo(s.pages[p], t, k);
    assert WithMap(x, p, k, UnlockedBy(x.pages[p][k], t)).pages == n.pages;
    assert x.threads[t := Unlocking(p, k)] == n.threads;
  }

  lemma AloneStep(s: State, t: Tid, p: nat, j: nat)
    requires p < |s.pages| && j <= 3 * |s.pages[p]| + 3 && EmptyPage(s.pages[p])
    ensures Step(Alone(s, t, p, j), Go(t)) == Some(Alone(s, t, p, j + 1))
  {
    var size := |s.pages[p]|;
    var maps := s.pages[p];
    assert LockedTo(maps, t, 0) == maps && s.pages[p := maps] == s.pages;
    if j < size {
      assert s.threads[t := Checking(p, j)][t := Checking(p, j + 1)] == s.threads[t := Checking(p, j + 1)];
    } else if j == size {
      assert s.threads[t := Checking(p, j)][t := Locking(p, 0)] == s.threads[t := Locking(p, 0)];
    } else if j <= 2 * size {
      AloneLocks(s, t, p, j - size - 1);
    } else if j == 2 * size + 1 {
      assert s.threads[t := Locking(p, size)][t := Advising(p)] == s.threads[t := Advising(p)];
    } else if j == 2 * size + 2 {
      assert s.threads[t := Advising(p)][t := Unlocking(p, size)] == s.threads[t := Unlocking(p, size)];
    } else if j < 3 * size + 3 {
      AloneUnlocks(s.(advised := s.advised + [p]), t, p, 3 * size + 2 - j);
    } else {
      assert s.threads[t := Unlocking(p, 0)] - {t} == s.threads - {t};
    }
  }

  function StartedAlone(s: State, t: Tid, p: nat, j: nat): State
    requires p < |s.pages| && j <= 3 * |s.pages[p]| + 5
  {
    if j == 0 then s else Alone(s, t, p, j - 1)
  }

  /** One whole call: its start, and every step of a page of `size` bitmaps. */
  function Call(t: Tid, p: nat, size: nat): (acts: seq<Action>)
    ensures |acts| == 3 * size + 5 && acts[0] == Start(t, p) && forall j :: 0 < j < |acts| ==> acts[j] == Go(t)
  {
    [Start(t, p)] + seq(3 * size + 4, _ => Go(t))
  }

  lemma StartedStep(s: State, t: Tid, p: nat, j: nat)
    requires p < |s.pages| && EmptyPage(s.pages[p]) && t !in s.threads && j <= 3 * |s.pages[p]| + 4
    ensures Step(StartedAlone(s, t, p, j), Call(t, p, |s.pages[p]|)[j]) == Some(StartedAlone(s, t, p, j + 1))
  {
    if j > 0 { AloneStep(s, t, p, j - 1); }
  }

  lemma StartedEnd(s: State, t: Tid, p: nat)
    requires p < |s.pages| && t !in s.threads
    ensures StartedAlone(s, t, p, 3 * |s.pages[p]| + 5) == s.(advised := s.advised + [p])
  {
    assert s.threads - {t} == s.threads;
  }

  lemma {:induction false} StartedRun(s: State, t: Tid, p: nat, j: nat)
    requires p < |s.pages| && EmptyPage(s.pages[p]) && t !in s.threads && j <= 3 * |s.pages[p]| + 5
    ensures Exec(Step, s, Call(t, p, |s.pages[p]|)[..j]) == Some(StartedAlone(s, t, p, j))
  {
    if j > 0 {
      var acts := Call(t, p, |s.pages[p]|);
      StartedRun(s, t, p, j - 1);
      StartedStep(s, t, p, j - 1);
      assert acts[..j][..j - 1] == acts[..j - 1];
    }
  }

  /** A thread that reclaims a page without allocated slots and meets nobody gives exactly that page back, and leaves all
      bitmaps as they were. */
  lemma ReclaimsAlone(s: State, t: Tid, p: nat)
    requires p < |s.pages| && EmptyPage(s.pages[p]) && t !in s.threads
    ensures Exec(Step, s, Call(t, p, |s.pages[p]|)) == Some(s.(advised := s.advised + [p]))
  {
    var acts := Call(t, p, |s.pages[p]|);
    StartedRun(s, t, p, |acts|);
    StartedEnd(s, t, p);
    assert acts[..|acts|] == acts;
  }
}

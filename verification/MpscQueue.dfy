/** The multi-producer single-consumer linked queue (`os_mpsc_*`).

    Shared memory is the `head` and `tail` words of the queue and the `next` word of every node (a node that
    is not a key of `next` holds NULL). Producers and the consumer interleave freely; every atomic operation of
    the macros is one action. A push is split as in the source: the private store that ends the list, the
    exchange of the tail, and the store that links the list behind what was there before.

    History variables: `log` is every node in the order of the tail exchanges, `out` the nodes the consumer
    has removed; the last `keep` of them have not been handed on and may still be put back. */
module MpscQueue {
  import opened Runs

  type Node = nat

  /** Who may touch a node; a node that is not a key of `owner` belongs to the clients. `Preparing(f, j)` is
      the j-th node of the list that starts with `f` and is about to be pushed; `At(i)` is the node that
      entered the queue as `log[i]`. */
  datatype Owner = Preparing(first: Node, j: nat) | At(index: nat)

  /** A push between its tail exchange and its linking store, known by the index of its first node in `log`. */
  datatype Push = Push(prev: Option<Node>, first: Node)

  /** A captured snapshot: `cursor` and `tail` are what the capturing thread holds; it covers `log[lo..hi]`
      and has yielded `log[lo..pos]`. */
  datatype Snapshot = Snapshot(cursor: Option<Node>, tail: Node, lo: nat, pos: nat, hi: nat, yielded: seq<Node>)

  /** The position of the consumer inside the single-consumer macros. */
  datatype Consumer =
    | Idle
    | AtHead(h: Node)                    // get_head returned h
    | Loaded(h: Node, n: Option<Node>)   // pop_head read the next word of h
    | HeadCleared(h: Node)               // pop_head stored NULL in head
    | AwaitNext(h: Node)                 // its compare-exchange of tail failed
    | GotNext(h: Node, m: Node)
    | UndoBegin(n: Option<Node>)         // undo_pop_list, before the store to the next word of its tail
    | UndoStored                         // that word is NULL: compare-exchange of tail is due
    | UndoAwaitHead
    | UndoGotHead(m: Node)
    | UndoFinish                         // list linked in front of the queue, head store is due
    | UndoPublish(h: Node)               // compare-exchange won, head store is due
    | SnapCleared(h: Node)               // capture_snapshot stored NULL in head

  datatype State = State(
    head: Option<Node>, tail: Option<Node>, next: map<Node, Node>,
    prep: map<Node, seq<Node>>, flight: map<nat, Push>,
    consumer: Consumer, keep: nat, lastNext: Option<Node>, snaps: seq<Snapshot>,
    owner: map<Node, Owner>, log: seq<Node>, out: seq<Node>)

  const Init := State(None, None, map[], map[], map[], Idle, 0, None, [], map[], [], [])

  datatype Action =
    | Write(n: Node, v: Node) | Prepare(items: seq<Node>) | Exchange(first: Node) | Link(i: nat)
    | GetHead | PopLoad | PopStore | PopCas | PopAwait | PopRestore | HandOn
    | UndoStart | PrependStart | UndoStore | UndoCas | UndoAwait | UndoRelink | UndoHead | UndoPublished
    | CaptureStart | CaptureXchg | SnapNext(k: nat)

  predicate Distinct(items: seq<Node>) {
    forall i, j :: 0 <= i < j < |items| ==> items[i] != items[j]
  }

  /** `items` is linked in memory from its first node to its last. */
  predicate Chained(next: map<Node, Node>, items: seq<Node>) {
    && (forall i :: 0 <= i < |items| - 1 ==> items[i] in next)
    && (forall i {:trigger next[items[i]]} :: 0 <= i < |items| - 1 ==> next[items[i]] == items[i + 1])
  }

  function Next(s: State, n: Node): Option<Node> {
    if n in s.next then Some(s.next[n]) else None
  }

  function Last(q: seq<Node>): Node
    requires q != []
  {
    q[|q| - 1]
  }

  function Reserved(owner: map<Node, Owner>, items: seq<Node>): (r: map<Node, Owner>)
    requires Distinct(items)
    ensures forall j :: 0 <= j < |items| ==> items[j] in r && r[items[j]] == Preparing(items[0], j)
    ensures forall n :: n !in items ==> (n in r <==> n in owner) && (n in r ==> r[n] == owner[n])
  {
    owner + (map j | 0 <= j < |items| :: items[j] := Preparing(items[0], j))
  }

  /** The list that starts with `first` enters the log at index `base`. */
  function Promote(o: Owner, first: Node, base: nat): Owner {
    if o.Preparing? && o.first == first then At(base + o.j) else o
  }

  /** The nodes that the consumer has popped and kept. */
  function Held(s: State): seq<Node> {
    if s.keep <= |s.out| then s.out[|s.out| - s.keep..] else []
  }

  /** The pop of `h` takes effect; `n` is what pop_head returns. */
  function Popped(s: State, h: Node, n: Option<Node>): State {
    s.(consumer := Idle, lastNext := n, out := s.out + [h], keep := s.keep + 1)
  }

  /** The held list is back in the queue. */
  function Unpopped(s: State): State {
    s.(out := s.out[..|s.out| - |Held(s)|], keep := 0, lastNext := None)
  }

  /** The tail exchange of the push of `items`. */
  function Exchanged(s: State, items: seq<Node>): State
    requires items != []
  {
    s.(tail := Some(Last(items)),
       flight := s.flight[|s.log| := Push(s.tail, items[0])],
       log := s.log + items,
       owner := map n | n in s.owner :: Promote(s.owner[n], items[0], |s.log|),
       prep := s.prep - {items[0]})
  }

  /** The linking store of the push whose first node is `log[i]`. */
  function Linked(s: State, i: nat): State
    requires i in s.flight
  {
    var p := s.flight[i];
    match p.prev
    case None => s.(head := Some(p.first), flight := s.flight - {i})
    case Some(prev) => s.(next := s.next[prev := p.first], flight := s.flight - {i})
  }

  function StepProducer(s: State, a: Action): Option<State>
    requires a.Write? || a.Prepare? || a.Exchange? || a.Link?
  {
    match a
    // clients link lists out of nodes they own, the consumer out of nodes it holds
    case Write(n, v) =>
      if n !in s.owner || (s.consumer.Idle? && n in Held(s)) then Some(s.(next := s.next[n := v])) else None
    case Prepare(items) =>
      if items == [] || !Distinct(items) || !Chained(s.next, items) || (exists n :: n in items && n in s.owner) then None
      else Some(s.(next := s.next - {Last(items)},
                   prep := s.prep[items[0] := items],
                   owner := Reserved(s.owner, items)))
    case Exchange(first) =>
      if first !in s.prep || s.prep[first] == [] then None else Some(Exchanged(s, s.prep[first]))
    case Link(i) => if i in s.flight then Some(Linked(s, i)) else None
  }

  function StepPop(s: State, a: Action): Option<State>
    requires a.GetHead? || a.PopLoad? || a.PopStore? || a.PopCas? || a.PopAwait? || a.PopRestore? || a.HandOn?
  {
    var c := s.consumer;
    match a
    case GetHead => if c.Idle? && s.head.Some? then Some(s.(consumer := AtHead(s.head.value))) else None
    case PopLoad => if c.AtHead? then Some(s.(consumer := Loaded(c.h, Next(s, c.h)))) else None
    case PopStore =>
      if !c.Loaded? then None
      else if c.n.Some? then Some(Popped(s.(head := c.n), c.h, c.n))
      else Some(s.(head := None, consumer := HeadCleared(c.h)))
    case PopCas =>
      if !c.HeadCleared? then None
      else if s.tail == Some(c.h) then Some(Popped(s.(tail := None), c.h, None))
      else Some(s.(consumer := AwaitNext(c.h)))
    case PopAwait => if c.AwaitNext? && c.h in s.next then Some(s.(consumer := GotNext(c.h, s.next[c.h]))) else None
    case PopRestore => if c.GotNext? then Some(Popped(s.(head := Some(c.m)), c.h, Some(c.m))) else None
    case HandOn =>
      if c.Idle? && Held(s) != [] then Some(s.(keep := s.keep - 1, owner := s.owner - {Held(s)[0]})) else None
  }

  function StepUndo(s: State, a: Action): Option<State>
    requires a.UndoStart? || a.PrependStart? || a.UndoStore? || a.UndoCas? || a.UndoAwait? || a.UndoRelink? || a.UndoHead? || a.UndoPublished?
  {
    var c, held := s.consumer, Held(s);
    match a
    // the list handed to undo_pop_list is linked from its head to its tail
    case UndoStart =>
      if c.Idle? && held != [] && Chained(s.next, held) then Some(s.(consumer := UndoBegin(s.lastNext))) else None
    case PrependStart =>
      if c.Idle? && held != [] && Chained(s.next, held) then Some(s.(consumer := UndoBegin(s.head))) else None
    case UndoStore =>
      if !c.UndoBegin? || held == [] then None
      else if c.n.Some? then Some(s.(next := s.next[Last(held) := c.n.value], consumer := UndoFinish))
      else Some(s.(next := s.next - {Last(held)}, consumer := UndoStored))
    case UndoCas =>
      if !c.UndoStored? || held == [] then None
      else if s.tail.None? then Some(Unpopped(s.(tail := Some(Last(held)), consumer := UndoPublish(held[0]))))
      else Some(s.(consumer := UndoAwaitHead))
    case UndoAwait => if c.UndoAwaitHead? && s.head.Some? then Some(s.(consumer := UndoGotHead(s.head.value))) else None
    case UndoRelink =>
      if !c.UndoGotHead? || held == [] then None
      else Some(s.(next := s.next[Last(held) := c.m], consumer := UndoFinish))
    case UndoHead =>
      if !c.UndoFinish? || held == [] then None else Some(Unpopped(s.(head := Some(held[0]), consumer := Idle)))
    case UndoPublished =>
      if c.UndoPublish? then Some(s.(head := Some(c.h), consumer := Idle, lastNext := None)) else None
  }

  /** The exchange of the tail with NULL by the thread that has emptied the head. */
  function Captured(s: State, h: Node, tl: Node): State {
    s.(tail := None, consumer := Idle, out := s.log, lastNext := None,
       keep := 0, owner := s.owner - (set n | n in Held(s)),
       snaps := s.snaps + [Snapshot(Some(h), tl, |s.out|, |s.out|, |s.log|, [])])
  }

  /** The snapshot after it has yielded its first remaining node `c`. */
  function Advanced(sn: Snapshot, c: Node, next: map<Node, Node>): Snapshot
    requires c == sn.tail || c in next
  {
    sn.(cursor := if c == sn.tail then None else Some(next[c]), pos := sn.pos + 1, yielded := sn.yielded + [c])
  }

  function StepSnapshot(s: State, a: Action): Option<State>
    requires a.CaptureStart? || a.CaptureXchg? || a.SnapNext?
  {
    match a
    case CaptureStart =>
      if s.consumer.AtHead? then Some(s.(head := None, consumer := SnapCleared(s.consumer.h))) else None
    case CaptureXchg =>
      if !s.consumer.SnapCleared? || s.tail.None? then None
      else Some(Captured(s, s.consumer.h, s.tail.value))
    case SnapNext(k) =>
      if k >= |s.snaps| || s.snaps[k].cursor.None? then None
      else
        var sn := s.snaps[k];
        var c := sn.cursor.value;
        // pop_snapshot_head waits for the link unless the cursor is the snapshot's tail
        if c != sn.tail && c !in s.next then None
        else Some(s.(owner := s.owner - {c}, snaps := s.snaps[k := Advanced(sn, c, s.next)]))
  }

  function Step(s: State, a: Action): Option<State> {
    match a
    case Write(_, _) => StepProducer(s, a) case Prepare(_) => StepProducer(s, a)
    case Exchange(_) => StepProducer(s, a) case Link(_) => StepProducer(s, a)
    case GetHead => StepPop(s, a) case PopLoad => StepPop(s, a) case PopStore => StepPop(s, a) case PopCas => StepPop(s, a)
    case PopAwait => StepPop(s, a) case PopRestore => StepPop(s, a) case HandOn => StepPop(s, a)
    case UndoStart => StepUndo(s, a) case PrependStart => StepUndo(s, a) case UndoStore => StepUndo(s, a)
    case UndoCas => StepUndo(s, a) case UndoAwait => StepUndo(s, a) case UndoRelink => StepUndo(s, a)
    case UndoHead => StepUndo(s, a) case UndoPublished => StepUndo(s, a)
    case CaptureStart => StepSnapshot(s, a) case CaptureXchg => StepSnapshot(s, a) case SnapNext(_) => StepSnapshot(s, a)
  }

  // ---- The invariant ------------------------------------------------------------------------------------

  predicate OwnedAt(log: seq<Node>, owner: map<Node, Owner>, i: int) {
    0 <= i < |log| && log[i] in owner && owner[log[i]] == At(i)
  }

  /** The link from the node before position `i` to the node at `i` is stored, or is the store that the push
      at `i` still owes. */
  predicate LinkOk(log: seq<Node>, next: map<Node, Node>, flight: map<nat, Push>, i: int) {
    0 < i < |log| &&
    var a, b := log[i - 1], log[i];
    if i in flight then flight[i].prev == Some(a) && a !in next else a in next && next[a] == b
  }

  predicate StoredLink(log: seq<Node>, next: map<Node, Node>, i: int) {
    0 < i < |log| && log[i - 1] in next && next[log[i - 1]] == log[i]
  }

  ghost predicate HistoryOk(s: State) {
    s.keep <= |s.out| <= |s.log| && s.out == s.log[..|s.out|]
  }

  ghost predicate QueueOk(s: State) {
    && (forall i :: |s.out| - s.keep <= i < |s.log| ==> OwnedAt(s.log, s.owner, i))
    && (forall i :: |s.out| < i < |s.log| ==> LinkOk(s.log, s.next, s.flight, i))
    && (if |s.out| < |s.log| then s.tail == Some(Last(s.log)) && Last(s.log) !in s.next else s.tail == None)
  }

  ghost predicate PushOk(s: State, i: nat, p: Push) {
    && i < |s.log| && p.first == s.log[i]
    && match p.prev {
      case None => i == |s.out|
      case Some(a) => i > 0 && a == s.log[i - 1] && OwnedAt(s.log, s.owner, i - 1) && (|s.out| < i || i < |s.out| - s.keep)
    }
  }

  ghost predicate FlightOk(s: State) {
    forall i {:trigger PushOk(s, i, s.flight[i])} :: i in s.flight ==> PushOk(s, i, s.flight[i])
  }

  ghost predicate SnapshotOk(log: seq<Node>, owner: map<Node, Owner>, next: map<Node, Node>, flight: map<nat, Push>,
                             limit: int, sn: Snapshot) {
    && sn.lo <= sn.pos <= sn.hi <= limit <= |log| && sn.lo < sn.hi
    && sn.yielded == log[sn.lo..sn.pos]
    && sn.tail == log[sn.hi - 1]
    && sn.cursor == (if sn.pos == sn.hi then None else Some(log[sn.pos]))
    && (forall i :: sn.pos <= i < sn.hi ==> OwnedAt(log, owner, i))
    && (forall i :: sn.pos < i < sn.hi ==> LinkOk(log, next, flight, i))
    && (sn.pos < sn.hi ==> sn.tail !in next && sn.pos !in flight)
    && (sn.hi in flight ==> flight[sn.hi].prev == None)
  }

  ghost predicate SnapAt(s: State, k: int) {
    0 <= k < |s.snaps| && SnapshotOk(s.log, s.owner, s.next, s.flight, |s.out| - s.keep, s.snaps[k])
  }

  ghost predicate SnapshotsOk(s: State) {
    && (forall k :: 0 <= k < |s.snaps| ==> SnapAt(s, k))
    && (forall j, k :: 0 <= j < k < |s.snaps| ==> s.snaps[j].hi <= s.snaps[k].lo)
  }

  /** The j-th node of a prepared list is reserved for it and linked to its successor. */
  predicate PreparedAt(owner: map<Node, Owner>, next: map<Node, Node>, items: seq<Node>, j: int) {
    && 0 <= j < |items|
    && items[j] in owner && owner[items[j]] == Preparing(items[0], j)
    && (if j + 1 < |items| then items[j] in next && next[items[j]] == items[j + 1] else items[j] !in next)
  }

  ghost predicate ListPrepared(owner: map<Node, Owner>, next: map<Node, Node>, f: Node, items: seq<Node>) {
    items != [] && items[0] == f && forall j :: 0 <= j < |items| ==> PreparedAt(owner, next, items, j)
  }

  ghost predicate PrepOk(s: State) {
    && (forall f {:trigger ListPrepared(s.owner, s.next, f, s.prep[f])} :: f in s.prep ==> ListPrepared(s.owner, s.next, f, s.prep[f]))
    && (forall n :: n in s.owner && s.owner[n].Preparing? ==>
          var o := s.owner[n]; o.first in s.prep && o.j < |s.prep[o.first]| && s.prep[o.first][o.j] == n)
  }

  /** The head word names the first node of the queue. */
  ghost predicate HeadLinked(s: State) {
    |s.out| < |s.log| && s.head == Some(s.log[|s.out|]) && |s.out| !in s.flight
  }

  /** Nobody but the consumer may write the head word, which is NULL although the queue is not empty. */
  ghost predicate HeadTaken(s: State, h: Node) {
    |s.out| < |s.log| && s.head == None && |s.out| !in s.flight && h == s.log[|s.out|]
  }

  ghost predicate HeadNormal(s: State) {
    if |s.out| < |s.log| then
      HeadLinked(s) || (s.head == None && |s.out| in s.flight && s.flight[|s.out|].prev == None)
    else s.head == None
  }

  /** The consumer has emptied the head word, or is about to fill it for a list that is queued already. */
  predicate TakesHead(c: Consumer) {
    c.HeadCleared? || c.AwaitNext? || c.GotNext? || c.UndoPublish? || c.SnapCleared?
  }

  predicate Undoing(c: Consumer) {
    c.UndoBegin? || c.UndoStored? || c.UndoAwaitHead? || c.UndoGotHead? || c.UndoFinish?
  }

  /** The node that the consumer believes to be first in the queue. */
  function Relies(s: State): Option<Node> {
    match s.consumer
    case Idle => s.lastNext
    case AtHead(h) => Some(h)
    case Loaded(h, _) => Some(h)
    case UndoBegin(n) => n
    case UndoGotHead(m) => Some(m)
    case UndoFinish => if |s.out| == 0 then None else Next(s, Last(s.out))
    case _ => None
  }

  ghost predicate ConsumerOk(s: State) {
    var c := s.consumer;
    && |s.out| <= |s.log|
    && (if TakesHead(c) then HeadTaken(s, c.h) else HeadNormal(s))
    && (Relies(s).Some? ==> HeadLinked(s) && s.head == Relies(s))
    && (Undoing(c) ==> 0 < s.keep <= |s.out| && forall i :: |s.out| - s.keep < i < |s.out| ==> StoredLink(s.log, s.next, i))
    && (c.UndoStored? ==> s.log[|s.out| - 1] !in s.next)
    && (c.UndoFinish? ==> s.log[|s.out| - 1] in s.next)
    && (c.AwaitNext? || c.GotNext? ==> |s.out| + 1 < |s.log|)
    && (c.UndoAwaitHead? ==> |s.out| < |s.log|)
    && (c.Loaded? && c.n.Some? ==> Next(s, c.h) == c.n)
    && (c.GotNext? ==> Next(s, c.h) == Some(c.m))
  }

  /** The part of the invariant that does not depend on where the consumer is. */
  ghost predicate Core(s: State) {
    HistoryOk(s) && QueueOk(s) && FlightOk(s) && SnapshotsOk(s) && PrepOk(s)
  }

  ghost predicate Inv(s: State) {
    Core(s) && ConsumerOk(s)
  }

  // ---- Every action keeps the invariant -----------------------------------------------------------------

  /** What a step leaves alone that only writes nodes of clients and of the held list. */
  ghost predicate Frames(s: State, t: State) {
    && t.log == s.log && t.out == s.out && t.keep <= s.keep && t.snaps == s.snaps
    && t.flight == s.flight && t.tail == s.tail
    && (forall n :: n in s.owner && s.owner[n].At? && !(|s.out| - s.keep <= s.owner[n].index < |s.out| - t.keep)
          ==> n in t.owner && t.owner[n] == s.owner[n])
    && (forall n :: n in s.owner && s.owner[n].At? && !(|s.out| - s.keep <= s.owner[n].index < |s.out|)
          ==> (n in t.next <==> n in s.next) && (n in s.next ==> t.next[n] == s.next[n]))
  }

  lemma FrameKeepsQueue(s: State, t: State)
    requires HistoryOk(s) && QueueOk(s) && FlightOk(s) && Frames(s, t)
    ensures HistoryOk(t) && QueueOk(t) && FlightOk(t)
  {
    forall i | |t.out| - t.keep <= i < |t.log| ensures OwnedAt(t.log, t.owner, i) {
      assert OwnedAt(s.log, s.owner, i);
    }
    forall i | |t.out| < i < |t.log| ensures LinkOk(t.log, t.next, t.flight, i) {
      assert LinkOk(s.log, s.next, s.flight, i) && OwnedAt(s.log, s.owner, i - 1);
    }
    if |t.out| < |t.log| { assert OwnedAt(s.log, s.owner, |s.log| - 1); }
    forall i | i in t.flight ensures PushOk(t, i, t.flight[i]) {
      assert PushOk(s, i, s.flight[i]);
    }
  }

  lemma FrameKeepsSnapshot(s: State, t: State, sn: Snapshot)
    requires Frames(s, t) && SnapshotOk(s.log, s.owner, s.next, s.flight, |s.out| - s.keep, sn)
    ensures sn.hi <= |t.out| - t.keep <= |t.log| ==> SnapshotOk(t.log, t.owner, t.next, t.flight, |t.out| - t.keep, sn)
  {
    forall i | sn.pos <= i < sn.hi ensures OwnedAt(t.log, t.owner, i) {
      assert OwnedAt(s.log, s.owner, i);
    }
    forall i | sn.pos < i < sn.hi ensures LinkOk(t.log, t.next, t.flight, i) {
      assert LinkOk(s.log, s.next, s.flight, i) && OwnedAt(s.log, s.owner, i - 1);
    }
    if sn.pos < sn.hi { assert OwnedAt(s.log, s.owner, sn.hi - 1); }
  }

  lemma FrameKeeps(s: State, t: State)
    requires Core(s) && Frames(s, t)
    ensures HistoryOk(t) && QueueOk(t) && FlightOk(t) && SnapshotsOk(t)
  {
    FrameKeepsQueue(s, t);
    forall k | 0 <= k < |t.snaps| ensures SnapAt(t, k) {
      assert SnapAt(s, k);
      FrameKeepsSnapshot(s, t, s.snaps[k]);
    }
  }
  /** The consumer's clause survives a step that leaves its words and every queued or held node alone. */
  lemma ConsumerFrame(s: State, t: State)
    requires HistoryOk(s) && QueueOk(s) && ConsumerOk(s) && Frames(s, t)
    requires t.consumer == s.consumer && t.head == s.head && t.lastNext == s.lastNext && t.keep == s.keep
    requires forall n :: n in s.owner && s.owner[n].At? ==>
               (n in t.next <==> n in s.next) && (n in s.next ==> t.next[n] == s.next[n])
    ensures ConsumerOk(t)
  {
    if |s.out| < |s.log| { assert OwnedAt(s.log, s.owner, |s.out|); }
    if s.keep > 0 { assert OwnedAt(s.log, s.owner, |s.out| - 1); }
    if Undoing(s.consumer) {
      forall i | |s.out| - s.keep < i < |s.out| ensures StoredLink(t.log, t.next, i) {
        assert StoredLink(s.log, s.next, i) && OwnedAt(s.log, s.owner, i - 1);
      }
    }
  }

  lemma PrepFrame(s: State, t: State)
    requires PrepOk(s) && t.prep == s.prep
    requires forall n :: n in s.owner && s.owner[n].Preparing? ==>
               n in t.owner && t.owner[n] == s.owner[n] && (n in t.next <==> n in s.next) && (n in s.next ==> t.next[n] == s.next[n])
    requires forall n :: n in t.owner && t.owner[n].Preparing? ==> n in s.owner && t.owner[n] == s.owner[n]
    ensures PrepOk(t)
  {
    forall f | f in t.prep ensures ListPrepared(t.owner, t.next, f, t.prep[f]) {
      assert ListPrepared(s.owner, s.next, f, s.prep[f]);
      forall j | 0 <= j < |t.prep[f]| ensures PreparedAt(t.owner, t.next, t.prep[f], j) {
        assert PreparedAt(s.owner, s.next, s.prep[f], j);
      }
    }
  }

  /** A held node keeps its place in the log. */
  lemma HeldOwned(s: State, n: Node)
    requires HistoryOk(s) && QueueOk(s) && n in Held(s)
    ensures n in s.owner && s.owner[n].At? && |s.out| - s.keep <= s.owner[n].index < |s.out|
  {
    var j :| 0 <= j < |Held(s)| && Held(s)[j] == n;
    assert OwnedAt(s.log, s.owner, |s.out| - s.keep + j);
  }

  lemma WriteKeeps(s: State, n: Node, v: Node)
    requires Inv(s) && Step(s, Write(n, v)).Some?
    ensures Inv(Step(s, Write(n, v)).value)
  {
    if n in s.owner { WriteHeld(s, n, v); } else { WriteFree(s, n, v); }
  }

  lemma WriteHeld(s: State, n: Node, v: Node)
    requires Inv(s) && Step(s, Write(n, v)).Some? && n in s.owner
    ensures Inv(Step(s, Write(n, v)).value)
  {
    var t := Step(s, Write(n, v)).value;
    HeldOwned(s, n);
    FrameKeeps(s, t);
    PrepFrame(s, t);
  }

  lemma WriteFree(s: State, n: Node, v: Node)
    requires Inv(s) && Step(s, Write(n, v)).Some? && n !in s.owner
    ensures Inv(Step(s, Write(n, v)).value)
  {
    var t := Step(s, Write(n, v)).value;
    FrameKeeps(s, t);
    PrepFrame(s, t);
    ConsumerFrame(s, t);
  }

  lemma NewListPrepared(owner: map<Node, Owner>, next: map<Node, Node>, items: seq<Node>)
    requires items != [] && Distinct(items) && Chained(next, items)
    ensures ListPrepared(Reserved(owner, items), next - {Last(items)}, items[0], items)
  {
    forall j | 0 <= j < |items| ensures PreparedAt(Reserved(owner, items), next - {Last(items)}, items, j) {
      assert items[j] in Reserved(owner, items);
      if j + 1 < |items| { assert next[items[j]] == items[j + 1]; }
    }
  }

  lemma PrepareKeepsPrep(s: State, t: State, items: seq<Node>)
    requires PrepOk(s) && items != [] && Distinct(items) && Chained(s.next, items) && forall n :: n in items ==> n !in s.owner
    requires t.prep == s.prep[items[0] := items] && t.owner == Reserved(s.owner, items) && t.next == s.next - {Last(items)}
    ensures PrepOk(t)
  {
    forall f | f in t.prep ensures ListPrepared(t.owner, t.next, f, t.prep[f]) {
      if f == items[0] {
        NewListPrepared(s.owner, s.next, items);
      } else {
        assert ListPrepared(s.owner, s.next, f, s.prep[f]);
        forall j | 0 <= j < |s.prep[f]| ensures PreparedAt(t.owner, t.next, s.prep[f], j) {
          assert PreparedAt(s.owner, s.next, s.prep[f], j);
        }
      }
    }
    forall n | n in t.owner && t.owner[n].Preparing?
      ensures t.owner[n].first in t.prep && t.owner[n].j < |t.prep[t.owner[n].first]| && t.prep[t.owner[n].first][t.owner[n].j] == n
    {
      if n !in items {
        assert n in s.owner && s.owner[n].first != items[0] by {
          assert ListPrepared(s.owner, s.next, s.owner[n].first, s.prep[s.owner[n].first]);
          assert PreparedAt(s.owner, s.next, s.prep[s.owner[n].first], 0);
        }
      }
    }
  }

  lemma PrepareKeeps(s: State, items: seq<Node>)
    requires Inv(s) && Step(s, Prepare(items)).Some?
    ensures Inv(Step(s, Prepare(items)).value)
  {
    var t := Step(s, Prepare(items)).value;
    FrameKeeps(s, t);
    ConsumerFrame(s, t);
    PrepareKeepsPrep(s, t, items);
  }

  // the tail exchange

  lemma ExchangeKeepsQueue(s: State, t: State, items: seq<Node>)
    requires HistoryOk(s) && QueueOk(s) && items != [] && ListPrepared(s.owner, s.next, items[0], items)
    requires forall i :: i in s.flight ==> i < |s.log|
    requires t == Exchanged(s, items)
    ensures HistoryOk(t) && QueueOk(t)
  {
    assert t.out == t.log[..|t.out|];
    forall i | |t.out| - t.keep <= i < |t.log| ensures OwnedAt(t.log, t.owner, i) {
      if i < |s.log| { assert OwnedAt(s.log, s.owner, i); } else { assert PreparedAt(s.owner, s.next, items, i - |s.log|); }
    }
    forall i | |t.out| < i < |t.log| ensures LinkOk(t.log, t.next, t.flight, i) {
      if i < |s.log| {
        assert LinkOk(s.log, s.next, s.flight, i);
      } else if i > |s.log| {
        assert PreparedAt(s.owner, s.next, items, i - 1 - |s.log|);
      }
    }
    assert PreparedAt(s.owner, s.next, items, |items| - 1);
  }

  lemma ExchangeKeepsFlight(s: State, t: State, items: seq<Node>)
    requires HistoryOk(s) && QueueOk(s) && FlightOk(s) && items != []
    requires t == Exchanged(s, items)
    ensures FlightOk(t)
  {
    if |s.out| < |s.log| { assert OwnedAt(s.log, s.owner, |s.log| - 1); }
    forall i | i in t.flight ensures PushOk(t, i, t.flight[i]) {
      if i != |s.log| { assert PushOk(s, i, s.flight[i]); }
    }
  }

  lemma ExchangeKeepsSnapshot(s: State, t: State, items: seq<Node>, sn: Snapshot)
    requires HistoryOk(s) && QueueOk(s) && items != [] && t == Exchanged(s, items)
    requires SnapshotOk(s.log, s.owner, s.next, s.flight, |s.out| - s.keep, sn)
    ensures SnapshotOk(t.log, t.owner, t.next, t.flight, |t.out| - t.keep, sn)
  {
    forall i | sn.pos <= i < sn.hi ensures OwnedAt(t.log, t.owner, i) {
      assert OwnedAt(s.log, s.owner, i);
    }
    forall i | sn.pos < i < sn.hi ensures LinkOk(t.log, t.next, t.flight, i) {
      assert LinkOk(s.log, s.next, s.flight, i);
    }
  }

  lemma ExchangeKeepsPrep(s: State, t: State, items: seq<Node>)
    requires PrepOk(s) && items != [] && t == Exchanged(s, items)
    ensures PrepOk(t)
  {
    forall f | f in t.prep ensures ListPrepared(t.owner, t.next, f, t.prep[f]) {
      assert ListPrepared(s.owner, s.next, f, s.prep[f]);
      forall j | 0 <= j < |t.prep[f]| ensures PreparedAt(t.owner, t.next, t.prep[f], j) {
        assert PreparedAt(s.owner, s.next, s.prep[f], j);
      }
    }
  }

  lemma ExchangeKeepsConsumer(s: State, t: State, items: seq<Node>)
    requires HistoryOk(s) && QueueOk(s) && ConsumerOk(s) && items != [] && t == Exchanged(s, items)
    ensures ConsumerOk(t)
  {
    if Undoing(s.consumer) {
      forall i | |s.out| - s.keep < i < |s.out| ensures StoredLink(t.log, t.next, i) {
        assert StoredLink(s.log, s.next, i);
      }
    }
  }

  lemma ExchangeKeeps(s: State, first: Node)
    requires Inv(s) && Step(s, Exchange(first)).Some?
    ensures Inv(Step(s, Exchange(first)).value)
  {
    var items := s.prep[first];
    var t := Exchanged(s, items);
    assert ListPrepared(s.owner, s.next, first, items);
    ExchangeKeepsFlight(s, t, items);
    FlightBound(s);
    ExchangeKeepsQueue(s, t, items);
    forall k | 0 <= k < |t.snaps| ensures SnapAt(t, k) {
      assert SnapAt(s, k);
      ExchangeKeepsSnapshot(s, t, items, s.snaps[k]);
    }
    ExchangeKeepsPrep(s, t, items);
    ExchangeKeepsConsumer(s, t, items);
  }

  // the linking store

  lemma LinkKeepsQueue(s: State, t: State, i: nat)
    requires HistoryOk(s) && QueueOk(s) && FlightOk(s) && i in s.flight && t == Linked(s, i)
    ensures HistoryOk(t) && QueueOk(t) && FlightOk(t)
  {
    assert PushOk(s, i, s.flight[i]);
    forall j | |t.out| < j < |t.log| ensures LinkOk(t.log, t.next, t.flight, j) {
      assert LinkOk(s.log, s.next, s.flight, j) && OwnedAt(s.log, s.owner, j - 1);
    }
    if |s.out| < |s.log| { assert OwnedAt(s.log, s.owner, |s.log| - 1); }
    forall j | j in t.flight ensures PushOk(t, j, t.flight[j]) {
      assert PushOk(s, j, s.flight[j]);
    }
  }

  lemma LinkKeepsSnapshot(s: State, t: State, i: nat, sn: Snapshot)
    requires i in s.flight && PushOk(s, i, s.flight[i]) && t == Linked(s, i)
    requires SnapshotOk(s.log, s.owner, s.next, s.flight, |s.out| - s.keep, sn)
    ensures SnapshotOk(t.log, t.owner, t.next, t.flight, |t.out| - t.keep, sn)
  {
    forall j | sn.pos < j < sn.hi ensures LinkOk(t.log, t.next, t.flight, j) {
      assert LinkOk(s.log, s.next, s.flight, j) && OwnedAt(s.log, s.owner, j - 1);
    }
    if sn.pos < sn.hi { assert OwnedAt(s.log, s.owner, sn.hi - 1); }
  }

  lemma LinkKeepsPrep(s: State, t: State, i: nat)
    requires PrepOk(s) && i in s.flight && PushOk(s, i, s.flight[i]) && t == Linked(s, i)
    ensures PrepOk(t)
  {
    PrepFrame(s, t);
  }

  lemma LinkKeepsConsumer(s: State, t: State, i: nat)
    requires HistoryOk(s) && QueueOk(s) && ConsumerOk(s) && i in s.flight && PushOk(s, i, s.flight[i]) && t == Linked(s, i)
    ensures ConsumerOk(t)
  {
    if Undoing(s.consumer) { LinkKeepsUndoing(s, t, i); } else { LinkKeepsPopping(s, t, i); }
  }

  lemma LinkKeepsPopping(s: State, t: State, i: nat)
    requires HistoryOk(s) && QueueOk(s) && ConsumerOk(s) && i in s.flight && PushOk(s, i, s.flight[i]) && t == Linked(s, i)
    requires !Undoing(s.consumer)
    ensures ConsumerOk(t)
  {
    if |s.out| < |s.log| { assert OwnedAt(s.log, s.owner, |s.out|); }
    if |s.out| + 1 < |s.log| { assert LinkOk(s.log, s.next, s.flight, |s.out| + 1); }
  }

  lemma LinkKeepsUndoing(s: State, t: State, i: nat)
    requires HistoryOk(s) && QueueOk(s) && ConsumerOk(s) && i in s.flight && PushOk(s, i, s.flight[i]) && t == Linked(s, i)
    requires Undoing(s.consumer)
    ensures ConsumerOk(t)
  {
    if |s.out| < |s.log| { assert OwnedAt(s.log, s.owner, |s.out|); }
    assert OwnedAt(s.log, s.owner, |s.out| - 1);
    LinkKeepsHeld(s, t, i);
  }

  lemma LinkKeepsHeld(s: State, t: State, i: nat)
    requires HistoryOk(s) && QueueOk(s) && i in s.flight && PushOk(s, i, s.flight[i]) && t == Linked(s, i)
    requires forall j :: |s.out| - s.keep < j < |s.out| ==> StoredLink(s.log, s.next, j)
    ensures forall j :: |s.out| - s.keep < j < |s.out| ==> StoredLink(t.log, t.next, j)
  {
    forall j | |s.out| - s.keep < j < |s.out| ensures StoredLink(t.log, t.next, j) {
      assert StoredLink(s.log, s.next, j) && OwnedAt(s.log, s.owner, j - 1);
    }
  }

  lemma LinkKeeps(s: State, i: nat)
    requires Inv(s) && Step(s, Link(i)).Some?
    ensures Inv(Step(s, Link(i)).value)
  {
    var t := Linked(s, i);
    assert PushOk(s, i, s.flight[i]);
    LinkKeepsQueue(s, t, i);
    forall k | 0 <= k < |t.snaps| ensures SnapAt(t, k) {
      assert SnapAt(s, k);
      LinkKeepsSnapshot(s, t, i, s.snaps[k]);
    }
    LinkKeepsPrep(s, t, i);
    LinkKeepsConsumer(s, t, i);
  }

  // pop_head

  lemma PoppedKeeps(s: State, t: State)
    requires HistoryOk(s) && QueueOk(s) && FlightOk(s) && SnapshotsOk(s) && |s.out| < |s.log| && |s.out| !in s.flight
    requires t == s.(out := s.out + [s.log[|s.out|]], keep := s.keep + 1, head := t.head, tail := t.tail,
                     consumer := t.consumer, lastNext := t.lastNext)
    requires if |s.out| + 1 == |s.log| then t.tail == None else t.tail == s.tail && s.log[|s.out|] in s.next
    ensures HistoryOk(t) && QueueOk(t) && FlightOk(t) && SnapshotsOk(t)
  {
    assert t.out == t.log[..|t.out|];
    if |s.out| + 1 < |s.log| { assert LinkOk(s.log, s.next, s.flight, |s.out| + 1); }
    forall i | i in t.flight ensures PushOk(t, i, t.flight[i]) {
      assert PushOk(s, i, s.flight[i]);
    }
    forall k | 0 <= k < |t.snaps| ensures SnapAt(t, k) { assert SnapAt(s, k); }
  }

  /** The shared part of the invariant does not mention the words that only the consumer's clause is about. */
  lemma CoreSame(s: State, t: State)
    requires Core(s) && t == s.(consumer := t.consumer, head := t.head, lastNext := t.lastNext)
    ensures Core(t)
  {
    forall i | i in t.flight ensures PushOk(t, i, t.flight[i]) { assert PushOk(s, i, s.flight[i]); }
    forall k | 0 <= k < |t.snaps| ensures SnapAt(t, k) { assert SnapAt(s, k); }
  }

  lemma PopReadKeeps(s: State, a: Action)
    requires Inv(s) && Step(s, a).Some? && (a.GetHead? || a.PopLoad? || a.PopAwait?)
    ensures Inv(Step(s, a).value)
  {
    CoreSame(s, Step(s, a).value);
  }

  lemma PopStoreKeeps(s: State)
    requires Inv(s) && s.consumer.Loaded? && s.consumer.n.None?
    ensures Inv(s.(head := None, consumer := HeadCleared(s.consumer.h)))
  {
    CoreSame(s, s.(head := None, consumer := HeadCleared(s.consumer.h)));
  }

  lemma PopCasKeeps(s: State)
    requires Inv(s) && s.consumer.HeadCleared? && s.tail != Some(s.consumer.h)
    ensures Inv(s.(consumer := AwaitNext(s.consumer.h)))
  {
    CoreSame(s, s.(consumer := AwaitNext(s.consumer.h)));
  }

  /** A pop that finds its successor, and the consumer that is idle again afterwards. */
  lemma PopLinkedKeeps(s: State, t: State, h: Node, n: Node)
    requires Core(s) && |s.out| + 1 < |s.log| && |s.out| !in s.flight
    requires h == s.log[|s.out|] && h in s.next && n == s.next[h]
    requires t == Popped(s.(head := Some(n)), h, Some(n))
    ensures Inv(t)
  {
    PoppedKeeps(s, t);
    assert LinkOk(s.log, s.next, s.flight, |s.out| + 1);
  }

  lemma PopLastKeeps(s: State, t: State, h: Node)
    requires Core(s) && |s.out| + 1 == |s.log| && |s.out| !in s.flight && s.head == None
    requires h == s.log[|s.out|] && t == Popped(s.(tail := None), h, None)
    ensures Inv(t)
  {
    PoppedKeeps(s, t);
  }

  lemma PopDoneKeeps(s: State, a: Action)
    requires Inv(s) && Step(s, a).Some? && (a.PopStore? || a.PopCas? || a.PopRestore?)
    ensures Inv(Step(s, a).value)
  {
    var h := s.consumer.h;
    assert OwnedAt(s.log, s.owner, |s.out|) && OwnedAt(s.log, s.owner, |s.log| - 1);
    if a.PopStore? && s.consumer.n.None? {
      PopStoreKeeps(s);
    } else if a.PopCas? && s.tail != Some(h) {
      PopCasKeeps(s);
    } else if a.PopCas? {
      PopLastKeeps(s, Step(s, a).value, h);
    } else {
      PopLinkedKeeps(s, Step(s, a).value, h, s.next[h]);
    }
  }

  lemma HandOnFrames(s: State, t: State)
    requires HistoryOk(s) && QueueOk(s) && 0 < s.keep && t == s.(keep := s.keep - 1, owner := s.owner - {Held(s)[0]})
    ensures Frames(s, t)
  {
    assert OwnedAt(s.log, s.owner, |s.out| - s.keep);
  }

  lemma HandOnKeepsPrep(s: State, t: State)
    requires HistoryOk(s) && QueueOk(s) && PrepOk(s) && 0 < s.keep && t == s.(keep := s.keep - 1, owner := s.owner - {Held(s)[0]})
    ensures PrepOk(t)
  {
    assert OwnedAt(s.log, s.owner, |s.out| - s.keep);
    PrepFrame(s, t);
  }

  lemma HandOnKeeps(s: State)
    requires Inv(s) && Step(s, HandOn).Some?
    ensures Inv(Step(s, HandOn).value)
  {
    var t := Step(s, HandOn).value;
    HandOnFrames(s, t);
    HandOnKeepsPrep(s, t);
    FrameKeeps(s, t);
  }

  // undo_pop_list and prepend

  lemma HeldStored(s: State)
    requires HistoryOk(s) && Chained(s.next, Held(s))
    ensures forall i :: |s.out| - s.keep < i < |s.out| ==> StoredLink(s.log, s.next, i)
  {
    var held := Held(s);
    forall i | |s.out| - s.keep < i < |s.out| ensures StoredLink(s.log, s.next, i) {
      var j := i - 1 - (|s.out| - s.keep);
      assert held[j] == s.log[i - 1] && held[j + 1] == s.log[i] && s.next[held[j]] == held[j + 1];
    }
  }

  lemma UndoStartKeeps(s: State, a: Action)
    requires Inv(s) && Step(s, a).Some? && (a.UndoStart? || a.PrependStart?)
    ensures Inv(Step(s, a).value)
  {
    CoreSame(s, Step(s, a).value);
    HeldStored(s);
  }

  /** A store to the next word of the last held node. */
  lemma UndoWriteKeeps(s: State, t: State)
    requires Inv(s) && 0 < s.keep
    requires t == s.(next := t.next, consumer := t.consumer)
    requires forall n :: n != s.log[|s.out| - 1] ==> (n in t.next <==> n in s.next) && (n in s.next ==> t.next[n] == s.next[n])
    ensures Core(t)
    ensures forall i :: |s.out| - s.keep < i < |s.out| && StoredLink(s.log, s.next, i) ==> StoredLink(t.log, t.next, i)
  {
    assert OwnedAt(s.log, s.owner, |s.out| - 1);
    FrameKeeps(s, t);
    PrepFrame(s, t);
    forall i | |s.out| - s.keep < i < |s.out| && StoredLink(s.log, s.next, i) ensures StoredLink(t.log, t.next, i) {
      assert OwnedAt(s.log, s.owner, i - 1);
    }
  }

  lemma UndoStoreConsumer(s: State, t: State, tl: Node)
    requires ConsumerOk(s) && (s.consumer.UndoBegin? || s.consumer.UndoGotHead?) && HistoryOk(s) && tl == s.log[|s.out| - 1]
    requires forall i :: |s.out| - s.keep < i < |s.out| ==> StoredLink(s.log, t.next, i)
    requires if Relies(s).Some? then t == s.(next := s.next[tl := Relies(s).value], consumer := UndoFinish)
             else t == s.(next := s.next - {tl}, consumer := UndoStored)
    ensures ConsumerOk(t)
  {
    assert Last(t.out) == tl;
  }

  lemma UndoStoreKeeps(s: State, a: Action)
    requires Inv(s) && Step(s, a).Some? && (a.UndoStore? || a.UndoRelink?)
    ensures Inv(Step(s, a).value)
  {
    var t := Step(s, a).value;
    assert Last(Held(s)) == s.log[|s.out| - 1];
    UndoWriteKeeps(s, t);
    UndoStoreConsumer(s, t, s.log[|s.out| - 1]);
  }

  lemma UnpoppedKeeps(s: State, t: State)
    requires HistoryOk(s) && QueueOk(s) && FlightOk(s) && SnapshotsOk(s) && 0 < s.keep && |s.out| !in s.flight
    requires t == s.(out := s.out[..|s.out| - s.keep], keep := 0, head := t.head, tail := t.tail,
                     consumer := t.consumer, lastNext := t.lastNext)
    requires forall i :: |s.out| - s.keep < i < |s.out| ==> StoredLink(s.log, s.next, i)
    requires if |s.out| == |s.log| then t.tail == Some(Last(s.log)) && Last(s.log) !in s.next
             else t.tail == s.tail && StoredLink(s.log, s.next, |s.out|)
    ensures HistoryOk(t) && QueueOk(t) && FlightOk(t) && SnapshotsOk(t) && |t.out| !in t.flight
  {
    forall j | j in s.flight ensures j < |t.out| || |s.out| < j {
      assert PushOk(s, j, s.flight[j]);
    }
    forall i | |t.out| < i < |t.log| ensures LinkOk(t.log, t.next, t.flight, i) {
      if i <= |s.out| {
        assert StoredLink(s.log, s.next, i);
      } else {
        assert LinkOk(s.log, s.next, s.flight, i);
      }
    }
    forall i | i in t.flight ensures PushOk(t, i, t.flight[i]) && i != |t.out| {
      assert PushOk(s, i, s.flight[i]);
    }
    forall k | 0 <= k < |t.snaps| ensures SnapAt(t, k) { assert SnapAt(s, k); }
  }

  /** undo_pop_list on an empty queue: the list is the queue, and its head is still to be stored. */
  lemma UndoCasWins(s: State, t: State)
    requires Inv(s) && s.consumer.UndoStored? && s.tail == None
    requires t == Unpopped(s.(tail := Some(Last(Held(s))), consumer := UndoPublish(Held(s)[0])))
    ensures Inv(t)
  {
    assert Last(Held(s)) == s.log[|s.out| - 1] && Held(s)[0] == s.log[|s.out| - s.keep];
    FlightBound(s);
    UnpoppedKeeps(s, t);
  }

  lemma UndoCasKeeps(s: State)
    requires Inv(s) && Step(s, UndoCas).Some?
    ensures Inv(Step(s, UndoCas).value)
  {
    var t := Step(s, UndoCas).value;
    if s.tail.None? { UndoCasWins(s, t); } else { CoreSame(s, t); }
  }

  lemma UndoHeadLinks(s: State)
    requires Inv(s) && s.consumer.UndoFinish?
    ensures HeadLinked(s) && StoredLink(s.log, s.next, |s.out|)
  {
    assert Last(s.out) == s.log[|s.out| - 1];
  }

  lemma UndoHeadKeeps(s: State)
    requires Inv(s) && Step(s, UndoHead).Some?
    ensures Inv(Step(s, UndoHead).value)
  {
    var t := Step(s, UndoHead).value;
    assert Held(s)[0] == s.log[|s.out| - s.keep];
    UndoHeadLinks(s);
    UnpoppedKeeps(s, t);
  }

  lemma UndoWordKeeps(s: State, a: Action)
    requires Inv(s) && Step(s, a).Some? && (a.UndoAwait? || a.UndoPublished?)
    ensures Inv(Step(s, a).value)
  {
    CoreSame(s, Step(s, a).value);
  }

  // snapshots

  lemma CaptureStartKeeps(s: State)
    requires Inv(s) && Step(s, CaptureStart).Some?
    ensures Inv(Step(s, CaptureStart).value)
  {
    CoreSame(s, Step(s, CaptureStart).value);
  }

  lemma HeldReleased(s: State, i: int)
    requires HistoryOk(s) && QueueOk(s) && OwnedAt(s.log, s.owner, i) && !(|s.out| - s.keep <= i < |s.out|)
    ensures OwnedAt(s.log, s.owner - (set n | n in Held(s)), i)
  {
    if s.log[i] in Held(s) { HeldOwned(s, s.log[i]); }
  }

  lemma FlightBound(s: State)
    requires FlightOk(s)
    ensures forall i :: i in s.flight ==> i < |s.log|
  {
    forall i | i in s.flight ensures i < |s.log| {
      assert PushOk(s, i, s.flight[i]);
    }
  }

  lemma CaptureKeepsOld(s: State, t: State, h: Node, tl: Node, sn: Snapshot)
    requires HistoryOk(s) && QueueOk(s) && t == Captured(s, h, tl)
    requires SnapshotOk(s.log, s.owner, s.next, s.flight, |s.out| - s.keep, sn)
    ensures SnapshotOk(t.log, t.owner, t.next, t.flight, |t.out| - t.keep, sn)
  {
    forall i | sn.pos <= i < sn.hi ensures OwnedAt(t.log, t.owner, i) {
      HeldReleased(s, i);
    }
  }

  lemma CaptureNew(s: State, t: State, h: Node, tl: Node)
    requires HistoryOk(s) && QueueOk(s) && FlightOk(s) && HeadTaken(s, h) && s.tail == Some(tl) && t == Captured(s, h, tl)
    ensures SnapshotOk(t.log, t.owner, t.next, t.flight, |t.out| - t.keep, Snapshot(Some(h), tl, |s.out|, |s.out|, |s.log|, []))
  {
    forall i | |s.out| <= i < |s.log| ensures OwnedAt(t.log, t.owner, i) {
      HeldReleased(s, i);
    }
    FlightBound(s);
  }

  lemma CaptureKeepsFlight(s: State, t: State, h: Node, tl: Node)
    requires HistoryOk(s) && QueueOk(s) && FlightOk(s) && HeadTaken(s, h) && t == Captured(s, h, tl)
    ensures HistoryOk(t) && QueueOk(t) && FlightOk(t)
  {
    forall i | i in t.flight ensures PushOk(t, i, t.flight[i]) {
      assert PushOk(s, i, s.flight[i]);
      HeldReleased(s, i - 1);
    }
  }

  lemma CaptureKeepsPrep(s: State, t: State, h: Node, tl: Node)
    requires HistoryOk(s) && QueueOk(s) && PrepOk(s) && t == Captured(s, h, tl)
    ensures PrepOk(t)
  {
    forall n | n in Held(s) ensures n in s.owner && s.owner[n].At? { HeldOwned(s, n); }
    PrepFrame(s, t);
  }

  lemma CaptureKeepsSnapshots(s: State, t: State, h: Node, tl: Node)
    requires HistoryOk(s) && QueueOk(s) && FlightOk(s) && SnapshotsOk(s)
    requires HeadTaken(s, h) && s.tail == Some(tl) && t == Captured(s, h, tl)
    ensures SnapshotsOk(t)
  {
    forall k | 0 <= k < |t.snaps| ensures SnapAt(t, k) {
      if k < |s.snaps| { assert SnapAt(s, k); CaptureKeepsOld(s, t, h, tl, s.snaps[k]); } else { CaptureNew(s, t, h, tl); }
    }
    forall j | 0 <= j < |s.snaps| ensures s.snaps[j].hi <= |s.out| { assert SnapAt(s, j); }
  }

  lemma CaptureXchgKeeps(s: State)
    requires Inv(s) && Step(s, CaptureXchg).Some?
    ensures Inv(Step(s, CaptureXchg).value)
  {
    var h, tl := s.consumer.h, s.tail.value;
    var t := Captured(s, h, tl);
    CaptureKeepsSnapshots(s, t, h, tl);
    CaptureKeepsFlight(s, t, h, tl);
    CaptureKeepsPrep(s, t, h, tl);
  }

  lemma AdvanceKeeps(s: State, c: Node, sn: Snapshot)
    requires SnapshotOk(s.log, s.owner, s.next, s.flight, |s.out| - s.keep, sn) && sn.cursor == Some(c)
    requires c == sn.tail || c in s.next
    ensures OwnedAt(s.log, s.owner, sn.pos) && c == s.log[sn.pos]
    ensures SnapshotOk(s.log, s.owner - {c}, s.next, s.flight, |s.out| - s.keep, Advanced(sn, c, s.next))
    ensures sn.pos + 1 in s.flight ==> s.flight[sn.pos + 1].prev == None
  {
    assert OwnedAt(s.log, s.owner, sn.pos) && OwnedAt(s.log, s.owner, sn.hi - 1);
    var sn' := Advanced(sn, c, s.next);
    if sn.pos + 1 < sn.hi { assert LinkOk(s.log, s.next, s.flight, sn.pos + 1); }
    forall i | sn'.pos <= i < sn'.hi ensures OwnedAt(s.log, s.owner - {c}, i) {
      assert OwnedAt(s.log, s.owner, i);
    }
  }

  lemma SnapNextKeepsOthers(s: State, c: Node, k: nat, j: nat)
    requires SnapshotsOk(s) && k < |s.snaps| && j < |s.snaps| && j != k
    requires s.snaps[k].pos < s.snaps[k].hi && OwnedAt(s.log, s.owner, s.snaps[k].pos) && c == s.log[s.snaps[k].pos]
    ensures SnapshotOk(s.log, s.owner - {c}, s.next, s.flight, |s.out| - s.keep, s.snaps[j])
  {
    var sn, kn := s.snaps[j], s.snaps[k];
    assert SnapAt(s, j) && SnapAt(s, k);
    forall i | sn.pos <= i < sn.hi ensures OwnedAt(s.log, s.owner - {c}, i) {
      assert OwnedAt(s.log, s.owner, i);
    }
  }

  lemma SnapNextKeepsQueue(s: State, t: State, c: Node, pos: nat)
    requires HistoryOk(s) && QueueOk(s) && FlightOk(s) && OwnedAt(s.log, s.owner, pos) && c == s.log[pos] && pos < |s.out| - s.keep
    requires pos + 1 in s.flight ==> s.flight[pos + 1].prev == None
    requires t == s.(owner := s.owner - {c}, snaps := t.snaps)
    ensures HistoryOk(t) && QueueOk(t) && FlightOk(t)
  {
    forall i | |t.out| - t.keep <= i < |t.log| ensures OwnedAt(t.log, t.owner, i) {
      assert OwnedAt(s.log, s.owner, i);
    }
    forall i | i in t.flight ensures PushOk(t, i, t.flight[i]) {
      assert PushOk(s, i, s.flight[i]);
    }
  }

  lemma SnapNextKeepsPrep(s: State, t: State, c: Node, pos: nat)
    requires PrepOk(s) && OwnedAt(s.log, s.owner, pos) && c == s.log[pos]
    requires t == s.(owner := s.owner - {c}, snaps := t.snaps)
    ensures PrepOk(t)
  {
    PrepFrame(s, t);
  }

  lemma SnapNextKeepsSnapshots(s: State, t: State, k: nat, c: Node)
    requires SnapshotsOk(s) && k < |s.snaps| && s.snaps[k].cursor == Some(c) && (c == s.snaps[k].tail || c in s.next)
    requires t == s.(owner := s.owner - {c}, snaps := s.snaps[k := Advanced(s.snaps[k], c, s.next)])
    ensures SnapshotsOk(t)
  {
    assert SnapAt(s, k);
    AdvanceKeeps(s, c, s.snaps[k]);
    forall j | 0 <= j < |t.snaps| ensures SnapAt(t, j) {
      if j != k { SnapNextKeepsOthers(s, c, k, j); }
    }
  }

  lemma SnapNextKeeps(s: State, k: nat)
    requires Inv(s) && Step(s, SnapNext(k)).Some?
    ensures Inv(Step(s, SnapNext(k)).value)
  {
    var sn := s.snaps[k];
    var c := sn.cursor.value;
    var t := s.(owner := s.owner - {c}, snaps := s.snaps[k := Advanced(sn, c, s.next)]);
    assert SnapAt(s, k);
    AdvanceKeeps(s, c, sn);
    SnapNextKeepsQueue(s, t, c, sn.pos);
    SnapNextKeepsSnapshots(s, t, k, c);
    SnapNextKeepsPrep(s, t, c, sn.pos);
    SnapNextKeepsConsumer(s, t);
  }

  lemma SnapNextKeepsConsumer(s: State, t: State)
    requires ConsumerOk(s) && t == s.(owner := t.owner, snaps := t.snaps)
    ensures ConsumerOk(t)
  {
  }

  lemma StepKeeps(s: State, a: Action)
    requires Inv(s) && Step(s, a).Some?
    ensures Inv(Step(s, a).value)
  {
    match a
    case Write(n, v) => WriteKeeps(s, n, v);
    case Prepare(items) => PrepareKeeps(s, items);
    case Exchange(f) => ExchangeKeeps(s, f);
    case Link(i) => LinkKeeps(s, i);
    case GetHead => PopReadKeeps(s, a);
    case PopLoad => PopReadKeeps(s, a);
    case PopAwait => PopReadKeeps(s, a);
    case PopStore => PopDoneKeeps(s, a);
    case PopCas => PopDoneKeeps(s, a);
    case PopRestore => PopDoneKeeps(s, a);
    case HandOn => HandOnKeeps(s);
    case UndoStart => UndoStartKeeps(s, a);
    case PrependStart => UndoStartKeeps(s, a);
    case UndoStore => UndoStoreKeeps(s, a);
    case UndoRelink => UndoStoreKeeps(s, a);
    case UndoCas => UndoCasKeeps(s);
    case UndoHead => UndoHeadKeeps(s);
    case UndoAwait => UndoWordKeeps(s, a);
    case UndoPublished => UndoWordKeeps(s, a);
    case CaptureStart => CaptureStartKeeps(s);
    case CaptureXchg => CaptureXchgKeeps(s);
    case SnapNext(k) => SnapNextKeeps(s, k);
  }

  lemma Reachable(acts: seq<Action>)
    ensures var r := Exec(Step, Init, acts); r.Some? ==> Inv(r.value)
  {
    forall p, a | Inv(p) && Step(p, a).Some? ensures Inv(Step(p, a).value) {
      StepKeeps(p, a);
    }
    Invariance(Step, Inv, Init, acts);
  }

  // ---- What every run guarantees -------------------------------------------------------------------------

  /** Memory read from `head` along the next words to `tail` spells `q`. */
  ghost predicate Spells(s: State, q: seq<Node>) {
    if q == [] then s.head == None && s.tail == None
    else
      && s.head == Some(q[0]) && s.tail == Some(Last(q)) && Last(q) !in s.next
      && forall i :: 0 < i < |q| ==> StoredLink(q, s.next, i)
  }

  lemma Quiescent(s: State)
    requires HistoryOk(s) && QueueOk(s) && ConsumerOk(s) && s.consumer.Idle? && s.flight == map[]
    ensures Spells(s, s.log[|s.out|..])
  {
    var q := s.log[|s.out|..];
    forall i | 0 < i < |q| ensures StoredLink(q, s.next, i) {
      assert LinkOk(s.log, s.next, s.flight, |s.out| + i);
    }
  }

  /** First in, first out. In every interleaving the nodes removed so far are a prefix of the order of the tail
      exchanges: nothing is lost, duplicated or reordered. Whenever no push is half done and the consumer is
      between calls, memory spells exactly the rest. */
  lemma Fifo(acts: seq<Action>, s: State)
    requires Exec(Step, Init, acts) == Some(s)
    ensures s.out <= s.log
    ensures s.consumer.Idle? && s.flight == map[] ==> Spells(s, s.log[|s.out|..])
  {
    Reachable(acts);
    if s.consumer.Idle? && s.flight == map[] { Quiescent(s); }
  }

  /** A push reports that the queue was empty exactly when everything pushed before it has been removed, so
      exactly one push per change from empty to non-empty does. */
  lemma PushReportsEmpty(acts: seq<Action>, s: State, first: Node)
    requires Exec(Step, Init, acts) == Some(s) && Step(s, Exchange(first)).Some?
    ensures var t := Step(s, Exchange(first)).value;
            t.flight[|s.log|].prev == None <==> s.out == s.log
  {
    Reachable(acts);
  }

  /** The store that links a list behind its predecessor never hits a node that the consumer has been given
      or that is back with the clients. */
  lemma LinkTargetIsQueued(acts: seq<Action>, s: State, i: nat)
    requires Exec(Step, Init, acts) == Some(s) && i in s.flight && s.flight[i].prev.Some?
    ensures var a := s.flight[i].prev.value; i > 0 && a in s.owner && s.owner[a] == At(i - 1) && a !in Held(s)
  {
    Reachable(acts);
    assert PushOk(s, i, s.flight[i]);
    if s.log[i - 1] in Held(s) { HeldOwned(s, s.log[i - 1]); }
  }

  ghost predicate OwedTo(s: State, slot: Option<Node>) {
    exists i :: i in s.flight && s.flight[i].prev == slot
  }

  /** What the consumer may be waiting for: the next word of a node, or the head word. */
  ghost predicate Waiting(s: State, slot: Option<Node>) {
    if slot.None? then s.head == None && ((s.consumer.Idle? && s.out != s.log) || s.consumer.UndoAwaitHead?)
    else
      && slot.value !in s.next
      && (s.consumer == AwaitNext(slot.value)
          || exists k :: 0 <= k < |s.snaps| && s.snaps[k].cursor == slot && s.snaps[k].tail != slot.value)
  }

  lemma SnapshotWait(s: State, k: nat)
    requires SnapshotsOk(s) && k < |s.snaps| && s.snaps[k].cursor.Some?
    requires s.snaps[k].tail != s.snaps[k].cursor.value && s.snaps[k].cursor.value !in s.next
    ensures OwedTo(s, s.snaps[k].cursor)
  {
    assert SnapAt(s, k);
    assert LinkOk(s.log, s.next, s.flight, s.snaps[k].pos + 1);
  }

  lemma WaitOwed(s: State, slot: Option<Node>)
    requires HistoryOk(s) && QueueOk(s) && ConsumerOk(s) && SnapshotsOk(s) && Waiting(s, slot)
    ensures OwedTo(s, slot)
  {
    if slot.None? {
      assert |s.out| in s.flight;
    } else if s.consumer == AwaitNext(slot.value) {
      assert LinkOk(s.log, s.next, s.flight, |s.out| + 1);
    } else {
      var k :| 0 <= k < |s.snaps| && s.snaps[k].cursor == slot && s.snaps[k].tail != slot.value;
      SnapshotWait(s, k);
    }
  }

  /** Every wait of the consumer is for a store that some producer still owes. */
  lemma WaitsAreOwed(acts: seq<Action>, s: State, slot: Option<Node>)
    requires Exec(Step, Init, acts) == Some(s) && Waiting(s, slot)
    ensures OwedTo(s, slot)
  {
    Reachable(acts);
    WaitOwed(s, slot);
  }

  lemma UnpoppedIsFront(s: State)
    requires HistoryOk(s)
    ensures var t := Unpopped(s); |t.out| <= |s.log| && s.log[|t.out|..] == Held(s) + s.log[|s.out|..]
  {
    assert Held(s) == s.log[|s.out| - s.keep..|s.out|];
  }

  lemma UndoTakesEffect(s: State, a: Action)
    requires HistoryOk(s) && QueueOk(s) && ConsumerOk(s) && Step(s, a).Some? && (a.UndoHead? || (a.UndoCas? && s.tail == None))
    ensures PutBack(s, Step(s, a).value)
  {
    UnpoppedIsFront(s);
    assert Step(s, a).value.out == Unpopped(s).out;
  }

  ghost predicate PutBack(s: State, t: State) {
    Held(s) != [] && t.log == s.log && |t.out| < |s.out| <= |s.log| && s.log[|t.out|..] == Held(s) + s.log[|s.out|..]
  }

  /** undo_pop_list and prepend: when the step that takes effect is done, the held list is again the front of
      the queue, before everything that producers have pushed meanwhile. */
  lemma UndoPutsBack(acts: seq<Action>, s: State, a: Action)
    requires Exec(Step, Init, acts) == Some(s) && Step(s, a).Some?
    requires a.UndoHead? || (a.UndoCas? && s.tail == None)
    ensures PutBack(s, Step(s, a).value)
  {
    Reachable(acts);
    UndoTakesEffect(s, a);
  }

  lemma CaptureCovers(s: State, h: Node, tl: Node)
    requires HistoryOk(s) && QueueOk(s) && HeadTaken(s, h) && s.tail == Some(tl)
    ensures var sn := Snapshot(Some(h), tl, |s.out|, |s.out|, |s.log|, []);
            s.out + s.log[sn.lo..sn.hi] == s.log && h == s.log[sn.lo] && tl == s.log[sn.hi - 1]
    ensures Captured(s, h, tl).snaps[|s.snaps|] == Snapshot(Some(h), tl, |s.out|, |s.out|, |s.log|, [])
  {
  }

  ghost predicate TakesAll(s: State, t: State) {
    && t.tail == None && t.head == None && t.out == t.log == s.log
    && |t.snaps| == |s.snaps| + 1
    && var sn := t.snaps[|s.snaps|];
       && sn.lo < sn.hi == |s.log| && s.out + s.log[sn.lo..sn.hi] == s.log
       && sn.cursor == Some(s.log[sn.lo]) && sn.tail == s.log[sn.hi - 1]
  }

  lemma CaptureTakes(s: State)
    requires HistoryOk(s) && QueueOk(s) && s.consumer.SnapCleared? && HeadTaken(s, s.consumer.h)
    ensures Step(s, CaptureXchg).Some? && TakesAll(s, Step(s, CaptureXchg).value)
  {
    CaptureCovers(s, s.consumer.h, s.tail.value);
  }

  /** A captured snapshot covers exactly the nodes exchanged before the capture and not removed until then,
      and leaves an empty queue behind. */
  lemma CaptureTakesAll(acts: seq<Action>, s: State)
    requires Exec(Step, Init, acts) == Some(s) && s.consumer.SnapCleared?
    ensures Step(s, CaptureXchg).Some? && TakesAll(s, Step(s, CaptureXchg).value)
  {
    Reachable(acts);
    CaptureTakes(s);
  }

  /** Walking a snapshot yields exactly what it covers, in order, whatever producers do meanwhile. */
  lemma SnapshotYieldsInOrder(acts: seq<Action>, s: State, k: nat)
    requires Exec(Step, Init, acts) == Some(s) && k < |s.snaps|
    ensures var sn := s.snaps[k]; sn.lo < sn.hi <= |s.out| <= |s.log| && sn.yielded <= s.log[sn.lo..sn.hi]
    ensures var sn := s.snaps[k]; sn.cursor == None <==> sn.yielded == s.log[sn.lo..sn.hi]
  {
    Reachable(acts);
    assert SnapAt(s, k);
  }

  // ---- What the calls return, and that they return --------------------------------------------------------

  lemma NodesDiffer(s: State, i: nat, j: nat)
    requires QueueOk(s) && |s.out| - s.keep <= i < |s.log| && |s.out| - s.keep <= j < |s.log| && s.log[i] == s.log[j]
    ensures i == j
  {
    assert OwnedAt(s.log, s.owner, i) && OwnedAt(s.log, s.owner, j);
  }

  /** What is second in the queue, if anything. */
  function Second(s: State): Option<Node> { if |s.out| + 1 < |s.log| then Some(s.log[|s.out| + 1]) else None }

  lemma PopFinds(s: State, a: Action)
    requires HistoryOk(s) && QueueOk(s) && ConsumerOk(s) && (a.PopStore? || a.PopCas? || a.PopRestore?)
    requires Step(s, a).Some? && |Step(s, a).value.out| != |s.out|
    ensures Step(s, a).value.lastNext == Second(s)
  {
    assert OwnedAt(s.log, s.owner, |s.out|);
    if |s.out| + 1 < |s.log| {
      assert LinkOk(s.log, s.next, s.flight, |s.out| + 1);
      if a.PopCas? { NodesDiffer(s, |s.out|, |s.log| - 1); }
    }
  }

  /** pop_head removes the first node of the queue and returns the one behind it: NULL exactly when nothing is left.
      No other action removes a single node. */
  lemma PopReturnsNext(acts: seq<Action>, s: State, a: Action)
    requires Exec(Step, Init, acts) == Some(s) && Step(s, a).Some? && (a.PopStore? || a.PopCas? || a.PopRestore?)
    requires |Step(s, a).value.out| != |s.out|
    ensures var t := Step(s, a).value;
            && t.log == s.log && |s.out| < |s.log| && t.out == s.out + [s.log[|s.out|]] && t.consumer.Idle?
            && t.lastNext == if |t.out| < |t.log| then Some(t.log[|t.out|]) else None
  {
    Reachable(acts);
    PopFinds(s, a);
    PoppedFirst(s, a);
  }

  lemma PoppedFirst(s: State, a: Action)
    requires HistoryOk(s) && ConsumerOk(s) && Step(s, a).Some? && (a.PopStore? || a.PopCas? || a.PopRestore?)
    requires |Step(s, a).value.out| != |s.out|
    ensures |s.out| < |s.log| && Step(s, a).value.out == s.out + [s.log[|s.out|]]
  {
  }

  /** How many own steps the consumer is from the end of its call, at most. */
  function Rank(c: Consumer): nat {
    match c
    case Idle => 0
    case AtHead(_) => 6 case Loaded(_, _) => 5 case HeadCleared(_) => 4 case AwaitNext(_) => 3 case GotNext(_, _) => 2
    case SnapCleared(_) => 1
    case UndoBegin(_) => 6 case UndoStored => 5 case UndoAwaitHead => 4 case UndoGotHead(_) => 3 case UndoFinish => 2
    case UndoPublish(_) => 1
  }

  /** The next action of the call that the consumer is in; after get_head it may pop or capture. */
  function Due(c: Consumer, capture: bool): Action
    requires !c.Idle?
  {
    match c
    case AtHead(_) => if capture then CaptureStart else PopLoad
    case Loaded(_, _) => PopStore case HeadCleared(_) => PopCas case AwaitNext(_) => PopAwait case GotNext(_, _) => PopRestore
    case SnapCleared(_) => CaptureXchg
    case UndoBegin(_) => UndoStore case UndoStored => UndoCas case UndoAwaitHead => UndoAwait
    case UndoGotHead(_) => UndoRelink case UndoFinish => UndoHead case UndoPublish(_) => UndoPublished
  }

  ghost predicate Advances(s: State, capture: bool)
    requires !s.consumer.Idle?
  {
    Step(s, Due(s.consumer, capture)).Some? && Rank(Step(s, Due(s.consumer, capture)).value.consumer) < Rank(s.consumer)
  }

  lemma DuePop(s: State, capture: bool)
    requires HistoryOk(s) && QueueOk(s) && ConsumerOk(s) && !s.consumer.Idle? && !Undoing(s.consumer)
    ensures Advances(s, capture) || (s.consumer.AwaitNext? && Waiting(s, Some(s.consumer.h)))
  {
  }

  lemma DueUndo(s: State, capture: bool)
    requires 0 < s.keep <= |s.out| && Undoing(s.consumer)
    ensures Advances(s, capture) || Waiting(s, None)
  {
    assert |Held(s)| == s.keep;
  }

  /** Every call of the consumer ends: each of its steps brings it nearer to the end, and whenever it cannot take its
      next step it waits for a store that some producer owes and can make at once. */
  lemma ConsumerCallsEnd(acts: seq<Action>, s: State, capture: bool)
    requires Exec(Step, Init, acts) == Some(s) && !s.consumer.Idle?
    ensures (exists slot, i :: Waiting(s, slot) && i in s.flight && s.flight[i].prev == slot && Step(s, Link(i)).Some?)
            || Advances(s, capture)
  {
    Reachable(acts);
    if Undoing(s.consumer) { DueUndo(s, capture); } else { DuePop(s, capture); }
    if !Advances(s, capture) {
      var slot := if Undoing(s.consumer) then None else Some(s.consumer.h);
      WaitOwed(s, slot);
      OwedCanStore(s, slot);
    }
  }

  lemma OwedCanStore(s: State, slot: Option<Node>)
    requires OwedTo(s, slot) && Waiting(s, slot)
    ensures exists other, i :: Waiting(s, other) && i in s.flight && s.flight[i].prev == other && Step(s, Link(i)).Some?
  {
    var i :| i in s.flight && s.flight[i].prev == slot;
    assert Step(s, Link(i)).Some?;
  }

  /** Between calls: a queue that is not empty gives its head to get_head, or the store of the head is owed; and a
      snapshot that is not used up yields its next node, or the link to it is owed. */
  lemma NextIsThere(acts: seq<Action>, s: State, k: nat)
    requires Exec(Step, Init, acts) == Some(s)
    ensures s.consumer.Idle? && s.out != s.log ==>
      OwedTo(s, None) || (Step(s, GetHead).Some? && |s.out| < |s.log| && Step(s, GetHead).value.consumer == AtHead(s.log[|s.out|]))
    ensures k < |s.snaps| && |s.snaps[k].yielded| != s.snaps[k].hi - s.snaps[k].lo ==>
      s.snaps[k].cursor.Some? && (OwedTo(s, s.snaps[k].cursor) || Step(s, SnapNext(k)).Some?)
  {
    Reachable(acts);
    if s.consumer.Idle? && s.out != s.log && s.head == None {
      WaitOwed(s, None);
    }
    if k < |s.snaps| {
      SnapshotYieldsInOrder(acts, s, k);
      if s.snaps[k].cursor.Some? && Step(s, SnapNext(k)).None? {
        SnapshotWait(s, k);
      }
    }
  }
}

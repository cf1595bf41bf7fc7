/** The introspection recorder of dispatch_sync orders: an incremental cycle check on a graph of queues. */
module LockOrder {
  import opened Runs

  datatype Queue = Root | Lane(id: nat, target: Queue)

  /** `base` is `dq` or one of the queues it targets, directly or through others. */
  predicate OnChain(dq: Queue, base: Queue) { dq == base || (dq.Lane? && OnChain(dq.target, base)) }

  predicate IsBase(q: Queue) { q.Lane? && q.target.Root? }

  lemma {:induction false} ChainTrans(a: Queue, b: Queue, c: Queue)
    requires OnChain(a, b) && OnChain(b, c)
    ensures OnChain(a, c)
  {
    if a != b {
      ChainTrans(a.target, b, c);
    }
  }

  /** The queue of a chain that targets a root queue directly. */
  method BottomTarget(dq: Queue) returns (base: Queue)
    requires dq.Lane?
    ensures OnChain(dq, base) && IsBase(base)
    ensures base == Base(dq)
  {
    base := dq;
    while base.target.Lane?
      invariant base.Lane? && OnChain(dq, base)
      decreases base
    {
      ChainTrans(dq, base, base.target);
      base := base.target;
    }
    BaseUnique(dq, base);
  }

  function Base(dq: Queue): Queue
    requires dq.Lane?
  {
    if dq.target.Lane? then Base(dq.target) else dq
  }

  lemma {:induction false} BaseUnique(dq: Queue, base: Queue)
    requires OnChain(dq, base) && IsBase(base)
    ensures dq.Lane? && base == Base(dq)
  {
    if dq != base {
      BaseUnique(dq.target, base);
    }
  }

  /** For each base queue, the base queues from which someone has called dispatch_sync onto it, latest first. */
  type Graph = map<Queue, seq<Queue>>

  function Next(g: Graph, q: Queue): seq<Queue> { if q in g then g[q] else [] }

  /** `b` can be reached from `a` in exactly `k` recorded steps. */
  ghost predicate ReachesIn(g: Graph, a: Queue, b: Queue, k: nat)
    decreases k
  {
    if k == 0 then a == b else exists n :: n in Next(g, a) && ReachesIn(g, n, b, k - 1)
  }

  ghost predicate Reaches(g: Graph, a: Queue, b: Queue) { exists k :: k > 0 && ReachesIn(g, a, b, k) }

  ghost predicate Acyclic(g: Graph) { forall q :: !Reaches(g, q, q) }

  lemma {:induction false} ReachesJoin(g: Graph, a: Queue, b: Queue, c: Queue, k: nat, m: nat)
    requires ReachesIn(g, a, b, k) && ReachesIn(g, b, c, m)
    ensures ReachesIn(g, a, c, k + m)
    decreases k
  {
    if k > 0 {
      var n :| n in Next(g, a) && ReachesIn(g, n, b, k - 1);
      ReachesJoin(g, n, b, c, k - 1, m);
    }
  }

  lemma ReachesTrans(g: Graph, a: Queue, b: Queue, c: Queue)
    requires Reaches(g, a, b) && Reaches(g, b, c)
    ensures Reaches(g, a, c)
  {
    var k :| k > 0 && ReachesIn(g, a, b, k);
    var m :| m > 0 && ReachesIn(g, b, c, m);
    ReachesJoin(g, a, b, c, k, m);
  }

  lemma OneStep(g: Graph, a: Queue, n: Queue)
    requires n in Next(g, a)
    ensures Reaches(g, a, n)
  {
    assert ReachesIn(g, n, n, 0);
    assert ReachesIn(g, a, n, 1);
  }

  /** The first step of a way from `a` to `b`. */
  lemma FirstStep(g: Graph, a: Queue, b: Queue) returns (n: Queue)
    requires Reaches(g, a, b)
    ensures n in Next(g, a) && (n == b || Reaches(g, n, b))
  {
    var k :| k > 0 && ReachesIn(g, a, b, k);
    n :| n in Next(g, a) && ReachesIn(g, n, b, k - 1);
  }

  ghost predicate Closed(g: Graph, nodes: set<Queue>) {
    g.Keys <= nodes && forall q, n :: q in g && n in g[q] ==> n in nodes
  }

  lemma ClosedMore(g: Graph, nodes: set<Queue>, q: Queue)
    requires Closed(g, nodes)
    ensures Closed(g, nodes + {q})
  {
  }

  // The check. It keeps the order lock of every queue that its recursion is inside of.

  datatype Verdict = Found | Clear | Relocked

  /** A way is a choice of list entries. Following `way` from `q`, with the locks `locked` held, ends the check with
      `verdict`: its last entry is `top`, or it comes to a queue that is locked already. */
  ghost predicate Ends(g: Graph, top: Queue, locked: set<Queue>, q: Queue, way: seq<nat>, verdict: Verdict)
    decreases |way|
  {
    if q in locked then way == [] && verdict == Relocked
    else
      && way != [] && way[0] < |Next(g, q)|
      && var n := Next(g, q)[way[0]];
         if n == top then |way| == 1 && verdict == Found else Ends(g, top, locked + {q}, n, way[1..], verdict)
  }

  /** The order in which a search of the lists comes to ways: the first entry in which they differ decides. */
  predicate Before(v: seq<nat>, w: seq<nat>)
    decreases |v|
  {
    v != [] && w != [] && (v[0] < w[0] || (v[0] == w[0] && Before(v[1..], w[1..])))
  }

  /** The verdict is that of the first way that ends the check, and Clear if there is none. */
  ghost predicate Decides(g: Graph, top: Queue, locked: set<Queue>, q: Queue, verdict: Verdict) {
    if verdict == Clear then NoEnd(g, top, locked, q) else exists w :: FirstEnd(g, top, locked, q, w, verdict)
  }

  ghost predicate NoEnd(g: Graph, top: Queue, locked: set<Queue>, q: Queue) {
    forall w, v :: !Ends(g, top, locked, q, w, v)
  }

  ghost predicate FirstEnd(g: Graph, top: Queue, locked: set<Queue>, q: Queue, way: seq<nat>, verdict: Verdict) {
    Ends(g, top, locked, q, way, verdict) && forall w, v :: Ends(g, top, locked, q, w, v) ==> !Before(w, way)
  }

  /** _dispatch_introspection_order_check, on any graph. Locking a queue that is locked already is a crash. */
  method Check(g: Graph, top: Queue, q: Queue, locked: set<Queue>, ghost nodes: set<Queue>) returns (verdict: Verdict)
    requires Closed(g, nodes) && q in nodes && locked <= nodes
    ensures Decides(g, top, locked, q, verdict)
    decreases |nodes - locked|
  {
    if q in locked {
      assert FirstEnd(g, top, locked, q, [], Relocked);
      return Relocked;
    }
    var list := Next(g, q);
    assert nodes - (locked + {q}) == nodes - locked - {q};
    for i := 0 to |list|
      invariant Passed(g, top, locked, q, i)
    {
      if list[i] == top {
        FoundAt(g, top, locked, q, i);
        return Found;
      }
      verdict := Check(g, top, list[i], locked + {q}, nodes);
      if verdict != Clear {
        EndedAt(g, top, locked, q, i, verdict);
        return;
      }
      PassedOne(g, top, locked, q, i);
    }
    return Clear;
  }

  /** No way through the entries before `i` ends the check. */
  ghost predicate Passed(g: Graph, top: Queue, locked: set<Queue>, q: Queue, i: nat) {
    forall w, v :: Ends(g, top, locked, q, w, v) ==> w != [] && i <= w[0] < |Next(g, q)|
  }

  lemma FoundAt(g: Graph, top: Queue, locked: set<Queue>, q: Queue, i: nat)
    requires q !in locked && i < |Next(g, q)| && Next(g, q)[i] == top && Passed(g, top, locked, q, i)
    ensures Decides(g, top, locked, q, Found)
  {
    assert FirstEnd(g, top, locked, q, [i], Found);
  }

  lemma EndedAt(g: Graph, top: Queue, locked: set<Queue>, q: Queue, i: nat, verdict: Verdict)
    requires q !in locked && i < |Next(g, q)| && Next(g, q)[i] != top && Passed(g, top, locked, q, i)
    requires verdict != Clear && Decides(g, top, locked + {q}, Next(g, q)[i], verdict)
    ensures Decides(g, top, locked, q, verdict)
  {
    var n := Next(g, q)[i];
    var rest :| FirstEnd(g, top, locked + {q}, n, rest, verdict);
    var way := [i] + rest;
    assert way[1..] == rest;
    forall w, v | Ends(g, top, locked, q, w, v) ensures !Before(w, way) {
      if w[0] == i {
        assert Ends(g, top, locked + {q}, n, w[1..], v);
      }
    }
    assert FirstEnd(g, top, locked, q, way, verdict);
  }

  lemma PassedOne(g: Graph, top: Queue, locked: set<Queue>, q: Queue, i: nat)
    requires q !in locked && i < |Next(g, q)| && Next(g, q)[i] != top && Passed(g, top, locked, q, i)
    requires NoEnd(g, top, locked + {q}, Next(g, q)[i])
    ensures Passed(g, top, locked, q, i + 1)
  {
    forall w, v | Ends(g, top, locked, q, w, v) ensures w != [] && i + 1 <= w[0] < |Next(g, q)| {
      assert !Ends(g, top, locked + {q}, Next(g, q)[i], w[1..], v);
    }
  }

  /** Two ways that end the check are the same way, or one comes before the other. */
  lemma {:induction false} WaysDiffer(g: Graph, top: Queue, locked: set<Queue>, q: Queue, v: seq<nat>, a: Verdict, w: seq<nat>, b: Verdict)
    requires Ends(g, top, locked, q, v, a) && Ends(g, top, locked, q, w, b)
    ensures (v == w && a == b) || Before(v, w) || Before(w, v)
    decreases |v|
  {
    if q !in locked && v[0] == w[0] {
      var n := Next(g, q)[v[0]];
      if n == top {
        assert v == [v[0]] && w == [w[0]];
      } else {
        WaysDiffer(g, top, locked + {q}, n, v[1..], a, w[1..], b);
        assert v == [v[0]] + v[1..] && w == [w[0]] + w[1..];
      }
    }
  }

  /** There is exactly one verdict. */
  lemma VerdictUnique(g: Graph, top: Queue, locked: set<Queue>, q: Queue, a: Verdict, b: Verdict)
    requires Decides(g, top, locked, q, a) && Decides(g, top, locked, q, b)
    ensures a == b
  {
    if a != Clear && b != Clear {
      var v :| FirstEnd(g, top, locked, q, v, a);
      var w :| FirstEnd(g, top, locked, q, w, b);
      WaysDiffer(g, top, locked, q, v, a, w, b);
    }
  }

  // What the verdict says about the graph.

  /** Some queue at or below `q` can be reached from itself. */
  ghost predicate CycleFrom(g: Graph, q: Queue) { exists c :: (c == q || Reaches(g, q, c)) && Reaches(g, c, c) }

  lemma {:induction false} EndReaches(g: Graph, top: Queue, locked: set<Queue>, q: Queue, way: seq<nat>)
    requires Ends(g, top, locked, q, way, Found)
    ensures Reaches(g, q, top)
    decreases |way|
  {
    var n := Next(g, q)[way[0]];
    OneStep(g, q, n);
    if n != top {
      EndReaches(g, top, locked + {q}, n, way[1..]);
      ReachesTrans(g, q, n, top);
    }
  }

  lemma {:induction false} EndRelocks(g: Graph, top: Queue, locked: set<Queue>, q: Queue, way: seq<nat>) returns (c: Queue)
    requires Ends(g, top, locked, q, way, Relocked)
    ensures (c == q || Reaches(g, q, c)) && (c in locked || Reaches(g, c, c))
    decreases |way|
  {
    c := q;
    if q !in locked {
      var n := Next(g, q)[way[0]];
      c := EndRelocks(g, top, locked + {q}, n, way[1..]);
      OneStep(g, q, n);
      if c != n {
        ReachesTrans(g, q, n, c);
      }
    }
  }

  /** A check that nothing ends goes on everywhere. */
  lemma NoEndBelow(g: Graph, top: Queue, locked: set<Queue>, q: Queue, n: Queue)
    requires NoEnd(g, top, locked, q) && n in Next(g, q)
    ensures n != top && NoEnd(g, top, locked + {q}, n)
  {
    var i :| 0 <= i < |Next(g, q)| && Next(g, q)[i] == n;
    assert !Ends(g, top, locked, q, [], Relocked);
    assert !Ends(g, top, locked, q, [i], Found);
    forall w, v ensures !Ends(g, top, locked + {q}, n, w, v) {
      assert ([i] + w)[1..] == w;
      assert !Ends(g, top, locked, q, [i] + w, v);
    }
  }

  lemma {:induction false} NoEndAvoids(g: Graph, top: Queue, locked: set<Queue>, q: Queue, x: Queue, k: nat)
    requires NoEnd(g, top, locked, q) && (x in locked || (x == top && k > 0))
    ensures !ReachesIn(g, q, x, k)
    decreases k
  {
    assert !Ends(g, top, locked, q, [], Relocked);
    if k > 0 {
      forall n | n in Next(g, q) ensures !ReachesIn(g, n, x, k - 1) {
        NoEndBelow(g, top, locked, q, n);
        if x in locked || k > 1 {
          NoEndAvoids(g, top, locked + {q}, n, x, k - 1);
        }
      }
    }
  }

  lemma {:induction false} NoEndAcyclic(g: Graph, top: Queue, locked: set<Queue>, q: Queue, c: Queue, j: nat, k: nat)
    requires NoEnd(g, top, locked, q) && ReachesIn(g, q, c, j) && k > 0
    ensures !ReachesIn(g, c, c, k)
    decreases j
  {
    if j == 0 {
      forall n | n in Next(g, q) ensures !ReachesIn(g, n, q, k - 1) {
        NoEndBelow(g, top, locked, q, n);
        NoEndAvoids(g, top, locked + {q}, n, q, k - 1);
      }
    } else {
      var n :| n in Next(g, q) && ReachesIn(g, n, c, j - 1);
      NoEndBelow(g, top, locked, q, n);
      NoEndAcyclic(g, top, locked + {q}, n, c, j - 1, k);
    }
  }

  /** Nothing ends the check exactly when `top` cannot be reached and there is no cycle to run into. */
  lemma NothingEnds(g: Graph, top: Queue, q: Queue)
    ensures NoEnd(g, top, {}, q) <==> !Reaches(g, q, top) && !CycleFrom(g, q)
  {
    if NoEnd(g, top, {}, q) {
      forall k: nat | k > 0 ensures !ReachesIn(g, q, top, k) {
        NoEndAvoids(g, top, {}, q, top, k);
      }
      forall c | c == q || Reaches(g, q, c) ensures !Reaches(g, c, c) {
        assert ReachesIn(g, q, q, 0);
        var j: nat :| ReachesIn(g, q, c, j);
        forall k: nat | k > 0 ensures !ReachesIn(g, c, c, k) {
          NoEndAcyclic(g, top, {}, q, c, j, k);
        }
      }
    } else {
      var w, v :| Ends(g, top, {}, q, w, v);
      EndMeans(g, top, q, w, v);
    }
  }

  lemma EndMeans(g: Graph, top: Queue, q: Queue, w: seq<nat>, v: Verdict)
    requires Ends(g, top, {}, q, w, v)
    ensures v != Clear && (v == Found ==> Reaches(g, q, top)) && (v == Relocked ==> CycleFrom(g, q))
  {
    EndVerdict(g, top, {}, q, w, v);
    if v == Found {
      EndReaches(g, top, {}, q, w);
    } else {
      var c := EndRelocks(g, top, {}, q, w);
    }
  }

  lemma {:induction false} EndVerdict(g: Graph, top: Queue, locked: set<Queue>, q: Queue, w: seq<nat>, v: Verdict)
    requires Ends(g, top, locked, q, w, v)
    ensures v != Clear
    decreases |w|
  {
    if q !in locked && Next(g, q)[w[0]] != top {
      EndVerdict(g, top, locked + {q}, Next(g, q)[w[0]], w[1..], v);
    }
  }

  /** The verdict of a check in terms of the graph. Only when there is both an inversion and a cycle does the order of
      the lists matter, and then the first way that ends the check decides. */
  lemma VerdictMeans(g: Graph, top: Queue, q: Queue, v: Verdict)
    requires Decides(g, top, {}, q, v)
    ensures v == Clear <==> !Reaches(g, q, top) && !CycleFrom(g, q)
    ensures !CycleFrom(g, q) ==> (v == Found <==> Reaches(g, q, top))
    ensures !Reaches(g, q, top) ==> (v == Relocked <==> CycleFrom(g, q))
    ensures v == Found ==> Reaches(g, q, top)
    ensures v == Relocked ==> CycleFrom(g, q)
  {
    NothingEnds(g, top, q);
    if v != Clear {
      var w :| FirstEnd(g, top, {}, q, w, v);
      EndMeans(g, top, q, w, v);
    }
  }

  function Insert(g: Graph, top: Queue, bottom: Queue): Graph { g[top := [bottom] + Next(g, top)] }

  lemma InsertNext(g: Graph, top: Queue, bottom: Queue, a: Queue, n: Queue)
    ensures n in Next(Insert(g, top, bottom), a) <==> n in Next(g, a) || (a == top && n == bottom)
  {
  }

  lemma InsertClosed(g: Graph, nodes: set<Queue>, top: Queue, bottom: Queue)
    requires Closed(g, nodes)
    ensures Closed(Insert(g, top, bottom), nodes + {bottom} + {top})
  {
    var h := Insert(g, top, bottom);
    forall a, n | a in h && n in h[a] ensures n in nodes + {bottom} + {top} {
      InsertNext(g, top, bottom, a, n);
    }
  }

  lemma {:induction false} InsertKeeps(g: Graph, top: Queue, bottom: Queue, a: Queue, b: Queue, k: nat)
    requires ReachesIn(g, a, b, k)
    ensures ReachesIn(Insert(g, top, bottom), a, b, k)
    decreases k
  {
    if k > 0 {
      var n :| n in Next(g, a) && ReachesIn(g, n, b, k - 1);
      InsertKeeps(g, top, bottom, n, b, k - 1);
      InsertNext(g, top, bottom, a, n);
    }
  }

  /** A way in the extended graph is an old way, or goes through the new edge. */
  lemma {:induction false} InsertWays(g: Graph, top: Queue, bottom: Queue, a: Queue, b: Queue, k: nat)
    requires k > 0 && ReachesIn(Insert(g, top, bottom), a, b, k)
    ensures Reaches(g, a, b) || ((a == top || Reaches(g, a, top)) && (b == bottom || Reaches(g, bottom, b)))
    decreases k
  {
    var n :| n in Next(Insert(g, top, bottom), a) && ReachesIn(Insert(g, top, bottom), n, b, k - 1);
    InsertNext(g, top, bottom, a, n);
    if k > 1 {
      InsertWays(g, top, bottom, n, b, k - 1);
    }
    if n in Next(g, a) {
      OneStep(g, a, n);
      if Reaches(g, n, b) {
        ReachesTrans(g, a, n, b);
      }
      if Reaches(g, n, top) {
        ReachesTrans(g, a, n, top);
      }
    }
  }

  /** Recording an order closes a cycle exactly when it goes between the same base queue, or when the check that
      _dispatch_introspection_order_check makes finds the opposite order. */
  lemma InsertAcyclic(g: Graph, top: Queue, bottom: Queue)
    requires Acyclic(g)
    ensures Acyclic(Insert(g, top, bottom)) <==> top != bottom && !Reaches(g, bottom, top)
  {
    var h := Insert(g, top, bottom);
    InsertNext(g, top, bottom, top, bottom);
    OneStep(h, top, bottom);
    if Reaches(g, bottom, top) {
      var k :| k > 0 && ReachesIn(g, bottom, top, k);
      InsertKeeps(g, top, bottom, bottom, top, k);
      assert Reaches(h, bottom, top);
      ReachesTrans(h, top, bottom, top);
    }
    forall q | Reaches(h, q, q) ensures top == bottom || Reaches(g, bottom, top) {
      var k :| k > 0 && ReachesIn(h, q, q, k);
      InsertWays(g, top, bottom, q, q, k);
      if bottom != q && q != top {
        ReachesTrans(g, bottom, q, top);
      }
    }
  }

  datatype Outcome = Ignored | Known | Inversion | Crash | Recorded

  datatype Call = Call(bottom: Option<Queue>, top: Queue)

  /** Root queues are not recorded, and neither is a sync from outside of any queue. */
  predicate Counts(c: Call) { c.bottom.Some? && c.bottom.value.Lane? && c.top.Lane? }

  /** Both queues of the call have the same base queue. */
  predicate SameBase(c: Call)
    requires Counts(c)
  {
    Base(c.bottom.value) == Base(c.top)
  }

  /** What one call does. A known order changes nothing. A new one is checked from the bottom base queue: it is
      recorded when the check is clear, and otherwise the call does not return. */
  ghost predicate Recording(before: Graph, after: Graph, c: Call, outcome: Outcome) {
    if !Counts(c) then outcome == Ignored && after == before
    else
      var b, t := Base(c.bottom.value), Base(c.top);
      if b in Next(before, t) then outcome == Known && after == before
      else
        match outcome
        case Recorded => Decides(before, t, {}, b, Clear) && after == Insert(before, t, b)
        case Inversion => Decides(before, t, {}, b, Found) && after == before
        case Crash => Decides(before, t, {}, b, Relocked) && after == before
        case _ => false
  }

  class Recorder {
    var graph: Graph
    ghost var nodes: set<Queue>

    ghost predicate Valid() reads this { Closed(graph, nodes) }

    constructor ()
      ensures Valid() && graph == map[]
    {
      graph, nodes := map[], {};
    }

    /** _dispatch_introspection_order_record: `c.bottom` is the current queue, if any, that syncs onto `c.top`. */
    method Record(c: Call) returns (outcome: Outcome)
      requires Valid()
      modifies this
      ensures Valid() && Recording(old(graph), graph, c, outcome)
    {
      if c.bottom.None? || c.bottom.value.Root? || c.top.Root? {
        return Ignored;
      }
      var t := BottomTarget(c.top);
      var b := BottomTarget(c.bottom.value);
      var list := Next(graph, t);
      for i := 0 to |list|
        invariant b !in list[..i]
      {
        if list[i] == b {
          return Known;
        }
      }
      assert list[..|list|] == list;
      ClosedMore(graph, nodes, b);
      var verdict := Check(graph, t, b, {}, nodes + {b});
      match verdict
      case Found => return Inversion;
      case Relocked => return Crash;
      case Clear =>
        InsertClosed(graph, nodes, t, b);
        graph, nodes := Insert(graph, t, b), nodes + {b} + {t};
        return Recorded;
    }
  }

  // Sequences of calls.

  /** The graphs before and after each of a sequence of calls. */
  ghost predicate Records(graphs: seq<Graph>, calls: seq<Call>, outcomes: seq<Outcome>) {
    && |graphs| == |calls| + 1 && |outcomes| == |calls| && graphs[0] == map[]
    && forall i :: 0 <= i < |calls| ==> Recording(graphs[i], graphs[i + 1], calls[i], outcomes[i])
  }

  /** An order of a base queue with itself has been recorded. */
  predicate SelfOrder(c: Call, outcome: Outcome) { outcome == Recorded && Counts(c) && SameBase(c) }

  lemma EmptyAcyclic()
    ensures Acyclic(map[])
  {
    forall q, k: nat | k > 0 ensures !ReachesIn(map[], q, q, k) {
    }
  }

  lemma AcyclicFrom(g: Graph, q: Queue)
    requires Acyclic(g)
    ensures !CycleFrom(g, q)
  {
  }

  lemma CyclicStays(g: Graph, top: Queue, bottom: Queue)
    requires !Acyclic(g)
    ensures !Acyclic(Insert(g, top, bottom))
  {
    var q :| Reaches(g, q, q);
    var k :| k > 0 && ReachesIn(g, q, q, k);
    InsertKeeps(g, top, bottom, q, q, k);
    assert Reaches(Insert(g, top, bottom), q, q);
  }

  lemma OneCall(before: Graph, after: Graph, c: Call, outcome: Outcome)
    requires Recording(before, after, c, outcome)
    ensures Acyclic(after) <==> Acyclic(before) && !SelfOrder(c, outcome)
  {
    if outcome == Recorded {
      var b, t := Base(c.bottom.value), Base(c.top);
      VerdictMeans(before, t, b, Clear);
      if Acyclic(before) {
        InsertAcyclic(before, t, b);
      } else {
        CyclicStays(before, t, b);
      }
    }
  }

  /** After every sequence of calls the graph is acyclic exactly when no order of a base queue with itself has been
      recorded in it; so it is, whenever the base queues of all calls differ. */
  lemma {:induction false} AcyclicSequences(graphs: seq<Graph>, calls: seq<Call>, outcomes: seq<Outcome>, n: nat)
    requires Records(graphs, calls, outcomes) && n <= |calls|
    ensures Acyclic(graphs[n]) <==> forall i :: 0 <= i < n ==> !SelfOrder(calls[i], outcomes[i])
  {
    if n == 0 {
      EmptyAcyclic();
    } else {
      AcyclicSequences(graphs, calls, outcomes, n - 1);
      OneCall(graphs[n - 1], graphs[n], calls[n - 1], outcomes[n - 1]);
    }
  }

  /** In every sequence of calls between distinct base queues no check crashes, and a new order is reported as an
      inversion exactly when recording it would close a cycle. */
  lemma ExactReports(graphs: seq<Graph>, calls: seq<Call>, outcomes: seq<Outcome>, n: nat)
    requires Records(graphs, calls, outcomes) && n < |calls|
    requires forall i :: 0 <= i <= n && Counts(calls[i]) ==> !SameBase(calls[i])
    ensures Acyclic(graphs[n]) && Acyclic(graphs[n + 1]) && outcomes[n] != Crash
    ensures Counts(calls[n]) ==>
      var b, t := Base(calls[n].bottom.value), Base(calls[n].top);
      && (outcomes[n] == Known <==> b in Next(graphs[n], t))
      && (outcomes[n] == Inversion <==> b !in Next(graphs[n], t) && !Acyclic(Insert(graphs[n], t, b)))
      && (outcomes[n] == Recorded <==> b !in Next(graphs[n], t) && Acyclic(Insert(graphs[n], t, b)))
  {
    AcyclicSequences(graphs, calls, outcomes, n);
    AcyclicSequences(graphs, calls, outcomes, n + 1);
    if Counts(calls[n]) {
      var b, t := Base(calls[n].bottom.value), Base(calls[n].top);
      AcyclicFrom(graphs[n], b);
      InsertAcyclic(graphs[n], t, b);
      if outcomes[n] == Inversion {
        VerdictMeans(graphs[n], t, b, Found);
      } else if outcomes[n] == Crash {
        VerdictMeans(graphs[n], t, b, Relocked);
      } else if outcomes[n] == Recorded {
        VerdictMeans(graphs[n], t, b, Clear);
      }
    }
  }

  // Orders of a base queue with itself.

  /** A queue that is first in its own list is locked again before anything else is looked at. */
  lemma SelfFirst(g: Graph, top: Queue, q: Queue)
    requires Next(g, q) != [] && Next(g, q)[0] == q && q != top
    ensures Decides(g, top, {}, q, Relocked)
  {
    assert [0][1..] == [] && Ends(g, top, {} + {q}, q, [], Relocked);
    assert FirstEnd(g, top, {}, q, [0], Relocked);
  }

  /** Once an order of a base queue with itself has been recorded, the next new order from that queue crashes,
      whether it is an inversion or not. */
  lemma SelfOrderCrashes(before: Graph, graph: Graph, after: Graph, self: Call, c: Call, outcome: Outcome)
    requires Recording(before, graph, self, Recorded) && Counts(self) && SameBase(self)
    requires Recording(graph, after, c, outcome) && Counts(c) && Base(c.bottom.value) == Base(self.top) && !SameBase(c)
    ensures outcome == if Base(c.bottom.value) in Next(graph, Base(c.top)) then Known else Crash
  {
    var b, t := Base(c.bottom.value), Base(c.top);
    SelfFirst(graph, t, b);
    if b !in Next(graph, t) {
      VerdictUnique(graph, t, {}, b, Relocked, match outcome case Recorded => Clear case Inversion => Found case _ => Relocked);
    }
  }

  lemma AcyclicClear(g: Graph, top: Queue, q: Queue, v: Verdict)
    requires Acyclic(g) && !Reaches(g, q, top) && Decides(g, top, {}, q, v)
    ensures v == Clear
  {
    AcyclicFrom(g, q);
    VerdictMeans(g, top, q, v);
  }

  /** Two queues over one base queue: a sync from one to the other is recorded, and then a sync from there to an
      unrelated queue crashes. */
  method SelfOrderCase() returns (first: Outcome, second: Outcome)
    ensures first == Recorded && second == Crash
  {
    var base, other := Lane(0, Root), Lane(3, Root);
    var a, b := Lane(1, base), Lane(2, base);
    var r := new Recorder();
    ghost var g0 := r.graph;
    first := r.Record(Call(Some(a), b));
    ghost var g1 := r.graph;
    FirstCase(g0, g1, Call(Some(a), b), first);
    second := r.Record(Call(Some(a), other));
    SelfOrderCrashes(g0, g1, r.graph, Call(Some(a), b), Call(Some(a), other), second);
  }

  lemma FirstCase(g0: Graph, g1: Graph, c: Call, outcome: Outcome)
    requires g0 == map[] && Recording(g0, g1, c, outcome) && Counts(c)
    ensures outcome == Recorded && g1 == map[Base(c.top) := [Base(c.bottom.value)]]
  {
    EmptyAcyclic();
    var b, t := Base(c.bottom.value), Base(c.top);
    if Reaches(g0, b, t) {
      var n := FirstStep(g0, b, t);
    }
    assert [b] + Next(g0, t) == [b];
    AcyclicClear(g0, t, b, match outcome case Recorded => Clear case Inversion => Found case _ => Relocked);
  }

  /** The crash hides an inversion: `other` has synced onto the base queue, so a sync back is one. */
  method HiddenInversion() returns (r: Recorder, outcomes: seq<Outcome>)
    ensures outcomes == [Recorded, Recorded, Crash] && Reaches(r.graph, Lane(0, Root), Lane(3, Root))
  {
    var base, other := Lane(0, Root), Lane(3, Root);
    var a, b := Lane(1, base), Lane(2, base);
    r := new Recorder();
    ghost var g0 := r.graph;
    var first := r.Record(Call(Some(other), base));
    ghost var g1 := r.graph;
    FirstCase(g0, g1, Call(Some(other), base), first);
    var second := r.Record(Call(Some(a), b));
    ghost var g2 := r.graph;
    SecondCase(g1, g2, base, other, Call(Some(a), b), second);
    var third := r.Record(Call(Some(a), other));
    SelfOrderCrashes(g1, g2, r.graph, Call(Some(a), b), Call(Some(a), other), third);
    OneStep(g2, base, other);
    outcomes := [first, second, third];
  }

  lemma SecondCase(g1: Graph, g2: Graph, base: Queue, other: Queue, c: Call, outcome: Outcome)
    requires g1 == map[base := [other]] && base != other && Recording(g1, g2, c, outcome)
    requires Counts(c) && Base(c.bottom.value) == Base(c.top) == base
    ensures outcome == Recorded && g2 == map[base := [base, other]]
  {
    EmptyAcyclic();
    if Reaches(map[], other, base) {
      var n := FirstStep(map[], other, base);
    }
    InsertAcyclic(map[], base, other);
    assert [other] + Next(map[], base) == [other] && [base] + [other] == [base, other];
    assert Insert(map[], base, other) == g1;
    AcyclicClear(g1, base, base, match outcome case Recorded => Clear case Inversion => Found case _ => Relocked);
  }
}

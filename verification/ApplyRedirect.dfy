/** _dispatch_apply_redirect: reserving width for a parallel apply on every queue of a chain of target queues. */
module ApplyRedirect {
  import opened Runs
  import opened QueueState

  /** `x` is the least of `n` and the numbers in `xs`. */
  ghost predicate IsLeast(x: int, n: int, xs: seq<nat>) {
    && x <= n && (forall i :: 0 <= i < |xs| ==> x <= xs[i])
    && (x == n || exists i :: 0 <= i < |xs| && x == xs[i])
  }

  lemma LeastOfMore(x: int, n: int, xs: seq<nat>, y: nat)
    requires IsLeast(x, n, xs)
    ensures IsLeast(if x <= y then x else y, n, xs + [y])
  {
    var more := xs + [y];
    if y < x {
      assert more[|xs|] == y;
    } else if x != n {
      var i :| 0 <= i < |xs| && x == xs[i];
      assert more[i] == x;
    }
  }

  /** The chain from the queue that dispatch_apply was called on to the last queue above the root queue. */
  class Chain {
    const widths: seq<nat>
    /** The state words of the queues. Other threads change them too. */
    var words: seq<DqState>
    /** The units that this apply has reserved on each queue and not given back: what it added, less what it subtracted.
        Only the steps of other threads look at it, to leave these units alone. */
    var mine: seq<nat>
    /** The units reserved on each queue when the apply ran in parallel. */
    ghost var ran: seq<nat>
    /** What each queue could give when it was asked, from the first queue on. */
    ghost var offers: seq<nat>

    ghost predicate Valid() reads this {
      && |widths| == |words| == |mine|
      && forall i :: 0 <= i < |mine| ==> words[i].width >= mine[i]
    }

    ghost predicate Reserved(upto: nat, units: nat) reads this {
      && upto <= |mine|
      && forall i :: 0 <= i < |mine| ==> mine[i] == if i < upto then units else 0
    }

    constructor (widths: seq<nat>, words: seq<DqState>)
      requires |widths| == |words|
      ensures Valid() && Reserved(0, 0) && this.widths == widths && this.words == words
    {
      this.widths, this.words := widths, words;
      this.mine := seq(|words|, _ => 0);
      this.ran, this.offers := [], [];
    }

    /** Any steps of other threads. They change the words as they like, but the units reserved here are not theirs. */
    method Others()
      requires Valid()
      modifies this`words
      ensures Valid()
    {
      var next: seq<DqState> :| |next| == |words| && forall i :: 0 <= i < |next| ==> next[i].width >= mine[i];
      words := next;
    }

    /** A serial queue gives nothing, any other queue what is available. */
    function Offer(i: nat): nat
      requires i < |words| == |widths|
      reads this
    {
      if widths[i] == 1 then 0 else AvailableWidth(words[i])
    }

    /** _dispatch_queue_try_reserve_apply_width on queue `i`: takes what is available, up to `n`, and no more. */
    method TryReserve(i: nat, n: nat) returns (k: nat)
      requires Valid() && i < |words|
      modifies this`words, this`mine, this`offers
      ensures offers == old(offers) + [old(Offer(i))]
      ensures Valid()
      ensures k <= n && k <= AvailableWidth(old(words[i]))
      ensures if widths[i] == 1 then k == 0 else k == n || k == AvailableWidth(old(words[i]))
      ensures words == old(words)[i := old(words[i]).(width := old(words[i]).width + k)]
      ensures mine == old(mine)[i := old(mine[i]) + k]
    {
      offers := offers + [Offer(i)];
      var r := TryReserveApply(words[i], widths[i], n);
      k := r.1;
      words := words[i := r.0];
      mine := mine[i := mine[i] + k];
    }

    /** The subtraction on one queue. It takes nothing but width, and never borrows from the other fields of the word. */
    method Subtract(i: nat, n: nat)
      requires Valid() && i < |words| && n <= mine[i]
      modifies this`words, this`mine
      ensures Valid() && n <= old(words[i]).width
      ensures words == old(words)[i := old(words[i]).(width := old(words[i]).width - n)]
      ensures mine == old(mine)[i := old(mine[i]) - n]
    {
      words := words[i := words[i].(width := words[i].width - n)];
      mine := mine[i := mine[i] - n];
    }

    /** _dispatch_queue_relinquish_width: gives `n` units back on every queue before `stop`, once on each. */
    method Relinquish(stop: nat, n: nat)
      requires Valid() && stop <= |mine| && forall i :: 0 <= i < stop ==> mine[i] >= n
      modifies this`words, this`mine
      ensures Valid() && |mine| == old(|mine|)
      ensures forall i :: 0 <= i < |mine| ==> mine[i] == if i < stop then old(mine[i]) - n else old(mine[i])
    {
      for i := 0 to stop
        invariant Valid() && |mine| == old(|mine|)
        invariant forall k :: 0 <= k < |mine| ==> mine[k] == if k < i then old(mine[k]) - n else old(mine[k])
      {
        Others();
        Subtract(i, n);
      }
    }

    /** _dispatch_apply_f, while which others take any steps. */
    method RunParallel()
      requires Valid()
      modifies this`words, this`ran
      ensures Valid() && ran == mine
    {
      ran := mine;
      Others();
    }

    /** The whole call. The result is the number of threads that ran, or None when the apply was done serially, which is
        when some queue had nothing to give when it was asked. Otherwise the threads are one more than the least that
        was wanted or that a queue had to give. While they run, exactly one unit less than the threads is reserved on
        every queue; afterwards nothing is, on any queue, in both cases. */
    method Redirect(thrCnt: nat) returns (threads: Option<nat>)
      requires Valid() && Reserved(0, 0) && 0 < |widths| && thrCnt >= 2
      modifies this`words, this`mine, this`ran, this`offers
      ensures Valid() && Reserved(0, 0)
      ensures threads.None? <==> 0 in offers
      ensures threads.Some? ==> |offers| == |widths| && IsLeast(threads.value - 1, thrCnt - 1, offers)
      ensures threads.Some? ==> 2 <= threads.value <= thrCnt
      ensures threads.Some? ==> |ran| == |widths| && forall i :: 0 <= i < |ran| ==> ran[i] == threads.value - 1
      ensures (exists i :: 0 <= i < |widths| && widths[i] == 1) ==> threads.None?
    {
      offers := [];
      var daWidth, left, dq := thrCnt - 1, thrCnt, 0;
      while dq < |widths|
        invariant dq <= |widths| && 1 <= daWidth < thrCnt && left == daWidth + 1
        invariant Valid() && Reserved(dq, daWidth)
        invariant forall i :: 0 <= i < dq ==> widths[i] != 1
        invariant |offers| == dq && IsLeast(daWidth, thrCnt - 1, offers)
      {
        Others();
        LeastOfMore(daWidth, thrCnt - 1, offers, Offer(dq));
        var width := TryReserve(dq, daWidth);
        if daWidth > width {
          var excess := daWidth - width;
          Relinquish(dq, excess);
          daWidth := width;
          if daWidth == 0 {
            return None;
          }
          left := left - excess;
        }
        dq := dq + 1;
      }
      RunParallel();
      Relinquish(|widths|, daWidth);
      threads := Some(left);
    }
  }
}

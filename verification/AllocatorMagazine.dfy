/** Allocation from one magazine and freeing, in sequential runs: bitmaps of continuations and supermaps of full bitmaps. */
module AllocatorMagazine {
  import opened Runs

  type Bits = seq<bool>

  predicate Full(bits: Bits) { forall i :: 0 <= i < |bits| ==> bits[i] }

  /** The lowest bit that is not set: what os_atomic_set_first_bit sets. */
  function FirstUnset(bits: Bits): (r: Option<nat>)
    ensures r.None? <==> Full(bits)
    ensures r.Some? ==> r.value < |bits| && !bits[r.value] && forall j :: 0 <= j < r.value ==> bits[j]
  {
    if bits == [] then None
    else if !bits[0] then Some(0)
    else
      match FirstUnset(bits[1..])
      case None => None
      case Some(k) => Some(k + 1)
  }

  datatype Slot = Slot(s: nat, b: nat, i: nat)

  predicate IsSlot(maps: seq<seq<Bits>>, c: Slot) {
    c.s < |maps| && c.b < |maps[c.s]| && c.i < |maps[c.s][c.b]|
  }

  predicate Used(maps: seq<seq<Bits>>, c: Slot)
    requires IsSlot(maps, c)
  {
    maps[c.s][c.b][c.i]
  }

  function With(maps: seq<seq<Bits>>, c: Slot, used: bool): seq<seq<Bits>>
    requires IsSlot(maps, c)
  {
    maps[c.s := maps[c.s][c.b := maps[c.s][c.b][c.i := used]]]
  }

  /** The order in which a search passes the slots. */
  predicate Earlier(a: Slot, c: Slot) { a.s < c.s || (a.s == c.s && (a.b < c.b || (a.b == c.b && a.i < c.i))) }

  ghost predicate NoneFree(maps: seq<seq<Bits>>) { forall c :: IsSlot(maps, c) ==> Used(maps, c) }

  /** The slots of a supermap from bitmap `first` on, up to `c`, are used. */
  ghost predicate FirstFrom(maps: seq<seq<Bits>>, s: nat, first: nat, c: Slot) {
    forall d :: IsSlot(maps, d) && d.s == s && first <= d.b && Earlier(d, c) ==> Used(maps, d)
  }

  ghost predicate FirstOf(maps: seq<seq<Bits>>, c: Slot) {
    forall d :: IsSlot(maps, d) && Earlier(d, c) ==> Used(maps, d)
  }

  ghost predicate PageFull(maps: seq<seq<Bits>>, s: nat, first: nat, perPage: nat) {
    s < |maps| && first + perPage <= |maps[s]| && forall b :: first <= b < first + perPage ==> Full(maps[s][b])
  }

  /** Only the given slot changes. */
  lemma WithIs(maps: seq<seq<Bits>>, c: Slot, used: bool, d: Slot)
    requires IsSlot(maps, c)
    ensures IsSlot(With(maps, c, used), d) <==> IsSlot(maps, d)
    ensures IsSlot(maps, d) ==> Used(With(maps, c, used), d) == if d == c then used else Used(maps, d)
  {
  }

  ghost predicate Shape(maps: seq<seq<Bits>>, supermaps: seq<Bits>, n: nat) {
    && |maps| == |supermaps|
    && (forall s :: 0 <= s < |maps| ==> |maps[s]| == n && |supermaps[s]| == n)
    && (forall s, b :: 0 <= s < |maps| && 0 <= b < n ==> |maps[s][b]| == n)
  }

  /** A bit of a supermap is set exactly when its bitmap is full. */
  ghost predicate Marked(maps: seq<seq<Bits>>, supermaps: seq<Bits>, n: nat)
    requires Shape(maps, supermaps, n)
  {
    forall s, b :: 0 <= s < |maps| && 0 <= b < n ==> (supermaps[s][b] <==> Full(maps[s][b]))
  }

  class Magazine {
    const n: nat                    // bits of a bitmap, and bitmaps of a supermap
    var maps: seq<seq<Bits>>
    var supermaps: seq<Bits>

    ghost predicate Valid() reads this { Shape(maps, supermaps, n) && Marked(maps, supermaps, n) }

    constructor (supermapCount: nat, bits: nat)
      requires 0 < bits
      ensures Valid() && n == bits && |maps| == supermapCount
      ensures forall c :: IsSlot(maps, c) ==> !Used(maps, c)
    {
      this.n := bits;
      this.maps := seq(supermapCount, _ => seq(bits, _ => seq(bits, _ => false)));
      this.supermaps := seq(supermapCount, _ => seq(bits, _ => false));
      new;
      forall s, b | 0 <= s < |maps| && 0 <= b < n ensures !supermaps[s][b] && !Full(maps[s][b]) {
        assert !maps[s][b][0];
      }
    }

    /** bitmap_set_first_unset_bit, and with a bit set, mark_bitmap_as_full_if_still_full. */
    method Take(s: nat, b: nat) returns (i: Option<nat>)
      requires Valid() && s < |maps| && b < n
      modifies this`maps, this`supermaps
      ensures Valid()
      ensures i == FirstUnset(old(maps[s][b]))
      ensures maps == if i.None? then old(maps) else With(old(maps), Slot(s, b, i.value), true)
    {
      i := FirstUnset(maps[s][b]);
      if i.Some? {
        maps := With(maps, Slot(s, b, i.value), true);
        if Full(maps[s][b]) {
          supermaps := supermaps[s := supermaps[s][b := true]];
        }
      }
    }

    /** alloc_continuation_from_magazine: the first free slot, or none exactly when there is none. */
    method AllocFromMagazine() returns (c: Option<Slot>)
      requires Valid()
      modifies this`maps, this`supermaps
      ensures Valid()
      ensures c.None? <==> NoneFree(old(maps))
      ensures c.None? ==> maps == old(maps)
      ensures c.Some? ==>
        && IsSlot(old(maps), c.value) && !Used(old(maps), c.value) && maps == With(old(maps), c.value, true)
        && forall d :: IsSlot(old(maps), d) && Earlier(d, c.value) ==> Used(old(maps), d)
    {
      for s := 0 to |maps|
        invariant Valid() && maps == old(maps)
        invariant forall d :: IsSlot(maps, d) && d.s < s ==> Used(maps, d)
      {
        if Full(supermaps[s]) {
          SupermapFull(maps, supermaps, n, s);
        } else {
          c := AllocFromSupermap(s);
          if c.Some? {
            return;
          }
        }
      }
      return None;
    }

    /** The inner loop: the first free slot of one supermap. */
    method AllocFromSupermap(s: nat) returns (c: Option<Slot>)
      requires Valid() && s < |maps|
      modifies this`maps, this`supermaps
      ensures Valid()
      ensures c.None? ==> maps == old(maps) && forall d :: IsSlot(maps, d) && d.s == s ==> Used(maps, d)
      ensures c.Some? ==>
        && c.value.s == s && IsSlot(old(maps), c.value) && !Used(old(maps), c.value) && maps == With(old(maps), c.value, true)
        && forall d :: IsSlot(old(maps), d) && d.s == s && Earlier(d, c.value) ==> Used(old(maps), d)
    {
      for b := 0 to n
        invariant Valid() && maps == old(maps)
        invariant forall d :: IsSlot(maps, d) && d.s == s && d.b < b ==> Used(maps, d)
      {
        var i := Take(s, b);
        if i.Some? {
          return Some(Slot(s, b, i.value));
        }
      }
      return None;
    }

    /** The search of one page of `perPage` bitmaps: its first free slot, or none when it has none. */
    method AllocFromPage(s: nat, first: nat, perPage: nat) returns (c: Option<Slot>)
      requires Valid() && s < |maps| && first + perPage <= n
      modifies this`maps, this`supermaps
      ensures Valid()
      ensures c.None? ==> maps == old(maps) && forall b :: first <= b < first + perPage ==> Full(maps[s][b])
      ensures c.Some? ==> IsSlot(old(maps), c.value) && !Used(old(maps), c.value) && maps == With(old(maps), c.value, true)
      ensures c.Some? ==> c.value.s == s && first <= c.value.b < first + perPage && FirstFrom(old(maps), s, first, c.value)
    {
      for k := 0 to perPage
        invariant Valid() && maps == old(maps)
        invariant forall b :: first <= b < first + k ==> Full(maps[s][b])
      {
        var i := Take(s, first + k);
        if i.Some? {
          return Some(Slot(s, first + k, i.value));
        }
      }
      return None;
    }

    /** _dispatch_alloc_continuation_free up to the reclaiming of the page. Freeing a slot that is not allocated is a
        crash and changes nothing. `empty` tells whether the bitmap has become empty. */
    method Free(c: Slot) returns (crash: bool, empty: bool)
      requires Valid() && IsSlot(maps, c)
      modifies this`maps, this`supermaps
      ensures Valid()
      ensures crash <==> !old(Used(maps, c))
      ensures maps == if crash then old(maps) else With(old(maps), c, false)
      ensures !crash ==> (empty <==> forall i :: 0 <= i < |maps[c.s][c.b]| ==> !maps[c.s][c.b][i])
    {
      if !maps[c.s][c.b][c.i] {
        return true, false;
      }
      maps := With(maps, c, false);
      assert !maps[c.s][c.b][c.i];
      supermaps := supermaps[c.s := supermaps[c.s][c.b := false]];
      return false, forall i :: 0 <= i < |maps[c.s][c.b]| ==> !maps[c.s][c.b][i];
    }
  }

  /** The heaps, as one CPU uses them: its magazine in each, in the order of the chain. */
  class Heaps {
    const supermapCount: nat
    const n: nat
    const perPage: nat                      // bitmaps of a page
    var chain: seq<Magazine>
    var lastFound: Option<(nat, nat, nat)>  // heap, supermap and first bitmap of the page where a slot was found last

    ghost predicate Valid() reads this, chain {
      && 0 < perPage && 0 < n && n % perPage == 0 && 0 < supermapCount
      && (forall k :: 0 <= k < |chain| ==> chain[k].Valid() && chain[k].n == n && |chain[k].maps| == supermapCount)
      && (forall j, k :: 0 <= j < k < |chain| ==> chain[j] != chain[k])
      && (lastFound.Some? ==> InChain(lastFound.value))
    }

    predicate InChain(page: (nat, nat, nat)) reads this {
      page.0 < |chain| && page.1 < supermapCount && page.2 + perPage <= n
    }

    ghost predicate AllUsed() reads this, chain { forall j :: 0 <= j < |chain| ==> NoneFree(chain[j].maps) }

    /** The page where a slot was found last has a free one. */
    ghost predicate LastHasFree()
      requires lastFound.Some? ==> InChain(lastFound.value)
      reads this, chain
    {
      && lastFound.Some?
      && !PageFull(chain[lastFound.value.0].maps, lastFound.value.1, lastFound.value.2, perPage)
    }

    constructor (supermapCount: nat, n: nat, perPage: nat)
      requires 0 < perPage && 0 < n && n % perPage == 0 && 0 < supermapCount
      ensures Valid() && chain == []
    {
      this.supermapCount, this.n, this.perPage := supermapCount, n, perPage;
      chain, lastFound := [], None;
    }

    /** The page where a slot was found last. */
    method AllocFromLast() returns (c: Option<Slot>)
      requires Valid()
      modifies chain
      ensures Valid()
      ensures c.Some? <==> old(LastHasFree())
      ensures forall j :: 0 <= j < |chain| ==>
        if c.Some? && j == lastFound.value.0 then Handed(old(chain[j].maps), chain[j].maps, c.value)
        else chain[j].maps == old(chain[j].maps)
      ensures c.Some? ==>
        && c.value.s == lastFound.value.1 && lastFound.value.2 <= c.value.b < lastFound.value.2 + perPage
        && FirstFrom(old(chain[lastFound.value.0].maps), c.value.s, lastFound.value.2, c.value)
    {
      if lastFound.None? {
        return None;
      }
      var (h, s, first) := lastFound.value;
      c := chain[h].AllocFromPage(s, first, perPage);
    }

    /** The heaps from the first one on, as long as there are any. */
    method AllocFromChain() returns (found: Option<(nat, Slot)>)
      requires Valid()
      modifies this`lastFound, chain
      ensures Valid()
      ensures found.None? <==> forall j :: 0 <= j < |chain| ==> NoneFree(old(chain[j].maps))
      ensures found.None? ==> forall j :: 0 <= j < |chain| ==> chain[j].maps == old(chain[j].maps)
      ensures found.Some? ==> found.value.0 < |chain| && forall j :: 0 <= j < |chain| ==>
        if j == found.value.0 then Handed(old(chain[j].maps), chain[j].maps, found.value.1)
        else chain[j].maps == old(chain[j].maps)
      ensures found.Some? ==> FirstOf(old(chain[found.value.0].maps), found.value.1)
      ensures found.Some? ==> forall j :: 0 <= j < found.value.0 ==> NoneFree(old(chain[j].maps))
      ensures found.Some? ==> lastFound == Some((found.value.0, found.value.1.s, PageStart(found.value.1.b, perPage)))
    {
      for k := 0 to |chain|
        invariant Valid()
        invariant forall j :: 0 <= j < |chain| ==> chain[j].maps == old(chain[j].maps)
        invariant forall j :: 0 <= j < k ==> NoneFree(chain[j].maps)
      {
        var r := chain[k].AllocFromMagazine();
        if r.Some? {
          FirstInPage(r.value.b, n, perPage);
          lastFound := Some((k, r.value.s, PageStart(r.value.b, perPage)));
          return Some((k, r.value));
        }
      }
      return None;
    }

    /** _dispatch_alloc_try_create_heap, and the first slot of the new magazine. */
    method AllocFromNew() returns (c: Slot)
      requires Valid()
      modifies this
      ensures Valid() && |chain| == |old(chain)| + 1 && chain[..|old(chain)|] == old(chain) && fresh(chain[|old(chain)|])
      ensures IsSlot(chain[|old(chain)|].maps, c) && Used(chain[|old(chain)|].maps, c)
      ensures forall d :: d != c && IsSlot(chain[|old(chain)|].maps, d) ==> !Used(chain[|old(chain)|].maps, d)
      ensures lastFound == Some((|old(chain)|, c.s, PageStart(c.b, perPage)))
    {
      var m := new Magazine(supermapCount, n);
      assert IsSlot(m.maps, Slot(0, 0, 0)) && !Used(m.maps, Slot(0, 0, 0));
      ghost var empty := m.maps;
      var r := m.AllocFromMagazine();
      c := r.value;
      forall d | d != c && IsSlot(m.maps, d) ensures !Used(m.maps, d) {
        WithIs(empty, c, true, d);
      }
      FirstInPage(c.b, n, perPage);
      lastFound := Some((|chain|, c.s, PageStart(c.b, perPage)));
      chain := chain + [m];
    }

    /** _dispatch_alloc_continuation_from_heap_slow: the heaps in order, then a new heap. */
    method AllocFromHeaps() returns (k: nat, c: Slot)
      requires Valid()
      modifies this, chain
      ensures Valid() && k < |chain| && |old(chain)| <= |chain| && chain[..|old(chain)|] == old(chain)
      ensures |chain| == |old(chain)| + (if old(AllUsed()) then 1 else 0)
      ensures |chain| > |old(chain)| ==> k == |old(chain)| && IsSlot(chain[k].maps, c) && Used(chain[k].maps, c)
      ensures forall j :: 0 <= j < |old(chain)| ==>
        if j == k then Handed(old(chain[j].maps), chain[j].maps, c) else chain[j].maps == old(chain[j].maps)
      ensures lastFound == Some((k, c.s, PageStart(c.b, perPage)))
      ensures forall j :: 0 <= j < k ==> NoneFree(old(chain[j].maps))
      ensures k < |old(chain)| ==> FirstOf(old(chain[k].maps), c)
    {
      var found := AllocFromChain();
      if found.Some? {
        return found.value.0, found.value.1;
      }
      k := |chain|;
      c := AllocFromNew();
    }

    /** _dispatch_alloc_continuation_alloc: the page where a slot was found last, then the heaps in order, then a new
        heap. It always finds a slot, which was free; it changes no other; and it makes a new heap exactly when no
        slot of any heap was free. The slot is the first of the page where one was found last, if that has any, and
        otherwise the first of the first heap that has any; and its page is remembered. */
    method Alloc() returns (k: nat, c: Slot)
      requires Valid()
      modifies this, chain
      ensures Valid() && k < |chain| && |old(chain)| <= |chain| && chain[..|old(chain)|] == old(chain)
      ensures |chain| == |old(chain)| + (if old(AllUsed()) then 1 else 0)
      ensures |chain| > |old(chain)| ==> k == |old(chain)| && IsSlot(chain[k].maps, c) && Used(chain[k].maps, c)
      ensures forall j :: 0 <= j < |old(chain)| ==>
        if j == k then Handed(old(chain[j].maps), chain[j].maps, c) else chain[j].maps == old(chain[j].maps)
      ensures old(LastHasFree()) ==>
        && lastFound == old(lastFound) && (k, c.s) == (lastFound.value.0, lastFound.value.1)
        && lastFound.value.2 <= c.b < lastFound.value.2 + perPage
        && FirstFrom(old(chain[lastFound.value.0].maps), c.s, lastFound.value.2, c)
      ensures !old(LastHasFree()) ==>
        && lastFound == Some((k, c.s, PageStart(c.b, perPage)))
        && (forall j :: 0 <= j < k ==> NoneFree(old(chain[j].maps)))
        && (k < |old(chain)| ==> FirstOf(old(chain[k].maps), c))
    {
      var last := AllocFromLast();
      if last.Some? {
        return lastFound.value.0, last.value;
      }
      k, c := AllocFromHeaps();
    }
  }

  /** One slot that was free is now used, and nothing else has changed. */
  predicate Handed(before: seq<seq<Bits>>, after: seq<seq<Bits>>, c: Slot) {
    IsSlot(before, c) && !Used(before, c) && after == With(before, c, true)
  }

  function PageStart(b: nat, k: nat): nat
    requires 0 < k
  {
    b - b % k
  }

  lemma FirstInPage(b: nat, n: nat, k: nat)
    requires 0 < k && n % k == 0 && b < n
    ensures PageStart(b, k) + k <= n
  {
    var q, r := b / k, n / k;
    assert b - b % k == k * q && n == k * r;
    if q < r {
      assert k * (q + 1) <= k * r;
    }
  }

  /** A full supermap has no free slots. */
  lemma SupermapFull(maps: seq<seq<Bits>>, supermaps: seq<Bits>, n: nat, s: nat)
    requires Shape(maps, supermaps, n) && Marked(maps, supermaps, n) && s < |maps| && Full(supermaps[s])
    ensures forall d :: IsSlot(maps, d) && d.s == s ==> Used(maps, d)
  {
    forall d | IsSlot(maps, d) && d.s == s ensures Used(maps, d) {
      assert supermaps[s][d.b] && Full(maps[s][d.b]);
    }
  }
}

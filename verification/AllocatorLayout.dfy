/** Address and index arithmetic of the continuation allocator.

    Sizes that the source requires to be powers of two are masked there; here masking with `~(n - 1)` is rounding
    down to a multiple of `n`. */
module AllocatorLayout {

  /** `page` bytes hold `bitmapsPerPage` bitmaps' worth of continuations. The metadata lies in the first page of a
      magazine, the continuations start on the second. */
  datatype Layout = Layout(
    continuation: nat, perBitmap: nat, perSupermap: nat, bitmapsPerPage: nat, bitmapBytes: nat,
    supermaps: nat, mapsOffset: nat, magazine: nat)

  function PageSize(l: Layout): nat { l.bitmapsPerPage * BitmapSpan(l) }

  /** The bytes of the continuations of one bitmap. */
  function BitmapSpan(l: Layout): nat { l.perBitmap * l.continuation }

  function Bitmaps(l: Layout): nat { l.supermaps * l.perSupermap }

  function PageOfBitmaps(l: Layout): nat { l.bitmapsPerPage * l.bitmapBytes }

  predicate Sizes(l: Layout) {
    && 0 < l.continuation && 0 < l.perBitmap && 0 < l.perSupermap && 0 < l.bitmapsPerPage && 0 < l.bitmapBytes
    && 0 < l.magazine
  }

  predicate Fitting(l: Layout) {
    && l.mapsOffset + Bitmaps(l) * l.bitmapBytes <= PageSize(l)
    && PageSize(l) + Bitmaps(l) * BitmapSpan(l) <= l.magazine
  }

  /** The alignment rules: bitmaps of a page are aligned together, maps end in the first page, and everything fits in
      a magazine, whose size is a multiple of the page size and of the bytes of a page's bitmaps. */
  predicate Aligned(l: Layout) {
    && Sizes(l) && Fitting(l)
    && l.mapsOffset % PageOfBitmaps(l) == 0
    && l.magazine % PageSize(l) == 0 && l.magazine % PageOfBitmaps(l) == 0
  }

  /** The layouts for 64-byte continuations and 64-bit bitmaps, with 4K and with 16K pages. */
  lemma ActualLayouts()
    ensures Aligned(Layout(64, 64, 64, 1, 8, 7, 128, 512 * 4096))
    ensures Aligned(Layout(64, 64, 64, 4, 8, 31, 320, 512 * 16384))
  {
  }

  function Down(x: nat, n: nat): nat
    requires 0 < n
  {
    x - x % n
  }

  function Quo(x: nat, d: nat): nat
    requires 0 < d
  {
    x / d
  }

  function Rem(x: nat, d: nat): nat
    requires 0 < d
  {
    x % d
  }

  predicate InMagazine(l: Layout, s: nat, b: nat, i: nat) { s < l.supermaps && b < l.perSupermap && i < l.perBitmap }

  /** The number of a bitmap in its magazine. */
  function Flat(l: Layout, s: nat, b: nat): nat { s * l.perSupermap + b }

  function BitmapAddress(l: Layout, m: nat, s: nat, b: nat): nat { m + l.mapsOffset + Flat(l, s, b) * l.bitmapBytes }

  function ContinuationAddress(l: Layout, m: nat, s: nat, b: nat, i: nat): nat {
    m + PageSize(l) + (Flat(l, s, b) * l.perBitmap + i) * l.continuation
  }

  function MagazineFor(l: Layout, address: nat): nat
    requires 0 < l.magazine
  {
    Down(address, l.magazine)
  }

  /** get_maps_and_indices_for_continuation, for continuations that are not in the first page. */
  function MapsFor(l: Layout, c: nat): (nat, nat, nat)
    requires Sizes(l) && c >= MagazineFor(l, c) + PageSize(l)
  {
    var cindex := Quo(c - (MagazineFor(l, c) + PageSize(l)), l.continuation);
    Positive(l.perSupermap, l.perBitmap);
    (Quo(cindex, l.perSupermap * l.perBitmap), Rem(Quo(cindex, l.perBitmap), l.perSupermap), Rem(cindex, l.perBitmap))
  }

  lemma Positive(a: nat, b: nat)
    requires 0 < a && 0 < b
    ensures 0 < a * b
  {
  }

  /** get_cont_and_indices_for_bitmap_and_index: the supermap, the bitmap in it, and the continuation. */
  function ContinuationFor(l: Layout, bitmap: nat, index: nat): (nat, nat, nat)
    requires Sizes(l) && bitmap >= MagazineFor(l, bitmap) + l.mapsOffset
  {
    var m := MagazineFor(l, bitmap);
    var mindex := Quo(bitmap - (m + l.mapsOffset), l.bitmapBytes);
    var (s, b) := (Quo(mindex, l.perSupermap), Rem(mindex, l.perSupermap));
    (s, b, ContinuationAddress(l, m, s, b, index))
  }

  // Division.

  /** Quotient and remainder are unique. */
  lemma DivMod(q: nat, r: nat, d: nat)
    requires r < d
    ensures (q * d + r) / d == q && (q * d + r) % d == r
  {
    var x := q * d + r;
    var q', r' := x / d, x % d;
    assert x == d * q' + r';
    assert q * d == d * q;
    if q' > q {
      MulMono(d, q + 1, q');
    } else if q' < q {
      MulMono(d, q' + 1, q);
    }
  }

  lemma MulMono(d: nat, a: nat, b: nat)
    requires a <= b
    ensures d * a <= d * b
  {
  }

  lemma ModAdd(x: nat, y: nat, d: nat)
    requires 0 < d && x % d == 0
    ensures (x + y) % d == y % d
  {
    var q := x / d;
    assert x == q * d;
    assert x + y == (q + y / d) * d + y % d;
    DivMod(q + y / d, y % d, d);
  }

  lemma DownOf(m: nat, x: nat, n: nat)
    requires 0 < n && m % n == 0 && x < n
    ensures Down(m + x, n) == m
  {
    ModAdd(m, x, n);
    DivMod(0, x, n);
  }

  /** A digit pair (a, b) with b below n stays below (k, 0). */
  lemma Below(a: nat, b: nat, n: nat, k: nat)
    requires a < k && b < n
    ensures a * n + b < k * n
  {
    MulMono(n, a + 1, k);
    assert n * (a + 1) == a * n + n && n * k == k * n;
  }

  lemma FlatBound(l: Layout, s: nat, b: nat)
    requires s < l.supermaps && b < l.perSupermap
    ensures Flat(l, s, b) < Bitmaps(l)
  {
    Below(s, b, l.perSupermap, l.supermaps);
  }

  /** Continuation `i` of bitmap `f` lies inside the magazine, behind the first page. */
  lemma ContinuationBound(l: Layout, f: nat, i: nat)
    requires Sizes(l) && Fitting(l) && f < Bitmaps(l) && i < l.perBitmap
    ensures PageSize(l) + (f * l.perBitmap + i) * l.continuation < l.magazine
  {
    LastFits(f, i, l.perBitmap, l.continuation, Bitmaps(l));
    Fits(PageSize(l), (f * l.perBitmap + i) * l.continuation, Bitmaps(l) * BitmapSpan(l), l.magazine, 0, l.magazine);
  }

  lemma LastFits(f: nat, i: nat, n: nat, size: nat, bitmaps: nat)
    requires f < bitmaps && i < n && 0 < size
    ensures (f * n + i) * size < bitmaps * (n * size)
  {
    Below(f, i, n, bitmaps);
    Below(f * n + i, 0, size, bitmaps * n);
    Assoc(bitmaps, n, size);
  }

  lemma Assoc(a: nat, b: nat, c: nat)
    ensures a * b * c == a * (b * c)
  {
  }

  lemma Digits3(s: nat, b: nat, i: nat, p: nat, n: nat)
    requires b < p && i < n
    ensures var x := (s * p + b) * n + i;
            0 < p * n && x / (p * n) == s && (x / n) % p == b && x % n == i
  {
    var x := (s * p + b) * n + i;
    DivMod(s * p + b, i, n);
    DivMod(s, b, p);
    Below(b, i, n, p);
    Spread(s, p, b, n);
    DivMod(s, b * n + i, p * n);
  }

  lemma Spread(s: nat, p: nat, b: nat, n: nat)
    ensures (s * p + b) * n == s * (p * n) + b * n
  {
    assert (s * p + b) * n == s * p * n + b * n;
    Assoc(s, p, n);
  }

  /** The two conversions are inverse: the maps and indices found for a continuation are the ones its address was
      computed from, and its magazine is recovered by masking. */
  lemma MapsOfContinuation(l: Layout, m: nat, s: nat, b: nat, i: nat)
    requires Aligned(l) && m % l.magazine == 0 && InMagazine(l, s, b, i)
    ensures var c := ContinuationAddress(l, m, s, b, i);
            MagazineFor(l, c) == m && c >= m + PageSize(l) && MapsFor(l, c) == (s, b, i)
  {
    var n := Flat(l, s, b) * l.perBitmap + i;
    FlatBound(l, s, b);
    ContinuationBound(l, Flat(l, s, b), i);
    DownOf(m, PageSize(l) + n * l.continuation, l.magazine);
    DivMod(n, 0, l.continuation);
    Digits3(s, b, i, l.perSupermap, l.perBitmap);
  }

  lemma BitmapBound(l: Layout, f: nat)
    requires Sizes(l) && Fitting(l) && f < Bitmaps(l)
    ensures l.mapsOffset + f * l.bitmapBytes < PageSize(l) <= l.magazine
  {
    Below(f, 0, l.bitmapBytes, Bitmaps(l));
    Fits(l.mapsOffset, f * l.bitmapBytes, Bitmaps(l) * l.bitmapBytes, PageSize(l), Bitmaps(l) * BitmapSpan(l), l.magazine);
  }

  lemma Fits(offset: nat, x: nat, maps: nat, page: nat, continuations: nat, magazine: nat)
    requires x < maps && offset + maps <= page && page + continuations <= magazine
    ensures offset + x < page <= magazine
  {
  }

  /** And the other way: the continuation found for a bit of a bitmap is the one the bit stands for. */
  lemma ContinuationOfBitmap(l: Layout, m: nat, s: nat, b: nat, i: nat)
    requires Aligned(l) && m % l.magazine == 0 && InMagazine(l, s, b, i)
    ensures var a := BitmapAddress(l, m, s, b);
            && MagazineFor(l, a) == m && a >= m + l.mapsOffset
            && ContinuationFor(l, a, i) == (s, b, ContinuationAddress(l, m, s, b, i))
  {
    FlatBound(l, s, b);
    BitmapBound(l, Flat(l, s, b));
    DownOf(m, l.mapsOffset + Flat(l, s, b) * l.bitmapBytes, l.magazine);
    DivMod(Flat(l, s, b), 0, l.bitmapBytes);
    DivMod(s, b, l.perSupermap);
  }

  /** Different bits stand for different continuations. */
  lemma AddressesDistinct(l: Layout, m: nat, s: nat, b: nat, i: nat, m': nat, s': nat, b': nat, i': nat)
    requires Aligned(l) && m % l.magazine == 0 && m' % l.magazine == 0
    requires InMagazine(l, s, b, i) && InMagazine(l, s', b', i')
    requires ContinuationAddress(l, m, s, b, i) == ContinuationAddress(l, m', s', b', i')
    ensures m == m' && s == s' && b == b' && i == i'
  {
    MapsOfContinuation(l, m, s, b, i);
    MapsOfContinuation(l, m', s', b', i');
  }

  function FirstBitmapInSamePage(l: Layout, bitmap: nat): nat
    requires 0 < PageOfBitmaps(l)
  {
    Down(bitmap, PageOfBitmaps(l))
  }

  function PageBase(l: Layout, c: nat): nat
    requires 0 < PageSize(l)
  {
    Down(c, PageSize(l))
  }

  lemma Multiple(m: nat, big: nat, small: nat)
    requires 0 < big && 0 < small && m % big == 0 && big % small == 0
    ensures m % small == 0
  {
    var q, r := m / big, big / small;
    assert m == q * big && big == r * small;
    Assoc(q, r, small);
    DivMod(q * r, 0, small);
  }

  /** Rounding `f * w + x`, with `x` below `w`, down to a multiple of `k * w` rounds `f` down to a multiple of `k`. */
  lemma DownScaled(f: nat, k: nat, w: nat, x: nat)
    requires 0 < k && 0 < w && x < w
    ensures 0 < k * w && Down(f * w + x, k * w) == Down(f, k) * w
  {
    var q, r := f / k, f % k;
    assert f == q * k + r;
    Below(r, x, w, k);
    Spread(q, k, r, w);
    DivMod(q, r * w + x, k * w);
    assert Down(f, k) == q * k;
    Assoc(q, k, w);
  }

  lemma DownShifted(a: nat, x: nat, n: nat)
    requires 0 < n && a % n == 0
    ensures Down(a + x, n) == a + Down(x, n)
  {
    ModAdd(a, x, n);
  }

  /** The first bitmap in the same page, found by masking, is the first one of the group of bitmaps of that page. */
  lemma FirstBitmap(l: Layout, m: nat, s: nat, b: nat)
    requires Aligned(l) && m % l.magazine == 0 && s < l.supermaps && b < l.perSupermap
    ensures 0 < PageOfBitmaps(l)
    ensures FirstBitmapInSamePage(l, BitmapAddress(l, m, s, b))
            == m + l.mapsOffset + Down(Flat(l, s, b), l.bitmapsPerPage) * l.bitmapBytes
  {
    var w := PageOfBitmaps(l);
    Positive(l.bitmapsPerPage, l.bitmapBytes);
    Multiple(m, l.magazine, w);
    ModAdd(m, l.mapsOffset, w);
    DownScaled(Flat(l, s, b), l.bitmapsPerPage, l.bitmapBytes, 0);
    DownShifted(m + l.mapsOffset, Flat(l, s, b) * l.bitmapBytes, w);
  }

  lemma SpanOf(l: Layout, f: nat, i: nat)
    ensures (f * l.perBitmap + i) * l.continuation == f * BitmapSpan(l) + i * l.continuation
  {
    Spread(f, l.perBitmap, i, l.continuation);
  }

  lemma PageBaseOf(l: Layout, m: nat, f: nat, i: nat)
    requires Sizes(l) && 0 < PageSize(l) && m % PageSize(l) == 0 && i < l.perBitmap
    ensures PageBase(l, m + PageSize(l) + (f * l.perBitmap + i) * l.continuation)
            == m + PageSize(l) + (Down(f, l.bitmapsPerPage) * l.perBitmap) * l.continuation
  {
    SpanOf(l, f, i);
    SpanOf(l, Down(f, l.bitmapsPerPage), 0);
    Below(i, 0, l.continuation, l.perBitmap);
    RoundPage(m, l.bitmapsPerPage, BitmapSpan(l), f, i * l.continuation);
  }

  /** Rounding an address behind the first page down to its page. */
  lemma RoundPage(m: nat, k: nat, span: nat, f: nat, x: nat)
    requires 0 < k && x < span && 0 < k * span && m % (k * span) == 0
    ensures Down(m + k * span + (f * span + x), k * span) == m + k * span + Down(f, k) * span
  {
    var page := k * span;
    DownScaled(f, k, span, x);
    DivMod(1, 0, page);
    ModAdd(m, page, page);
    DownShifted(m + page, f * span + x, page);
  }

  /** Reclaiming and searching agree on pages: the page of a continuation starts with a continuation, that one is the
      first of its bitmap, and its bitmap is the one that masking the address of the first bitmap finds. */
  lemma PageAgrees(l: Layout, m: nat, s: nat, b: nat, i: nat)
    requires Aligned(l) && m % l.magazine == 0 && InMagazine(l, s, b, i)
    ensures 0 < PageSize(l) && 0 < PageOfBitmaps(l)
    ensures var page := PageBase(l, ContinuationAddress(l, m, s, b, i));
            && MagazineFor(l, page) == m && page >= m + PageSize(l)
            && var (s', b', i') := MapsFor(l, page);
               i' == 0 && BitmapAddress(l, m, s', b') == FirstBitmapInSamePage(l, BitmapAddress(l, m, s, b))
  {
    PageIsContinuation(l, m, s, b, i);
    var (s', b') := FirstOfPage(l, s, b);
    MapsOfContinuation(l, m, s', b', 0);
    FirstBitmap(l, m, s, b);
    assert Flat(l, s', b') == Down(Flat(l, s, b), l.bitmapsPerPage);
  }

  /** The first of the bitmaps of the page that bitmap `b` of supermap `s` belongs to. */
  function FirstOfPage(l: Layout, s: nat, b: nat): (r: (nat, nat))
    requires 0 < l.bitmapsPerPage && 0 < l.perSupermap && s < l.supermaps && b < l.perSupermap
    ensures r.0 < l.supermaps && r.1 < l.perSupermap && Flat(l, r.0, r.1) == Down(Flat(l, s, b), l.bitmapsPerPage)
  {
    FlatBound(l, s, b);
    var g := Down(Flat(l, s, b), l.bitmapsPerPage);
    Split(g, l.perSupermap, l.supermaps);
    (Quo(g, l.perSupermap), Rem(g, l.perSupermap))
  }

  lemma Split(g: nat, p: nat, k: nat)
    requires 0 < p && g < k * p
    ensures g / p < k && g % p < p && (g / p) * p + g % p == g
  {
    Quotient(g, p, k);
  }

  lemma PageIsContinuation(l: Layout, m: nat, s: nat, b: nat, i: nat)
    requires Aligned(l) && m % l.magazine == 0 && InMagazine(l, s, b, i)
    ensures 0 < PageSize(l)
    ensures var (s', b') := FirstOfPage(l, s, b);
            PageBase(l, ContinuationAddress(l, m, s, b, i)) == ContinuationAddress(l, m, s', b', 0)
  {
    PositivePage(l);
    Multiple(m, l.magazine, PageSize(l));
    PageBaseOf(l, m, Flat(l, s, b), i);
  }

  lemma PositivePage(l: Layout)
    requires Sizes(l)
    ensures 0 < PageSize(l)
  {
    Positive(l.perBitmap, l.continuation);
    Positive(l.bitmapsPerPage, BitmapSpan(l));
  }

  lemma Quotient(g: nat, p: nat, k: nat)
    requires 0 < p && g < k * p
    ensures g / p < k
  {
    if g / p >= k {
      MulMono(p, k, g / p);
    }
  }

  /** A region of one magazine more than the heap needs always contains an aligned heap. */
  function Realign(region: nat, magazine: nat, magazines: nat): (r: (nat, nat, nat, nat))
    requires 0 < magazine
    ensures var (aligned, end, bottomSlop, topSlop) := r;
            && aligned % magazine == 0
            && end == aligned + magazines * magazine
            && region + bottomSlop == aligned
            && end + topSlop == region + (1 + magazines) * magazine
  {
    var regionEnd := region + (1 + magazines) * magazine;
    Spread(1, 1, magazines, magazine);
    if region % magazine == 0 then (region, regionEnd - magazine, 0, magazine)
    else
      var aligned := Down(region, magazine) + magazine;
      DivMod(region / magazine + 1, 0, magazine);
      (aligned, aligned + magazines * magazine, aligned - region, magazine - (aligned - region))
  }
}

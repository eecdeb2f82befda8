/** The paging API: `page_set` over a region, `page_get`, and the flag encodings between them. */
module PageApi {
  import opened PageWords
  import opened PageTree
  import opened PageMemory

  const PAGE_VALID: bv64 := 0x0001
  const PAGE_READ: bv64 := 0x0010
  const PAGE_WRITE: bv64 := 0x0020
  const PAGE_EXEC: bv64 := 0x0040
  const PAGE_USER: bv64 := 0x0080
  const PAGE_ACCESSED: bv64 := 0x0100
  const PAGE_DIRTY: bv64 := 0x0200
  const PAGE_CACHE_DISABLE: bv64 := 0x1000
  const PAGE_WRITE_THROUGH: bv64 := 0x2000
  const PAGE_DEFINED: bv64 := 0x33F1

  // ---------------------------------------------------------------- flags

  predicate Valid(flags: bv64) { flags & PAGE_VALID != 0 }

  predicate Present(flags: bv64) { Valid(flags) && flags & (PAGE_READ | PAGE_WRITE | PAGE_EXEC) != 0 }

  function If(b: bool, f: bv64): bv64 { if b then f else 0 }

  /** The conversion in `page_set`. */
  function RawFlags(flags: bv64): bv64 {
    if !Valid(flags) then 0
    else
      PF_VALID
      | (if !Present(flags) then 0
         else
           PF_PRES
           | If(flags & PAGE_READ == 0, PF_NREAD)
           | If(flags & PAGE_WRITE != 0, PF_WRITE)
           | If(flags & PAGE_EXEC == 0, PF_NX)
           | If(flags & PAGE_USER != 0, PF_USER)
           | If(flags & PAGE_WRITE_THROUGH != 0, PF_PWT)
           | If(flags & PAGE_CACHE_DISABLE != 0, PF_PCD))
      | If(flags & PAGE_ACCESSED != 0, PF_ACCS)
      | If(flags & PAGE_DIRTY != 0, PF_DIRTY)
  }

  /** The conversion in `page_get`. */
  function CookedFlags(raw: bv64): bv64 {
    if raw & PF_VALID == 0 then 0
    else
      PAGE_VALID
      | (if raw & PF_PRES == 0 then 0
         else
           If(raw & PF_NREAD == 0, PAGE_READ)
           | If(raw & PF_WRITE != 0, PAGE_WRITE)
           | If(raw & PF_NX == 0, PAGE_EXEC)
           | If(raw & PF_USER != 0, PAGE_USER)
           | If(raw & PF_PWT != 0, PAGE_WRITE_THROUGH)
           | If(raw & PF_PCD != 0, PAGE_CACHE_DISABLE))
      | If(raw & PF_ACCS != 0, PAGE_ACCESSED)
      | If(raw & PF_DIRTY != 0, PAGE_DIRTY)
  }

  /** Encoding and decoding a present combination keeps exactly the defined bits. */
  lemma FlagsRoundTrip(flags: bv64)
    requires Present(flags)
    ensures CookedFlags(RawFlags(flags)) == flags & PAGE_DEFINED
  {
  }

  /** Which hardware bit stands for which flag of a present page. */
  lemma EncodedBits(flags: bv64)
    requires Present(flags)
    ensures var raw := RawFlags(flags);
      && raw & PF_VALID != 0 && raw & PF_PRES != 0
      && (raw & PF_NREAD == 0 <==> flags & PAGE_READ != 0) && (raw & PF_WRITE != 0 <==> flags & PAGE_WRITE != 0)
      && (raw & PF_NX == 0 <==> flags & PAGE_EXEC != 0) && (raw & PF_USER != 0 <==> flags & PAGE_USER != 0)
      && (raw & PF_PWT != 0 <==> flags & PAGE_WRITE_THROUGH != 0) && (raw & PF_PCD != 0 <==> flags & PAGE_CACHE_DISABLE != 0)
      && (raw & PF_ACCS != 0 <==> flags & PAGE_ACCESSED != 0) && (raw & PF_DIRTY != 0 <==> flags & PAGE_DIRTY != 0)
      && raw & (PF_LARGE | PF_GLOBL) == 0
  {
  }

  lemma RawFlagsPresent(flags: bv64)
    ensures RawFlags(flags) & !PF_BITS == 0
    ensures RawFlags(flags) & PF_PRES != 0 <==> Present(flags)
  {
  }

  // ---------------------------------------------------------------- a region

  function PageAt(vbase: nat, k: nat): nat { (vbase + k * 0x1000) % TWO64 }

  /** The entry written for page `k`: frame and flags side by side. */
  function RegionWord(pbase: nat, raw: bv64, k: nat): Word {
    var x := PageAt(pbase, k);
    Word(x % TWO63, (if x >= TWO63 then PF_NX else 0) | raw)
  }

  /** The entries of a region of `n` pages. */
  function RegionWords(pbase: nat, raw: bv64, n: nat): (w: seq<Word>)
    ensures |w| == n && forall k :: 0 <= k < n ==> w[k] == RegionWord(pbase, raw, k)
  {
    seq(n, k requires 0 <= k < n => RegionWord(pbase, raw, k))
  }

  lemma OrSideBySide(x: nat, raw: bv64)
    requires x < TWO64 && x % 0x1000 == 0
    ensures Or(AlignedWord(x), FlagWord(raw)) == Word(x % TWO63, (if x >= TWO63 then PF_NX else 0) | raw)
  {
    assert BitOr(x % TWO63, 0) == x % TWO63;
  }

  lemma PageAtAligned(vbase: nat, k: nat)
    requires vbase % 0x1000 == 0
    ensures PageAt(vbase, k) % 0x1000 == 0
  {
    assert vbase + k * 0x1000 == (vbase / 0x1000 + k) * 0x1000;
    WrapPage(vbase / 0x1000 + k);
  }

  lemma RegionWordIsOr(pbase: nat, raw: bv64, k: nat)
    requires PageAt(pbase, k) % 0x1000 == 0
    ensures Or(AlignedWord(PageAt(pbase, k)), FlagWord(raw)) == RegionWord(pbase, raw, k)
  {
    OrSideBySide(PageAt(pbase, k), raw);
  }

  /** `done` pages were set; `code` is 0, or what stopped the page after them: 1 refused, 2 out of frames. */
  datatype RegionResult = RegionResult(tables: Tables, done: nat, code: nat)

  /** The page loop from page `k` on, writing `w[k]` for page `k`. */
  function SetRegion(t: Tables, vbase: nat, w: seq<Word>, k: nat): (r: RegionResult)
    requires k <= |w|
    ensures r.done <= |w|
    decreases |w| - k
  {
    if k == |w| then RegionResult(t, |w|, 0)
    else
      var r := SetPage(t, PageAt(vbase, k), w[k]);
      if r.code != 0 then RegionResult(r.tables, k, r.code)
      else SetRegion(r.tables, vbase, w, k + 1)
  }

  /** Number of pages from `vbase` up to the page of `b`, going round the 48-bit address space. */
  function PageIndex(vbase: nat, b: nat): nat { (PageOf(b) - PageOf(vbase)) % 0x10_0000_0000 }

  lemma WrapPage(y: nat)
    ensures (y * 0x1000) % TWO64 == y % 0x10_0000_0000_0000 * 0x1000
  {
    var q, r := y / 0x10_0000_0000_0000, y % 0x10_0000_0000_0000;
    assert y * 0x1000 == q * TWO64 + r * 0x1000;
  }

  lemma WrapTwice(y: nat)
    ensures y % 0x10_0000_0000_0000 % 0x10_0000_0000 == y % 0x10_0000_0000
  {
    var q, r := y / 0x10_0000_0000_0000, y % 0x10_0000_0000_0000;
    assert y == (q * 0x1_0000) * 0x10_0000_0000 + r;
  }

  lemma WrapSum(v: nat, k: nat)
    ensures (v % 0x10_0000_0000 + k) % 0x10_0000_0000 == (v + k) % 0x10_0000_0000
  {
    var q, r := v / 0x10_0000_0000, v % 0x10_0000_0000;
    assert v + k == q * 0x10_0000_0000 + (r + k);
    assert (q * 0x10_0000_0000 + (r + k)) % 0x10_0000_0000 == (r + k) % 0x10_0000_0000;
  }

  lemma PageAtPage(vbase: nat, k: nat)
    requires vbase % 0x1000 == 0
    ensures PageOf(PageAt(vbase, k)) == (PageOf(vbase) + k) % 0x10_0000_0000
  {
    var v := vbase / 0x1000;
    assert vbase + k * 0x1000 == (v + k) * 0x1000;
    WrapPage(v + k);
    assert PageAt(vbase, k) / 0x1000 == (v + k) % 0x10_0000_0000_0000;
    WrapTwice(v + k);
    WrapSum(v, k);
  }

  lemma PageAtIndex(vbase: nat, k: nat, b: nat)
    requires vbase % 0x1000 == 0 && k < 0x10_0000_0000
    ensures PageOf(PageAt(vbase, k)) == PageOf(b) <==> PageIndex(vbase, b) == k
  {
    PageAtPage(vbase, k);
  }

  /** What `b` resolves to once the first `done` pages of the region are set. */
  ghost predicate RegionSet(t: Tables, t1: Tables, vbase: nat, w: seq<Word>, from: nat, done: nat)
    requires done <= |w|
  {
    forall b :: Resolve(t1, b) ==
      if from <= PageIndex(vbase, b) < done then LeafHit(w[PageIndex(vbase, b)]) else Resolve(t, b)
  }

  ghost predicate SameMap(t: Tables, t1: Tables) { forall b :: Resolve(t1, b) == Resolve(t, b) }

  predicate InLargePage(t: Tables, a: nat) { Resolve(t, a).Hit? && Resolve(t, a).level > 1 }

  /** `s` is `t` with the page of `a` set to `w`. */
  ghost predicate OnePage(t: Tables, s: Tables, a: nat, w: Word) {
    forall b :: Resolve(s, b) == if PageOf(a) == PageOf(b) then LeafHit(w) else Resolve(t, b)
  }

  /** Setting page `k` first and then the pages from `k + 1` on. */
  lemma RegionSetFirst(t: Tables, s: Tables, t1: Tables, vbase: nat, w: seq<Word>, k: nat, done: nat)
    requires vbase % 0x1000 == 0 && k < done <= |w| && k < 0x10_0000_0000
    requires OnePage(t, s, PageAt(vbase, k), w[k])
    requires RegionSet(s, t1, vbase, w, k + 1, done)
    ensures RegionSet(t, t1, vbase, w, k, done)
  {
    forall b ensures Resolve(t1, b) ==
      if k <= PageIndex(vbase, b) < done then LeafHit(w[PageIndex(vbase, b)]) else Resolve(t, b)
    {
      PageAtIndex(vbase, k, b);
    }
  }

  lemma LaterPage(t: Tables, s: Tables, vbase: nat, w: Word, k: nat, j: nat)
    requires vbase % 0x1000 == 0 && k < j < 0x10_0000_0000
    requires OnePage(t, s, PageAt(vbase, k), w)
    ensures Resolve(s, PageAt(vbase, j)) == Resolve(t, PageAt(vbase, j))
  {
    PageAtIndex(vbase, k, PageAt(vbase, j));
    PageAtIndex(vbase, j, PageAt(vbase, j));
  }

  lemma RegionSetNone(t: Tables, t1: Tables, vbase: nat, w: seq<Word>, k: nat)
    requires SameMap(t, t1) && k <= |w|
    ensures RegionSet(t, t1, vbase, w, k, k)
  {
  }

  /** One turn of the page loop. */
  lemma RegionStep(t: Tables, lev: Levels, vbase: nat, w: seq<Word>, k: nat) returns (lev1: Levels)
    requires Tree(t, lev) && k < |w|
    ensures var s := SetPage(t, PageAt(vbase, k), w[k]);
      && Tree(s.tables, lev1)
      && (s.code == 1 <==> InLargePage(t, PageAt(vbase, k)))
      && (s.code != 0 ==> SameMap(t, s.tables))
      && (s.code == 0 ==> OnePage(t, s.tables, PageAt(vbase, k), w[k]))
  {
    lev1 := SetPageIsUpdate(t, lev, PageAt(vbase, k), w[k]);
  }

  lemma {:induction false} SetRegionDone(t: Tables, vbase: nat, w: seq<Word>, k: nat)
    requires k <= |w|
    ensures var r := SetRegion(t, vbase, w, k);
      k <= r.done <= |w| && (r.code == 0 <==> r.done == |w|) && r.code <= 2 && (k < |w| && SetPage(t, PageAt(vbase, k), w[k]).code == 0 ==> r.done > k)
    decreases |w| - k
  {
    if k < |w| {
      SetRegionDone(SetPage(t, PageAt(vbase, k), w[k]).tables, vbase, w, k + 1);
    }
  }

  /** `page_set` sets the pages in order: those before `done` are remapped, no other page changes,
      whichever way the call ends. */
  lemma {:induction false} SetRegionIsUpdate(t: Tables, lev: Levels, vbase: nat, w: seq<Word>, k: nat)
    requires Tree(t, lev) && vbase % 0x1000 == 0 && k <= |w| <= 0x10_0000_0000
    ensures var r := SetRegion(t, vbase, w, k); RegionSet(t, r.tables, vbase, w, k, r.done)
    decreases |w| - k
  {
    if k == |w| {
      RegionSetNone(t, t, vbase, w, k);
    } else {
      var s := SetPage(t, PageAt(vbase, k), w[k]);
      var lev1 := RegionStep(t, lev, vbase, w, k);
      if s.code != 0 {
        RegionSetNone(t, s.tables, vbase, w, k);
      } else {
        var r := SetRegion(s.tables, vbase, w, k + 1);
        SetRegionDone(s.tables, vbase, w, k + 1);
        SetRegionIsUpdate(s.tables, lev1, vbase, w, k + 1);
        RegionSetFirst(t, s.tables, r.tables, vbase, w, k, r.done);
      }
    }
  }

  /** What stopping at `done` with `code` says about page `j`. */
  predicate StopsAt(t: Tables, vbase: nat, done: nat, code: nat, j: nat) {
    (j < done ==> !InLargePage(t, PageAt(vbase, j))) && (j == done ==> (code == 1 <==> InLargePage(t, PageAt(vbase, j))))
  }

  /** Every page set lies in no large page; the loop is refused exactly at a page that lies in one. */
  lemma {:induction false} SetRegionStops(t: Tables, lev: Levels, vbase: nat, w: seq<Word>, k: nat, j: nat)
    requires Tree(t, lev) && vbase % 0x1000 == 0 && k <= j < |w| <= 0x10_0000_0000
    ensures var r := SetRegion(t, vbase, w, k); StopsAt(t, vbase, r.done, r.code, j)
    decreases |w| - k
  {
    var s := SetPage(t, PageAt(vbase, k), w[k]);
    var lev1 := RegionStep(t, lev, vbase, w, k);
    if s.code == 0 {
      SetRegionDone(s.tables, vbase, w, k + 1);
      if k < j {
        SetRegionStops(s.tables, lev1, vbase, w, k + 1, j);
        LaterPage(t, s.tables, vbase, w[k], k, j);
      }
    }
  }

  // ---------------------------------------------------------------- the call

  lemma RegionReaches(t: Tables, t1: Tables, vbase: nat, w: seq<Word>, o: nat)
    requires vbase % 0x1000 == 0 && o < |w| * 0x1000 && |w| <= 0x10_0000_0000
    requires RegionSet(t, t1, vbase, w, 0, |w|)
    ensures Resolve(t1, (vbase + o) % TWO64) == LeafHit(w[o / 0x1000])
  {
    OffsetPage(vbase, o);
    PageAtIndex(vbase, o / 0x1000, (vbase + o) % TWO64);
  }

  /** The leaf of page `k` seen at an address with offset `d`. */
  lemma RegionLeaf(pbase: nat, raw: bv64, k: nat, a: nat, d: nat, p: nat)
    requires raw & PF_PRES != 0 && a % 0x1000 == d && PageAt(pbase, k) % 0x1000 == 0 && p == PageAt(pbase, k) + d
    ensures var h := LeafHit(RegionWord(pbase, raw, k));
      TransOf(h, a) == p % TWO63 && FlagsOf(h) == (if p >= TWO63 then PF_NX else 0) | raw
  {
    var x := PageAt(pbase, k);
    OrPresent(if x >= TWO63 then PF_NX else 0, raw);
    LeafOffset(x, d);
    assert a % Span(1) == d;
  }

  lemma LeafOffset(x: nat, d: nat)
    requires x < TWO64 && x % 0x1000 == 0 && d < 0x1000
    ensures x % TWO63 + d == (x + d) % TWO63 && (x >= TWO63 <==> x + d >= TWO63)
  {
    assert x + d < TWO63 || x >= TWO63;
  }

  lemma OrPresent(x: bv64, raw: bv64)
    requires raw & PF_PRES != 0
    ensures (x | raw) & PF_PRES != 0
  {
  }

  lemma OffsetSum(vbase: nat, o: nat)
    requires vbase % 0x1000 == 0
    ensures (vbase + o) % TWO64 == PageAt(vbase, o / 0x1000) + o % 0x1000 && PageAt(vbase, o / 0x1000) % 0x1000 == 0
  {
    var y := vbase / 0x1000 + o / 0x1000;
    WrapPage(y);
    var q := y / 0x10_0000_0000_0000;
    assert vbase + o == q * TWO64 + (y % 0x10_0000_0000_0000 * 0x1000 + o % 0x1000);
  }

  lemma OffsetPage(vbase: nat, o: nat)
    requires vbase % 0x1000 == 0
    ensures PageOf((vbase + o) % TWO64) == PageOf(PageAt(vbase, o / 0x1000))
    ensures (vbase + o) % TWO64 % 0x1000 == o % 0x1000
  {
    OffsetSum(vbase, o);
    var x := PageAt(vbase, o / 0x1000);
    assert (x + o % 0x1000) / 0x1000 == x / 0x1000;
  }

  /** Offset `o` of the region is mapped, and `page_get` reads back exactly the defined flag bits. */
  predicate Mapped(t: Tables, vbase: nat, pbase: nat, flags: bv64, o: nat) {
    var a := (vbase + o) % TWO64;
    TransOf(Resolve(t, a), a) == (pbase + o) % TWO64 && CookedFlags(FlagsOf(Resolve(t, a))) == flags & PAGE_DEFINED
  }

  lemma OffsetMapped(t: Tables, t1: Tables, vbase: nat, pbase: nat, flags: bv64, n: nat, o: nat)
    requires vbase % 0x1000 == 0 && pbase % 0x1000 == 0 && o < n * 0x1000 && n <= 0x10_0000_0000
    requires Present(flags) && RegionSet(t, t1, vbase, RegionWords(pbase, RawFlags(flags), n), 0, n)
    ensures Mapped(t1, vbase, pbase, flags, o) <==> (pbase + o) % TWO64 < TWO63
  {
    var a, p, k, d := (vbase + o) % TWO64, (pbase + o) % TWO64, o / 0x1000, o % 0x1000;
    assert a % 0x1000 == d by { OffsetPage(vbase, o); }
    assert p == PageAt(pbase, k) + d && PageAt(pbase, k) % 0x1000 == 0 by { OffsetSum(pbase, o); }
    RegionReaches(t, t1, vbase, RegionWords(pbase, RawFlags(flags), n), o);
    LeafMapped(pbase, flags, k, a, d, p);
  }

  lemma LeafMapped(pbase: nat, flags: bv64, k: nat, a: nat, d: nat, p: nat)
    requires Present(flags) && a % 0x1000 == d && PageAt(pbase, k) % 0x1000 == 0 && p == PageAt(pbase, k) + d
    ensures var h := LeafHit(RegionWord(pbase, RawFlags(flags), k));
      TransOf(h, a) == p && CookedFlags(FlagsOf(h)) == flags & PAGE_DEFINED <==> p < TWO63
  {
    RawFlagsPresent(flags);
    FlagsRoundTrip(flags);
    RegionLeaf(pbase, RawFlags(flags), k, a, d, p);
    OrNothing(RawFlags(flags));
  }

  lemma OrNothing(x: bv64)
    ensures 0 | x == x
  {
  }

  /** A present `page_set` over at most 2^48 bytes that succeeds maps vbase + o to pbase + o with the given
      flags, for exactly those offsets at which bit 63 of the physical address is clear: in an entry that
      bit is no-execute. No page outside the region changes, however the call ends. */
  lemma PageSetMaps(t: Tables, lev: Levels, vbase: nat, pbase: nat, flags: bv64, n: nat)
    requires Tree(t, lev) && n <= 0x10_0000_0000
    requires vbase % 0x1000 == 0 && pbase % 0x1000 == 0 && Present(flags)
    ensures var r := SetRegion(t, vbase, RegionWords(pbase, RawFlags(flags), n), 0);
      && (r.code == 0 ==> forall o :: 0 <= o < n * 0x1000 ==>
           (Mapped(r.tables, vbase, pbase, flags, o) <==> (pbase + o) % TWO64 < TWO63))
      && (forall b :: PageIndex(vbase, b) >= n ==> Resolve(r.tables, b) == Resolve(t, b))
  {
    var w := RegionWords(pbase, RawFlags(flags), n);
    var r := SetRegion(t, vbase, w, 0);
    SetRegionDone(t, vbase, w, 0);
    SetRegionIsUpdate(t, lev, vbase, w, 0);
    if r.code == 0 {
      forall o | 0 <= o < n * 0x1000
        ensures Mapped(r.tables, vbase, pbase, flags, o) <==> (pbase + o) % TWO64 < TWO63
      {
        OffsetMapped(t, r.tables, vbase, pbase, flags, n, o);
      }
    }
  }

  /** A `page_set` that finds the frames it needs succeeds exactly when no page of its region lies in a
      large page. */
  lemma PageSetSucceeds(t: Tables, lev: Levels, vbase: nat, w: seq<Word>)
    requires Tree(t, lev) && |w| <= 0x10_0000_0000 && vbase % 0x1000 == 0
    requires SetRegion(t, vbase, w, 0).code != 2
    ensures SetRegion(t, vbase, w, 0).code == 0 <==> forall j :: 0 <= j < |w| ==> !InLargePage(t, PageAt(vbase, j))
  {
    SetRegionDone(t, vbase, w, 0);
    ghost var done := SetRegion(t, vbase, w, 0).done;
    if done < |w| { SetRegionStops(t, lev, vbase, w, 0, done); }
    forall j | 0 <= j < done ensures !InLargePage(t, PageAt(vbase, j)) {
      SetRegionStops(t, lev, vbase, w, 0, j);
    }
  }

  ghost predicate AlreadySet(t: Tables, vbase: nat, w: seq<Word>, done: nat)
    requires done <= |w|
  {
    forall k :: 0 <= k < done ==> Resolve(t, PageAt(vbase, k)) == LeafHit(w[k])
  }

  lemma RegionSetAt(t: Tables, t1: Tables, vbase: nat, w: seq<Word>, done: nat, k: nat)
    requires vbase % 0x1000 == 0 && k < done <= |w| && done <= 0x10_0000_0000 && RegionSet(t, t1, vbase, w, 0, done)
    ensures Resolve(t1, PageAt(vbase, k)) == LeafHit(w[k])
  {
    PageAtIndex(vbase, k, PageAt(vbase, k));
  }

  lemma SamePageResolve(t: Tables, vbase: nat, b: nat)
    requires vbase % 0x1000 == 0
    ensures Resolve(t, b) == Resolve(t, PageAt(vbase, PageIndex(vbase, b)))
  {
    PageAtIndex(vbase, PageIndex(vbase, b), b);
    SamePageSameResolve(t, b, PageAt(vbase, PageIndex(vbase, b)));
  }

  lemma RegionSetSame(t: Tables, t1: Tables, vbase: nat, w: seq<Word>, done: nat)
    requires vbase % 0x1000 == 0 && done <= |w| && done <= 0x10_0000_0000 && RegionSet(t, t1, vbase, w, 0, done)
    ensures SameMap(t, t1) <==> AlreadySet(t, vbase, w, done)
  {
    if SameMap(t, t1) {
      forall k | 0 <= k < done ensures Resolve(t, PageAt(vbase, k)) == LeafHit(w[k]) {
        RegionSetAt(t, t1, vbase, w, done, k);
      }
    }
    if AlreadySet(t, vbase, w, done) {
      forall b ensures Resolve(t1, b) == Resolve(t, b) { SamePageResolve(t, vbase, b); }
    }
  }

  // ---------------------------------------------------------------- failed calls

  /** Number of pages from `vbase` up to the kernel window. */
  function WindowAt(vbase: nat): nat {
    if PageOf(vbase) >= PageOf(KERNEL_BASE) then 0 else PageOf(KERNEL_BASE) - PageOf(vbase)
  }

  lemma WindowPages(t: Tables, vbase: nat, j: nat)
    requires LargeIsWindow(t) && vbase % 0x1000 == 0 && j <= WindowAt(vbase)
    ensures InLargePage(t, PageAt(vbase, j)) <==> j == WindowAt(vbase)
  {
    PageAtPage(vbase, j);
    WindowIndex(PageOf(vbase), j);
    assert Resolve(t, PageAt(vbase, j)).Hit? && Resolve(t, PageAt(vbase, j)).level > 1 <==>
      PageOf(PageAt(vbase, j)) >= PageOf(KERNEL_BASE);
  }

  lemma WindowIndex(p: nat, j: nat)
    requires p < 0x10_0000_0000
    requires j <= if p >= PageOf(KERNEL_BASE) then 0 else PageOf(KERNEL_BASE) - p
    ensures (p + j) % 0x10_0000_0000 >= PageOf(KERNEL_BASE) <==>
      j == if p >= PageOf(KERNEL_BASE) then 0 else PageOf(KERNEL_BASE) - p
  {
    assert PageOf(KERNEL_BASE) == 0xF_FFFC_0000;
  }

  /** With large pages in the kernel window only, as every paging context has them, the call stops at the
      window: it succeeds exactly when the region ends before it. */
  lemma StopsAtWindow(t: Tables, lev: Levels, vbase: nat, w: seq<Word>)
    requires Tree(t, lev) && LargeIsWindow(t) && |w| <= 0x10_0000_0000 && vbase % 0x1000 == 0
    requires SetRegion(t, vbase, w, 0).code != 2
    ensures var r := SetRegion(t, vbase, w, 0);
      if |w| <= WindowAt(vbase) then r.code == 0 && r.done == |w| else r.code == 1 && r.done == WindowAt(vbase)
  {
    var r, m := SetRegion(t, vbase, w, 0), WindowAt(vbase);
    SetRegionDone(t, vbase, w, 0);
    if m < |w| {
      SetRegionStops(t, lev, vbase, w, 0, m);
      WindowPages(t, vbase, m);
    }
    if r.done < |w| && r.done <= m {
      SetRegionStops(t, lev, vbase, w, 0, r.done);
      WindowPages(t, vbase, r.done);
    }
  }

  /** The documentation says that a failed call changes no mapping. That is so exactly when every page of
      the region below the kernel window already had the mapping it was to be given. */
  lemma FailedPageSetChanges(t: Tables, lev: Levels, vbase: nat, w: seq<Word>)
    requires Tree(t, lev) && LargeIsWindow(t) && |w| <= 0x10_0000_0000 && vbase % 0x1000 == 0
    requires WindowAt(vbase) < |w| && SetRegion(t, vbase, w, 0).code != 2
    ensures SameMap(t, SetRegion(t, vbase, w, 0).tables) <==>
      AlreadySet(t, vbase, w, WindowAt(vbase))
  {
    StopsAtWindow(t, lev, vbase, w);
    SetRegionIsUpdate(t, lev, vbase, w, 0);
    RegionSetSame(t, SetRegion(t, vbase, w, 0).tables, vbase, w, WindowAt(vbase));
  }

  /** Two pages from the last one below the window: refused, with the first page remapped. */
  lemma FailedPageSetInput(t: Tables, q: seq<nat>, w: seq<Word>)
    requires InitShape(t, q) && |q| >= 264 && |w| == 2 && Pres(w[0])
    ensures var r := SetRegion(t, LAST_PAGE, w, 0);
      r.code == 1 && r.done == 1 && !SameMap(t, r.tables)
  {
    InitTree(t, q);
    InitLarge(t, q);
    InputFrames(t, q, LAST_PAGE, w);
    InputFresh(t, q, LAST_PAGE, w);
    LastPageFails(t, InitLevels(q), LAST_PAGE, w);
  }

  lemma LastPageFails(t: Tables, lev: Levels, vbase: nat, w: seq<Word>)
    requires Tree(t, lev) && LargeIsWindow(t)
    requires vbase == LAST_PAGE && |w| == 2 && SetRegion(t, vbase, w, 0).code != 2
    requires !AlreadySet(t, vbase, w, 1)
    ensures var r := SetRegion(t, vbase, w, 0); r.code == 1 && r.done == 1 && !SameMap(t, r.tables)
  {
    BelowWindow();
    FailsPartly(t, lev, vbase, w);
  }

  /** The last page below the window. */
  const LAST_PAGE: nat := 0xFFFF_FFFF_BFFF_F000

  lemma BelowWindow()
    ensures WindowAt(LAST_PAGE) == 1 && LAST_PAGE % 0x1000 == 0 && LAST_PAGE + 0x1000 == KERNEL_BASE
  {
  }

  lemma FailsPartly(t: Tables, lev: Levels, vbase: nat, w: seq<Word>)
    requires Tree(t, lev) && LargeIsWindow(t) && |w| <= 0x10_0000_0000 && vbase % 0x1000 == 0
    requires WindowAt(vbase) < |w| && SetRegion(t, vbase, w, 0).code != 2
    requires !AlreadySet(t, vbase, w, WindowAt(vbase))
    ensures var r := SetRegion(t, vbase, w, 0);
      r.code == 1 && r.done == WindowAt(vbase) && !SameMap(t, r.tables)
  {
    StopsAtWindow(t, lev, vbase, w);
    FailedPageSetChanges(t, lev, vbase, w);
  }

  lemma InputFresh(t: Tables, q: seq<nat>, vbase: nat, w: seq<Word>)
    requires InitShape(t, q) && |w| == 2 && Pres(w[0]) && vbase == LAST_PAGE
    ensures !AlreadySet(t, vbase, w, 1)
  {
    assert PageAt(vbase, 0) == vbase && Idx(vbase, 3) == 510;
    InitResolve(t, q, vbase);
    assert Resolve(t, PageAt(vbase, 0)) != LeafHit(w[0]);
  }

  lemma InputFrames(t: Tables, q: seq<nat>, vbase: nat, w: seq<Word>)
    requires InitShape(t, q) && |q| >= 264 && |w| == 2
    ensures SetRegion(t, vbase, w, 0).code != 2
  {
    var s := SetPage(t, PageAt(vbase, 0), w[0]).tables;
    EnoughFrames(t, t.root, LEVELS, PageAt(vbase, 0), w[0]);
    PoolShrinks(t, t.root, LEVELS, PageAt(vbase, 0), w[0]);
    EnoughFrames(s, s.root, LEVELS, PageAt(vbase, 1), w[1]);
    LastPage(s, vbase, w);
  }

  lemma LastPage(s: Tables, vbase: nat, w: seq<Word>)
    requires |w| > 0
    ensures SetRegion(s, vbase, w, |w| - 1).code == SetPage(s, PageAt(vbase, |w| - 1), w[|w| - 1]).code
  {
  }

  lemma {:induction false} PoolShrinks(t: Tables, f: nat, l: nat, a: nat, w: Word)
    requires 1 <= l <= 4
    ensures |SetFrom(t, f, l, a, w).tables.pool| >= |t.pool| - (l - 1)
    decreases l
  {
    var e := Entry(t, f, l, a);
    if l > 1 {
      if !Pres(e) {
        if t.pool != [] { PoolShrinks(AddTable(t, f, Idx(a, l)), t.pool[0], l - 1, a, w); }
      } else if !Large(e) {
        PoolShrinks(t, e.frame, l - 1, a, w);
      }
    }
  }

  // ---------------------------------------------------------------- the call in place

  /** The loop writes each page's frame or-ed with the word `raw`. */
  ghost predicate Writes(w: seq<Word>, pbase: nat, raw: Word) {
    forall k :: 0 <= k < |w| ==> PageAt(pbase, k) % 0x1000 == 0 && w[k] == Or(AlignedWord(PageAt(pbase, k)), raw)
  }

  lemma RegionWrites(pbase: nat, raw: bv64, n: nat)
    requires pbase % 0x1000 == 0
    ensures Writes(RegionWords(pbase, raw, n), pbase, FlagWord(raw))
  {
    forall k | 0 <= k < n
      ensures PageAt(pbase, k) % 0x1000 == 0 && RegionWord(pbase, raw, k) == Or(AlignedWord(PageAt(pbase, k)), FlagWord(raw))
    {
      PageAtAligned(pbase, k);
      RegionWordIsOr(pbase, raw, k);
    }
  }

  /** One turn of the page loop. */
  method SetPageAt(ctx: PageContext, vbase: nat, pbase: nat, raw: Word, ghost w: seq<Word>, i: nat, ghost k: nat)
    returns (r: nat)
    requires ctx.Valid() && vbase % 0x1000 == 0 && Writes(w, pbase, raw) && k < |w| && i == k * 0x1000
    requires SetRegion(ctx.T(), vbase, w, k).code != 2
    modifies ctx
    ensures ctx.Valid()
    ensures SetRegion(old(ctx.T()), vbase, w, k) ==
      if r == 0 then SetRegion(ctx.T(), vbase, w, k + 1) else RegionResult(ctx.T(), k, r)
  {
    var vaddr, paddr := (vbase + i) % TWO64, (pbase + i) % TWO64;
    PageAtAligned(vbase, k);
    assert paddr == PageAt(pbase, k) && w[k] == Or(AlignedWord(PageAt(pbase, k)), raw);
    r := ctx.SetFrame(vaddr, 0x1000, AlignedWord(paddr), raw);
  }

  /** `page_set`, passing on the converted flags; the one assumption is that it finds the frames it needs. */
  method PageSet(ctx: PageContext, vbase: nat, pbase: nat, flags: bv64, size: nat) returns (ok: bool)
    requires ctx.Valid()
    requires vbase % 0x1000 == 0 && pbase % 0x1000 == 0 && size % 0x1000 == 0 ==>
      SetRegion(ctx.T(), vbase, RegionWords(pbase, RawFlags(flags), size / 0x1000), 0).code != 2
    modifies ctx
    ensures ctx.Valid()
    ensures vbase % 0x1000 == 0 && pbase % 0x1000 == 0 && size % 0x1000 == 0 ==>
      var r := SetRegion(old(ctx.T()), vbase, RegionWords(pbase, RawFlags(flags), size / 0x1000), 0);
      ctx.T() == r.tables && ok == (r.code == 0)
    ensures !(vbase % 0x1000 == 0 && pbase % 0x1000 == 0 && size % 0x1000 == 0) ==> !ok && ctx.T() == old(ctx.T())
  {
    if vbase % 0x1000 != 0 || pbase % 0x1000 != 0 || size % 0x1000 != 0 {
      return false;
    }
    RegionWrites(pbase, RawFlags(flags), size / 0x1000);
    ok := PageLoop(ctx, vbase, pbase, FlagWord(RawFlags(flags)), RegionWords(pbase, RawFlags(flags), size / 0x1000), size);
  }

  method PageLoop(ctx: PageContext, vbase: nat, pbase: nat, raw: Word, ghost w: seq<Word>, size: nat) returns (ok: bool)
    requires ctx.Valid() && vbase % 0x1000 == 0 && size == |w| * 0x1000 && Writes(w, pbase, raw)
    requires SetRegion(ctx.T(), vbase, w, 0).code != 2
    modifies ctx
    ensures ctx.Valid()
    ensures var r := SetRegion(old(ctx.T()), vbase, w, 0); ctx.T() == r.tables && ok == (r.code == 0)
  {
    var i := 0;
    ghost var k := 0;
    ghost var goal := SetRegion(ctx.T(), vbase, w, 0);
    while i < size
      invariant 0 <= k <= |w| && i == k * 0x1000 && ctx.Valid()
      invariant SetRegion(ctx.T(), vbase, w, k) == goal
    {
      var r := SetPageAt(ctx, vbase, pbase, raw, w, i, k);
      if r != 0 {
        return false;
      }
      i := i + 0x1000;
      k := k + 1;
    }
    return true;
  }

  /** `page_get`. */
  method PageGet(ctx: PageContext, vaddr: nat) returns (paddr: nat, flags: bv64)
    requires ctx.Valid()
    ensures paddr == TransOf(Resolve(ctx.T(), vaddr), vaddr)
    ensures flags == CookedFlags(FlagsOf(Resolve(ctx.T(), vaddr)))
  {
    paddr := ctx.GetTrans(vaddr);
    var raw := ctx.GetFlags(vaddr);
    flags := CookedFlags(raw);
  }

  // ---------------------------------------------------------------- the call as shipped

  /** The value of bits 12..62 of `f`. */
  function HighBits(f: bv64): (n: nat)
    ensures n < TWO63 && n % 0x1000 == 0
  {
    ((f >> 12) & 0x7_FFFF_FFFF_FFFF) as bv51 as nat * 0x1000
  }

  /** The shipped call passes the unconverted flags, so their bits 12..62 fall into the frame. */
  function ShippedFlagWord(flags: bv64): Word { Word(HighBits(flags), flags & PF_BITS) }

  function ShippedWord(pbase: nat, flags: bv64): Word
    requires pbase % 0x1000 == 0 && pbase < TWO64
  {
    Or(AlignedWord(pbase), ShippedFlagWord(flags))
  }

  function ShippedWords(pbase: nat, flags: bv64, n: nat): (w: seq<Word>)
    requires pbase % 0x1000 == 0
    ensures |w| == n
    ensures forall k :: 0 <= k < n ==> PageAt(pbase, k) % 0x1000 == 0 && w[k] == ShippedWord(PageAt(pbase, k), flags)
  {
    AllAligned(pbase);
    seq(n, k requires 0 <= k < n => ShippedWord(PageAt(pbase, k), flags))
  }

  lemma AllAligned(pbase: nat)
    requires pbase % 0x1000 == 0
    ensures forall k: nat :: PageAt(pbase, k) % 0x1000 == 0
  {
    forall k: nat ensures PageAt(pbase, k) % 0x1000 == 0 { PageAtAligned(pbase, k); }
  }

  /** Every bit set in `q` is set in `p`. */
  predicate Covers(p: nat, q: nat)
    decreases q
  {
    q == 0 || ((q % 2 == 1 ==> p % 2 == 1) && Covers(p / 2, q / 2))
  }

  lemma {:induction false} BitOrCovers(p: nat, q: nat)
    ensures BitOr(p, q) == p <==> Covers(p, q)
    decreases p + q
  {
    if p != 0 && q != 0 {
      BitOrCovers(p / 2, q / 2);
    } else if q != 0 {
      NothingCovers(q);
    }
  }

  lemma {:induction false} NothingCovers(q: nat)
    requires q > 0
    ensures !Covers(0, q)
    decreases q
  {
    if q % 2 == 0 { NothingCovers(q / 2); }
  }

  function Pow2(k: nat): (n: nat)
    ensures n > 0
  {
    if k == 0 then 1 else 2 * Pow2(k - 1)
  }

  lemma {:induction false} BitOrBound(p: nat, q: nat, k: nat)
    requires p < Pow2(k) && q < Pow2(k)
    ensures BitOr(p, q) < Pow2(k)
    decreases k
  {
    if p > 0 && q > 0 { BitOrBound(p / 2, q / 2, k - 1); }
  }

  lemma ThreeBits(k: nat)
    ensures Pow2(k + 3) == 8 * Pow2(k)
  {
    assert Pow2(k + 2) == 2 * Pow2(k + 1);
  }

  lemma Bits21(k: nat)
    ensures Pow2(k + 21) == 0x20_0000 * Pow2(k)
  {
    ThreeBits(k);
    ThreeBits(k + 3);
    ThreeBits(k + 6);
    ThreeBits(k + 9);
    ThreeBits(k + 12);
    ThreeBits(k + 15);
    ThreeBits(k + 18);
  }

  lemma WordBits()
    ensures Pow2(63) == TWO63
  {
    Bits21(0);
    Bits21(21);
    Bits21(42);
  }

  /** Which flag combinations the shipped call happens to encode right: valid and dirty set, the top bit
      clear, and each of the other defined bits agreeing with the hardware bit that stands for it. */
  predicate EncodesItself(f: bv64) {
    && f & 0x200 != 0 && f & 0x40 != 0 && f & PF_NX == 0
    && (f & 0x1000 != 0 <==> f & 0x10 != 0) && (f & 0x10 != 0 <==> f & 0x400 == 0)
    && (f & 0x100 != 0 <==> f & 0x20 != 0) && (f & 0x20 != 0 <==> f & 0x2 != 0)
    && (f & 0x2000 != 0 <==> f & 0x8 != 0) && (f & 0x80 != 0 <==> f & 0x4 != 0)
  }

  lemma ShippedFlags(f: bv64)
    requires Present(f)
    ensures CookedFlags(f & PF_BITS) == f & PAGE_DEFINED <==> EncodesItself(f)
    ensures f & PF_BITS & PF_PRES != 0
  {
  }

  /** Offset `d` of a page given the shipped word. */
  lemma ShippedLeaf(pbase: nat, flags: bv64, a: nat, d: nat)
    requires pbase % 0x1000 == 0 && pbase < TWO64 && Present(flags) && a % 0x1000 == d
    ensures var h := LeafHit(ShippedWord(pbase, flags));
      TransOf(h, a) == pbase + d && CookedFlags(FlagsOf(h)) == flags & PAGE_DEFINED <==>
      pbase < TWO63 && Covers(pbase, HighBits(flags)) && EncodesItself(flags)
  {
    if pbase < TWO63 { ShippedLeafFlags(pbase, flags, a, d); }
    ShippedLeafTrans(pbase, flags, a, d);
  }

  lemma ShippedLeafFlags(pbase: nat, flags: bv64, a: nat, d: nat)
    requires pbase % 0x1000 == 0 && pbase < TWO63 && Present(flags) && a % 0x1000 == d
    ensures CookedFlags(FlagsOf(LeafHit(ShippedWord(pbase, flags)))) == flags & PAGE_DEFINED <==> EncodesItself(flags)
  {
    ShippedFlags(flags);
    ShippedHit(pbase, flags, a, d);
  }

  lemma ShippedLeafTrans(pbase: nat, flags: bv64, a: nat, d: nat)
    requires pbase % 0x1000 == 0 && pbase < TWO64 && Present(flags) && a % 0x1000 == d
    ensures TransOf(LeafHit(ShippedWord(pbase, flags)), a) == pbase + d <==> pbase < TWO63 && Covers(pbase, HighBits(flags))
  {
    ShippedHit(pbase, flags, a, d);
    BelowTopBit(pbase);
    ShippedTrans(pbase, pbase % TWO63, HighBits(flags), d);
  }

  lemma BelowTopBit(p: nat)
    requires p < TWO64
    ensures p % TWO63 == if p < TWO63 then p else p - TWO63
  {
  }

  lemma ShippedHit(pbase: nat, flags: bv64, a: nat, d: nat)
    requires pbase % 0x1000 == 0 && pbase < TWO64 && Present(flags) && a % 0x1000 == d
    ensures var h := LeafHit(ShippedWord(pbase, flags));
      && TransOf(h, a) == (BitOr(pbase % TWO63, HighBits(flags)) + d) % TWO64
      && (pbase < TWO63 ==> FlagsOf(h) == flags & PF_BITS)
  {
    ShippedFlags(flags);
    OrPresent(if pbase >= TWO63 then PF_NX else 0, flags & PF_BITS);
    OrNothing(flags & PF_BITS);
    PresentLeaf(ShippedWord(pbase, flags), a, d);
  }

  lemma PresentLeaf(w: Word, a: nat, d: nat)
    requires Pres(w) && a % 0x1000 == d
    ensures TransOf(LeafHit(w), a) == (w.frame + d) % TWO64 && FlagsOf(LeafHit(w)) == w.flags
  {
    assert Span(1) == 0x1000;
  }

  lemma ShippedOr(x: nat, h: nat)
    requires x < TWO63 && h < TWO63
    ensures BitOr(x, h) < TWO63 && (BitOr(x, h) == x <==> Covers(x, h))
  {
    WordBits();
    BitOrBound(x, h, 63);
    BitOrCovers(x, h);
  }

  /** The frame `BitOr(x, h)`, with `x` the part of `p` below bit 63, leads to `p` again. */
  lemma ShippedTrans(p: nat, x: nat, h: nat, d: nat)
    requires x < TWO63 && h < TWO63
    requires p < TWO64 && d < 0x1000 && x == if p < TWO63 then p else p - TWO63
    ensures (BitOr(x, h) + d) % TWO64 == p + d <==> p < TWO63 && Covers(p, h)
  {
    ShippedOr(x, h);
    FrameReads(BitOr(x, h), x, p, d);
  }

  lemma FrameReads(b: nat, x: nat, p: nat, d: nat)
    requires b < TWO63 && p < TWO64 && d < 0x1000 && x == if p < TWO63 then p else p - TWO63
    ensures (b + d) % TWO64 == p + d <==> p < TWO63 && b == x
  {
  }

  /** The shipped call reads back what was set, at any offset of the page, exactly when bit 63 of the frame
      is clear, the frame already has the bits 12..62 of the flags, and the flags encode themselves. */
  lemma ShippedRoundTrip(t: Tables, lev: Levels, vaddr: nat, pbase: nat, flags: bv64, o: nat)
    requires Tree(t, lev) && vaddr % 0x1000 == 0 && pbase % 0x1000 == 0 && pbase < TWO64 && o < 0x1000
    requires Present(flags) && SetPage(t, vaddr, ShippedWord(pbase, flags)).code == 0
    ensures var h := Resolve(SetPage(t, vaddr, ShippedWord(pbase, flags)).tables, vaddr + o);
      TransOf(h, vaddr + o) == pbase + o && CookedFlags(FlagsOf(h)) == flags & PAGE_DEFINED <==>
      pbase < TWO63 && Covers(pbase, HighBits(flags)) && EncodesItself(flags)
  {
    OffsetInPage(vaddr, o);
    SetPageReaches(t, lev, vaddr, ShippedWord(pbase, flags), vaddr + o);
    ShippedLeaf(pbase, flags, vaddr + o, o);
  }

  /** The shipped entry of physical page `p` reads back what was asked for. */
  ghost predicate ShippedRight(p: nat, flags: bv64) {
    p < TWO63 && Covers(p, HighBits(flags)) && EncodesItself(flags)
  }

  /** A whole region: after a shipped call that succeeds, each offset is mapped as asked exactly when that
      holds of its page. */
  lemma ShippedRegion(t: Tables, lev: Levels, vbase: nat, pbase: nat, flags: bv64, n: nat)
    requires Tree(t, lev) && n <= 0x10_0000_0000
    requires vbase % 0x1000 == 0 && pbase % 0x1000 == 0 && Present(flags)
    ensures var r := SetRegion(t, vbase, ShippedWords(pbase, flags, n), 0);
      r.code == 0 ==> forall o :: 0 <= o < n * 0x1000 ==>
        (Mapped(r.tables, vbase, pbase, flags, o) <==> ShippedRight(PageAt(pbase, o / 0x1000), flags))
  {
    var w := ShippedWords(pbase, flags, n);
    var r := SetRegion(t, vbase, w, 0);
    SetRegionDone(t, vbase, w, 0);
    SetRegionIsUpdate(t, lev, vbase, w, 0);
    if r.code == 0 {
      forall o | 0 <= o < n * 0x1000
        ensures Mapped(r.tables, vbase, pbase, flags, o) <==> ShippedRight(PageAt(pbase, o / 0x1000), flags)
      {
        ShippedOffset(t, r.tables, vbase, pbase, flags, n, o);
      }
    }
  }

  lemma ShippedOffset(t: Tables, t1: Tables, vbase: nat, pbase: nat, flags: bv64, n: nat, o: nat)
    requires vbase % 0x1000 == 0 && pbase % 0x1000 == 0 && o < n * 0x1000 && n <= 0x10_0000_0000
    requires Present(flags) && RegionSet(t, t1, vbase, ShippedWords(pbase, flags, n), 0, n)
    ensures Mapped(t1, vbase, pbase, flags, o) <==> ShippedRight(PageAt(pbase, o / 0x1000), flags)
  {
    var a, p, k, d := (vbase + o) % TWO64, (pbase + o) % TWO64, o / 0x1000, o % 0x1000;
    assert a % 0x1000 == d by { OffsetPage(vbase, o); }
    assert p == PageAt(pbase, k) + d && PageAt(pbase, k) % 0x1000 == 0 by { OffsetSum(pbase, o); }
    RegionReaches(t, t1, vbase, ShippedWords(pbase, flags, n), o);
    ShippedLeaf(PageAt(pbase, k), flags, a, d);
  }

  /** `page_set` as it is shipped. */
  method ShippedPageSet(ctx: PageContext, vbase: nat, pbase: nat, flags: bv64, size: nat) returns (ok: bool)
    requires ctx.Valid()
    requires vbase % 0x1000 == 0 && pbase % 0x1000 == 0 && size % 0x1000 == 0 ==>
      SetRegion(ctx.T(), vbase, ShippedWords(pbase, flags, size / 0x1000), 0).code != 2
    modifies ctx
    ensures ctx.Valid()
    ensures vbase % 0x1000 == 0 && pbase % 0x1000 == 0 && size % 0x1000 == 0 ==>
      var r := SetRegion(old(ctx.T()), vbase, ShippedWords(pbase, flags, size / 0x1000), 0);
      ctx.T() == r.tables && ok == (r.code == 0)
    ensures !(vbase % 0x1000 == 0 && pbase % 0x1000 == 0 && size % 0x1000 == 0) ==> !ok && ctx.T() == old(ctx.T())
  {
    if vbase % 0x1000 != 0 || pbase % 0x1000 != 0 || size % 0x1000 != 0 {
      return false;
    }
    ok := PageLoop(ctx, vbase, pbase, ShippedFlagWord(flags), ShippedWords(pbase, flags, size / 0x1000), size);
  }

  /** Readable and executable: an ordinary request that never reads back right. Executable only, with bits
      0x600, is one that does on every frame below bit 63. */
  lemma ShippedInputs()
    ensures Present(PAGE_VALID | PAGE_READ | PAGE_EXEC) && !EncodesItself(PAGE_VALID | PAGE_READ | PAGE_EXEC)
    ensures Present(0x641) && EncodesItself(0x641) && HighBits(0x641) == 0
  {
  }
}

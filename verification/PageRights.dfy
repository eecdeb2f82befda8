/** What the processor lets an address do: it combines the rights of every entry of the walk, as the
    page-protection checks in the AMD64 Architecture Programmer's Manual, Volume 2, say. */
module PageRights {
  import opened PageWords
  import opened PageTree
  import opened PageMemory
  import opened PageApi

  datatype Access = Access(write: bool, user: bool, exec: bool)

  const ALL := Access(true, true, true)
  const NOTHING := Access(false, false, false)

  function Own(w: Word): Access {
    Access(w.flags & PF_WRITE != 0, w.flags & PF_USER != 0, w.flags & PF_NX == 0)
  }

  function Both(a: Access, b: Access): Access { Access(a.write && b.write, a.user && b.user, a.exec && b.exec) }

  /** The rights of every entry of the walk of `a` from table `f`, none where it ends at nothing. */
  function AccessFrom(t: Tables, f: nat, l: nat, a: nat): Access
    requires 1 <= l <= 4
    decreases l
  {
    var e := Entry(t, f, l, a);
    if !Pres(e) then NOTHING
    else if Large(e) || l == 1 then Own(e)
    else Both(Own(e), AccessFrom(t, e.frame, l - 1, a))
  }

  function AccessAt(t: Tables, a: nat): Access { AccessFrom(t, t.root, LEVELS, a) }

  // ---------------------------------------------------------------- directory entries

  /** The rights of the directory entries of the walk alone. */
  function Dirs(t: Tables, f: nat, l: nat, a: nat): Access
    requires 1 <= l <= 4
    decreases l
  {
    var e := Entry(t, f, l, a);
    if Dir(e) && l > 1 then Both(Own(e), Dirs(t, e.frame, l - 1, a)) else ALL
  }

  lemma {:induction false} AccessIs(t: Tables, f: nat, l: nat, a: nat)
    requires 1 <= l <= 4
    ensures AccessFrom(t, f, l, a) ==
      var h := Walk(t, f, l, a); if h.Miss? then NOTHING else Both(Dirs(t, f, l, a), Own(h.word))
    decreases l
  {
    var e := Entry(t, f, l, a);
    if Dir(e) && l > 1 { AccessIs(t, e.frame, l - 1, a); }
  }

  lemma {:induction false} AddTableDirs(t: Tables, lev: Levels, f: nat, i: nat, g: nat, l: nat, b: nat)
    requires Tree(t, lev) && f in lev && lev[f] > l && i < 512 && t.pool != []
    requires g in lev && lev[g] == l && 1 <= l <= 4
    ensures Dirs(AddTable(t, f, i), g, l, b) == Dirs(t, g, l, b)
    decreases l
  {
    if l > 1 {
      assert EntryOk(t, lev, g, Idx(b, l));
      if Dir(t.mem[g][Idx(b, l)]) { AddTableDirs(t, lev, f, i, t.mem[g][Idx(b, l)].frame, l - 1, b); }
    }
  }

  /** No call takes a right away in the directories: the rights they leave to any address stay as they are. */
  lemma {:induction false} SetFromDirs(t: Tables, lev: Levels, f: nat, l: nat, a: nat, w: Word, g: nat, b: nat)
    requires Tree(t, lev) && f in lev && lev[f] == l && 1 <= l <= 4 && g in lev && lev[g] == l
    ensures Dirs(SetFrom(t, f, l, a, w).tables, g, l, b) == Dirs(t, g, l, b)
    decreases l
  {
    if l > 1 {
      if !Pres(t.mem[f][Idx(a, l)]) {
        if t.pool != [] { SetFromDirsNew(t, lev, f, l, a, w, g, b); }
      } else if !Large(t.mem[f][Idx(a, l)]) {
        SetFromDirsOld(t, lev, f, l, a, w, g, b);
      }
    }
  }

  lemma {:induction false} SetFromDirsOld(t: Tables, lev: Levels, f: nat, l: nat, a: nat, w: Word, g: nat, b: nat)
    requires Tree(t, lev) && f in lev && lev[f] == l && 1 < l <= 4 && g in lev && lev[g] == l
    requires Dir(t.mem[f][Idx(a, l)])
    ensures Dirs(SetFrom(t, f, l, a, w).tables, g, l, b) == Dirs(t, g, l, b)
    decreases l, 0
  {
    var i, j := Idx(a, l), Idx(b, l);
    SameEntry(t, lev, f, l, a, w, g, b);
    assert EntryOk(t, lev, f, i) && EntryOk(t, lev, g, j);
    if Dir(t.mem[g][j]) { SetFromDirs(t, lev, t.mem[f][i].frame, l - 1, a, w, t.mem[g][j].frame, b); }
  }

  lemma {:induction false} SetFromDirsNew(t: Tables, lev: Levels, f: nat, l: nat, a: nat, w: Word, g: nat, b: nat)
    requires Tree(t, lev) && f in lev && lev[f] == l && 1 < l <= 4 && g in lev && lev[g] == l
    requires t.pool != [] && !Pres(t.mem[f][Idx(a, l)])
    ensures Dirs(SetFrom(t, f, l, a, w).tables, g, l, b) == Dirs(t, g, l, b)
    decreases l, 0
  {
    var i, j, n := Idx(a, l), Idx(b, l), t.pool[0];
    var t0, lev0 := AddTable(t, f, i), AddLevel(t, lev, l - 1);
    AddTableTree(t, lev, f, i);
    SetFromUpper(t0, lev0, n, l - 1, a, w, g);
    assert EntryOk(t, lev, g, j);
    if g == f && i == j {
      NewDirRights(n);
      ZeroAbsent();
      SetFromDirs(t0, lev0, n, l - 1, a, w, n, b);
    } else if Dir(t.mem[g][j]) {
      var c := t.mem[g][j].frame;
      SetFromDirs(t0, lev0, n, l - 1, a, w, c, b);
      AddTableDirs(t, lev, f, i, c, l - 1, b);
    }
  }

  lemma NewDirRights(n: nat)
    ensures Own(DirWord(n)) == ALL && Dir(DirWord(n))
  {
  }

  // ---------------------------------------------------------------- a paging context

  /** The directories leave every address write and execute rights, and user rights in the lower half. */
  ghost predicate DirRights(t: Tables) { forall a: nat :: Dirs(t, t.root, LEVELS, a) == Access(true, Idx(a, 4) < 256, true) }

  lemma InitRights(t: Tables, q: seq<nat>)
    requires InitShape(t, q)
    ensures DirRights(t)
  {
    forall a: nat ensures Dirs(t, t.root, LEVELS, a) == Access(true, Idx(a, 4) < 256, true) { InitDirsAt(t, q, a); }
  }

  lemma InitDirsAt(t: Tables, q: seq<nat>, a: nat)
    requires InitShape(t, q)
    ensures Dirs(t, t.root, LEVELS, a) == Access(true, Idx(a, 4) < 256, true)
  {
    var i := Idx(a, 4);
    ZeroAbsent();
    if i >= 256 {
      TopRights(q[i - 255]);
      TopRights(q[257]);
      WindowEntryFlags(Idx(a, 2));
      assert Dirs(t, t.root, LEVELS, a) == Both(Own(TopWord(q[i - 255])), Dirs(t, q[i - 255], 3, a));
    }
  }

  lemma TopRights(f: nat)
    ensures Own(TopWord(f)) == Access(true, false, true) && Dir(TopWord(f))
  {
  }

  /** `pcx_set_frame` in the processor's terms: after a success with a present entry the page has exactly the
      entry's rights, user rights only in the lower half; every other page has the rights it had, and after a
      failure every page. */
  lemma SetPageRights(t: Tables, lev: Levels, a: nat, w: Word) returns (lev1: Levels)
    requires Tree(t, lev) && DirRights(t)
    ensures var r := SetPage(t, a, w);
      && Tree(r.tables, lev1) && DirRights(r.tables)
      && (r.code == 0 && Pres(w) ==> forall b :: PageOf(b) == PageOf(a) ==>
           AccessAt(r.tables, b) == Access(w.flags & PF_WRITE != 0, w.flags & PF_USER != 0 && Idx(b, 4) < 256, w.flags & PF_NX == 0))
      && (forall b :: r.code != 0 || PageOf(b) != PageOf(a) ==> AccessAt(r.tables, b) == AccessAt(t, b))
  {
    var r := SetPage(t, a, w);
    lev1 := SetPageIsUpdate(t, lev, a, w);
    forall b: nat ensures Dirs(r.tables, r.tables.root, LEVELS, b) == Access(true, Idx(b, 4) < 256, true) {
      SetPageDirs(t, lev, a, w, b);
    }
    forall b ensures AccessAt(r.tables, b) == var h := Resolve(r.tables, b);
      if h.Miss? then NOTHING else Both(Access(true, Idx(b, 4) < 256, true), Own(h.word))
    {
      AccessIs(r.tables, r.tables.root, LEVELS, b);
    }
    forall b ensures AccessAt(t, b) == var h := Resolve(t, b);
      if h.Miss? then NOTHING else Both(Access(true, Idx(b, 4) < 256, true), Own(h.word))
    {
      AccessIs(t, t.root, LEVELS, b);
    }
  }

  lemma SetPageDirs(t: Tables, lev: Levels, a: nat, w: Word, b: nat)
    requires Tree(t, lev)
    ensures var t1 := SetPage(t, a, w).tables; Dirs(t1, t1.root, LEVELS, b) == Dirs(t, t.root, LEVELS, b)
  {
    var _ := SetFromTree(t, lev, t.root, LEVELS, a, w);
    SetFromDirs(t, lev, t.root, LEVELS, a, w, t.root, b);
  }

  /** Whatever calls were made, the directories never decide more than user access, and that by the half. */
  lemma {:induction false} RightsSurvive(t: Tables, lev: Levels, calls: seq<(nat, Word)>)
    requires Tree(t, lev) && DirRights(t)
    ensures DirRights(SetPages(t, calls))
    decreases |calls|
  {
    if calls != [] {
      var lev1 := SetPageRights(t, lev, calls[0].0, calls[0].1);
      RightsSurvive(SetPage(t, calls[0].0, calls[0].1).tables, lev1, calls[1..]);
    }
  }

  /** The rights of an address are those of its leaf, without user access in the upper half. */
  lemma LeafRights(t: Tables, a: nat)
    requires DirRights(t)
    ensures AccessAt(t, a) == var h := Resolve(t, a);
      if h.Miss? then NOTHING
      else Access(h.word.flags & PF_WRITE != 0, h.word.flags & PF_USER != 0 && Idx(a, 4) < 256, h.word.flags & PF_NX == 0)
  {
    AccessIs(t, t.root, LEVELS, a);
  }

  // ---------------------------------------------------------------- page_set

  /** What the caller of `page_set` asks for: to write, to run, and to let users in. */
  function Asked(flags: bv64): Access {
    Access(flags & PAGE_WRITE != 0, flags & PAGE_USER != 0, flags & PAGE_EXEC != 0)
  }

  lemma EncodedRights(flags: bv64)
    requires Present(flags)
    ensures var raw := RawFlags(flags);
      && (raw & PF_WRITE != 0 <==> flags & PAGE_WRITE != 0) && (raw & PF_USER != 0 <==> flags & PAGE_USER != 0)
      && (raw & PF_NX == 0 <==> flags & PAGE_EXEC != 0)
      && ((PF_NX | raw) & PF_WRITE == raw & PF_WRITE) && ((PF_NX | raw) & PF_USER == raw & PF_USER) && (PF_NX | raw) & PF_NX != 0
  {
  }

  /** After a present `page_set` that succeeds every address of the region has the rights asked for, user access
      in the lower half only, and execute access only if bit 63 of the physical address is clear. */
  lemma PageSetRights(t: Tables, lev: Levels, vbase: nat, pbase: nat, flags: bv64, n: nat, o: nat)
    requires Tree(t, lev) && DirRights(t) && n <= 0x10_0000_0000 && o < n * 0x1000
    requires vbase % 0x1000 == 0 && pbase % 0x1000 == 0 && Present(flags)
    requires SetRegion(t, vbase, RegionWords(pbase, RawFlags(flags), n), 0).code == 0
    ensures var r, a, p := SetRegion(t, vbase, RegionWords(pbase, RawFlags(flags), n), 0), (vbase + o) % TWO64, (pbase + o) % TWO64;
      AccessAt(r.tables, a) ==
        Access(Asked(flags).write, Asked(flags).user && Idx(a, 4) < 256, Asked(flags).exec && p < TWO63)
  {
    var w := RegionWords(pbase, RawFlags(flags), n);
    var r, a := SetRegion(t, vbase, w, 0), (vbase + o) % TWO64;
    SetRegionDone(t, vbase, w, 0);
    SetRegionIsUpdate(t, lev, vbase, w, 0);
    RegionReaches(t, r.tables, vbase, w, o);
    SetRegionDirs(t, lev, vbase, w, 0);
    LeafRights(r.tables, a);
    RegionLeafRights(pbase, flags, o);
  }

  lemma RegionLeafRights(pbase: nat, flags: bv64, o: nat)
    requires pbase % 0x1000 == 0 && Present(flags)
    ensures var w := RegionWord(pbase, RawFlags(flags), o / 0x1000);
      && LeafHit(w) == Hit(1, w)
      && Own(w) == Access(Asked(flags).write, Asked(flags).user, Asked(flags).exec && (pbase + o) % TWO64 < TWO63)
  {
    var k := o / 0x1000;
    OffsetSum(pbase, o);
    LeafOffset(PageAt(pbase, k), o % 0x1000);
    RawFlagsPresent(flags);
    OrPresent(if PageAt(pbase, k) >= TWO63 then PF_NX else 0, RawFlags(flags));
    OrNothing(RawFlags(flags));
    EncodedRights(flags);
  }

  lemma {:induction false} SetRegionDirs(t: Tables, lev: Levels, vbase: nat, w: seq<Word>, k: nat)
    requires Tree(t, lev) && DirRights(t) && k <= |w|
    ensures DirRights(SetRegion(t, vbase, w, k).tables)
    decreases |w| - k
  {
    if k < |w| {
      var lev1 := SetPageRights(t, lev, PageAt(vbase, k), w[k]);
      var s := SetPage(t, PageAt(vbase, k), w[k]);
      if s.code == 0 { SetRegionDirs(s.tables, lev1, vbase, w, k + 1); }
    }
  }

  // ---------------------------------------------------------------- the kernel window

  /** The window is writable, executable and closed to users, and uncached exactly from the device half on. */
  lemma WindowRights(t: Tables, a: nat)
    requires Window(t) && DirRights(t) && KERNEL_BASE <= a < TWO64
    ensures AccessAt(t, a) == Access(true, false, true)
    ensures var h := Resolve(t, a);
      && h.Hit? && h.level == 2 && h.word.flags & PF_GLOBL != 0
      && (h.word.flags & PF_PCD != 0 <==> a >= KERNEL_BASE + 0x2000_0000)
  {
    LeafRights(t, a);
    WindowIndices(a);
    WindowHalf(a);
    WindowEntryRights(Idx(a, 2));
  }

  lemma WindowHalf(a: nat)
    requires KERNEL_BASE <= a < TWO64
    ensures Idx(a, 2) >= 256 <==> a >= KERNEL_BASE + 0x2000_0000
  {
    assert KERNEL_BASE == 0x7FFF_FFFF_E00 * 0x20_0000;
    assert a / 0x20_0000 == 0x7FFF_FFFF_E00 + (a - KERNEL_BASE) / 0x20_0000;
  }

  lemma WindowEntryRights(i: nat)
    ensures var f := WindowEntry(i).flags;
      && f & PF_WRITE != 0 && f & PF_USER == 0 && f & PF_NX == 0 && f & PF_GLOBL != 0 && (f & PF_PCD != 0 <==> i >= 256)
  {
  }
}

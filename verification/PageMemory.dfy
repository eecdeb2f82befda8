/** `page.c` updating the tables in place, and the window through which the kernel sees them. */
module PageMemory {
  import opened PageWords
  import opened PageTree

  const KERNEL_BASE: nat := 0xFFFF_FFFF_C000_0000

  /** `pmm_vaddr`: where a physical address is visible to the kernel; 0 when it is not. */
  function Vaddr(p: nat): nat {
    if p < 0x2000_0000 then p + KERNEL_BASE
    else if 0xE000_0000 < p < 0x1_0000_0000 then p - 0xE000_0000 + KERNEL_BASE + 0x2000_0000
    else 0
  }

  /** Entry `i` of the level-2 table that maps the window with 2 MiB pages. */
  function WindowEntry(i: nat): Word {
    if i < 256 then Word(i * 0x20_0000, PF_VALID | PF_PRES | PF_WRITE | PF_LARGE | PF_GLOBL)
    else Word(i * 0x20_0000 + 0xC000_0000, PF_VALID | PF_PRES | PF_WRITE | PF_LARGE | PF_GLOBL | PF_PCD)
  }

  /** Every address of the kernel window resolves to its large page. */
  ghost predicate Window(t: Tables) {
    forall a :: KERNEL_BASE <= a < TWO64 ==> Resolve(t, a) == Hit(2, WindowEntry(Idx(a, 2)))
  }

  lemma WindowEntryFlags(i: nat)
    ensures Pres(WindowEntry(i)) && Large(WindowEntry(i))
  {
  }

  /** Translating the window address of `p` gives `p` back. */
  lemma WindowInvertsVaddr(t: Tables, p: nat)
    requires Window(t) && Vaddr(p) != 0
    ensures TransOf(Resolve(t, Vaddr(p)), Vaddr(p)) == p
  {
    var a := Vaddr(p);
    var d := a - KERNEL_BASE;
    assert a / 0x20_0000 == 0x7FFF_FFFF_E00 + d / 0x20_0000 && a % 0x20_0000 == d % 0x20_0000 by {
      assert KERNEL_BASE == 0x7FFF_FFFF_E00 * 0x20_0000;
    }
    assert Idx(a, 2) == d / 0x20_0000;
    assert d == d / 0x20_0000 * 0x20_0000 + d % 0x20_0000;
  }

  /** What the kernel can see: the first 512 MiB, and what lies above 3.5 GiB and below 4 GiB. */
  lemma VaddrVisible(p: nat)
    ensures Vaddr(p) != 0 <==> p < 0x2000_0000 || 0xE000_0000 < p < 0x1_0000_0000
  {
  }

  /** The other way round: every window address but one is the one under which its frame is visible. The first
      device address is mapped and yet never handed out. */
  lemma VaddrInvertsWindow(t: Tables, a: nat)
    requires Window(t) && KERNEL_BASE <= a < TWO64
    ensures Vaddr(TransOf(Resolve(t, a), a)) == a <==> a != KERNEL_BASE + 0x2000_0000
  {
    WindowTrans(t, a);
  }

  lemma WindowTrans(t: Tables, a: nat)
    requires Window(t) && KERNEL_BASE <= a < TWO64
    ensures TransOf(Resolve(t, a), a) ==
      if a < KERNEL_BASE + 0x2000_0000 then a - KERNEL_BASE else a - KERNEL_BASE + 0xC000_0000
  {
    var d := a - KERNEL_BASE;
    assert a / 0x20_0000 == 0x7FFF_FFFF_E00 + d / 0x20_0000 && a % 0x20_0000 == d % 0x20_0000 by {
      assert KERNEL_BASE == 0x7FFF_FFFF_E00 * 0x20_0000;
    }
    assert Idx(a, 2) == d / 0x20_0000;
    assert d == d / 0x20_0000 * 0x20_0000 + d % 0x20_0000;
  }

  lemma WindowIndices(a: nat)
    requires KERNEL_BASE <= a < TWO64
    ensures Idx(a, 4) == 511 && Idx(a, 3) == 511
  {
  }

  /** No call can damage the window: one aimed at it is refused before writing, one aimed elsewhere
      does not touch it. */
  lemma SetPageKeepsWindow(t: Tables, lev: Levels, a: nat, w: Word)
    requires Tree(t, lev) && Window(t)
    ensures Window(SetPage(t, a, w).tables)
    ensures KERNEL_BASE <= a < TWO64 ==> SetPage(t, a, w) == SetResult(t, 1)
  {
    var _ := SetPageIsUpdate(t, lev, a, w);
    var t1 := SetPage(t, a, w).tables;
    forall b | KERNEL_BASE <= b < TWO64 ensures Resolve(t1, b) == Hit(2, WindowEntry(Idx(b, 2))) {
      if PageOf(a) == PageOf(b) { SamePageSameResolve(t, a, b); }
    }
  }

  lemma {:induction false} SameIdxSameWalk(t: Tables, f: nat, l: nat, a: nat, b: nat)
    requires 1 <= l <= 4 && SameIdx(a, b, l)
    ensures Walk(t, f, l, a) == Walk(t, f, l, b)
    decreases l
  {
    var e := Entry(t, f, l, a);
    if Dir(e) && l > 1 { SameIdxSameWalk(t, e.frame, l - 1, a, b); }
  }

  lemma SamePageSameResolve(t: Tables, a: nat, b: nat)
    requires PageOf(a) == PageOf(b)
    ensures Resolve(t, a) == Resolve(t, b)
  {
    SamePageSameIdx(a, b);
    SameIdxSameWalk(t, t.root, LEVELS, a, b);
  }

  /** A sequence of `pcx_set_frame` calls. */
  function SetPages(t: Tables, calls: seq<(nat, Word)>): Tables
    decreases |calls|
  {
    if calls == [] then t else SetPages(SetPage(t, calls[0].0, calls[0].1).tables, calls[1..])
  }

  /** After any number of calls the window still inverts `pmm_vaddr`. */
  lemma {:induction false} WindowSurvives(t: Tables, lev: Levels, calls: seq<(nat, Word)>, p: nat)
    requires Tree(t, lev) && Window(t) && Vaddr(p) != 0
    ensures TransOf(Resolve(SetPages(t, calls), Vaddr(p)), Vaddr(p)) == p
    decreases |calls|
  {
    if calls == [] {
      WindowInvertsVaddr(t, p);
    } else {
      var lev1 := SetPageIsUpdate(t, lev, calls[0].0, calls[0].1);
      SetPageKeepsWindow(t, lev, calls[0].0, calls[0].1);
      WindowSurvives(SetPage(t, calls[0].0, calls[0].1).tables, lev1, calls[1..], p);
    }
  }

  // ---------------------------------------------------------------- large pages

  /** Large pages stand in the kernel window and nowhere else. */
  ghost predicate LargeIsWindow(t: Tables) {
    forall b :: Resolve(t, b).Hit? && Resolve(t, b).level > 1 <==> PageOf(b) >= PageOf(KERNEL_BASE)
  }

  lemma SetPageKeepsLargeIsWindow(t: Tables, lev: Levels, a: nat, w: Word)
    requires Tree(t, lev) && LargeIsWindow(t)
    ensures LargeIsWindow(SetPage(t, a, w).tables)
    ensures SetPage(t, a, w).code == 1 <==> PageOf(a) >= PageOf(KERNEL_BASE)
  {
    var _ := SetPageIsUpdate(t, lev, a, w);
    var t1 := SetPage(t, a, w).tables;
    forall b ensures Resolve(t1, b).Hit? && Resolve(t1, b).level > 1 <==> PageOf(b) >= PageOf(KERNEL_BASE) {
      if PageOf(a) == PageOf(b) { SamePageSameResolve(t, a, b); }
    }
  }

  /** In every paging context: whatever calls were made, large pages stand in the window only. */
  lemma {:induction false} LargeSurvives(t: Tables, lev: Levels, calls: seq<(nat, Word)>) returns (lev1: Levels)
    requires Tree(t, lev) && LargeIsWindow(t)
    ensures Tree(SetPages(t, calls), lev1) && LargeIsWindow(SetPages(t, calls))
    decreases |calls|
  {
    if calls == [] {
      lev1 := lev;
    } else {
      var lev2 := SetPageIsUpdate(t, lev, calls[0].0, calls[0].1);
      SetPageKeepsLargeIsWindow(t, lev, calls[0].0, calls[0].1);
      lev1 := LargeSurvives(SetPage(t, calls[0].0, calls[0].1).tables, lev2, calls[1..]);
    }
  }

  // ---------------------------------------------------------------- pcx_init

  function TopWord(f: nat): Word { Word(f, PF_PRES | PF_WRITE) }

  lemma TopWordFlags(f: nat)
    ensures Dir(TopWord(f)) && !Dir(ZERO)
  {
  }

  /** What `pcx_init` leaves behind, given the frames `q` it drew: the root, 256 level-3 tables for the
      upper half, and one level-2 table of large pages under the last of them. */
  ghost predicate InitShape(t: Tables, q: seq<nat>) {
    && |q| >= 258 && t.root == q[0] && t.pool == q[258..]
    && (forall k :: 0 <= k < |q| ==> q[k] in t.mem)
    && (forall k, m :: 0 <= k < m < |q| ==> q[k] != q[m])
    && (forall i :: 0 <= i < 256 ==> t.mem[q[0]][i] == ZERO)
    && (forall i :: 256 <= i < 512 ==> t.mem[q[0]][i] == TopWord(q[i - 255]))
    && (forall k :: 1 <= k < 256 ==> t.mem[q[k]] == ZERO_TABLE)
    && t.mem[q[256]] == ZERO_TABLE[511 := TopWord(q[257])]
    && (forall i :: 0 <= i < 512 ==> t.mem[q[257]][i] == WindowEntry(i))
  }

  ghost function InitLevel(q: seq<nat>, f: nat): nat
    requires |q| >= 258
  {
    if f == q[0] then 4 else if f == q[257] then 2 else 3
  }

  ghost function InitLevels(q: seq<nat>): Levels
    requires |q| >= 258
  {
    map f | f in q[..258] :: InitLevel(q, f)
  }

  /** The only directory entries are the upper half of the root and the last entry of its last child. */
  lemma InitDirs(t: Tables, q: seq<nat>, f: nat, i: nat)
    requires InitShape(t, q) && f in q[..258] && i < 512 && Dir(t.mem[f][i])
    ensures (f == q[0] && i >= 256 && t.mem[f][i].frame == q[i - 255])
         || (f == q[256] && i == 511 && t.mem[f][i].frame == q[257])
  {
  }

  ghost predicate InFrames(mem: map<nat, Table>, q: seq<nat>) { forall k :: 0 <= k < |q| ==> q[k] in mem }

  /** The root has `n` upper-half entries, to zeroed tables. */
  ghost predicate Children(mem: map<nat, Table>, q: seq<nat>, n: nat)
    requires InFrames(mem, q) && n <= 256 && |q| >= 258
  {
    && (forall i :: 0 <= i < 512 ==> mem[q[0]][i] == if 256 <= i < n + 256 then TopWord(q[i - 255]) else ZERO)
    && (forall k :: 1 <= k < n + 1 ==> mem[q[k]] == ZERO_TABLE)
  }

  lemma InitTree(t: Tables, q: seq<nat>)
    requires InitShape(t, q)
    ensures Tree(t, InitLevels(q))
  {
    var lev := InitLevels(q);
    assert forall k :: 0 <= k < 258 ==> q[..258][k] == q[k] && q[..258][k] in q[..258];
    assert forall f :: f in lev <==> f in q[..258];
    assert forall k :: 0 <= k < 258 ==> q[k] in q[..258];
    forall f, i | f in lev && 0 <= i < 512 ensures EntryOk(t, lev, f, i) {
      if Dir(t.mem[f][i]) { InitDirs(t, q, f, i); }
    }
    forall f, i, g, j | f in lev && g in lev && 0 <= i < 512 && 0 <= j < 512 ensures NotShared(t, lev, f, i, g, j) {
      if Dir(t.mem[f][i]) && Dir(t.mem[g][j]) { InitDirs(t, q, f, i); InitDirs(t, q, g, j); }
    }
  }

  lemma InitWindow(t: Tables, q: seq<nat>)
    requires InitShape(t, q)
    ensures Window(t)
  {
    forall a | KERNEL_BASE <= a < TWO64 ensures Resolve(t, a) == Hit(2, WindowEntry(Idx(a, 2))) {
      WindowIndices(a);
      InitResolve(t, q, a);
    }
  }

  lemma WindowPageIndices(a: nat)
    ensures PageOf(a) >= PageOf(KERNEL_BASE) <==> Idx(a, 4) == 511 && Idx(a, 3) == 511
  {
    PageDigits(a);
    assert PageOf(KERNEL_BASE) == 0xF_FFFC_0000;
  }

  lemma InitLarge(t: Tables, q: seq<nat>)
    requires InitShape(t, q)
    ensures LargeIsWindow(t)
  {
    forall a ensures Resolve(t, a).Hit? && Resolve(t, a).level > 1 <==> PageOf(a) >= PageOf(KERNEL_BASE) {
      WindowPageIndices(a);
      InitResolve(t, q, a);
    }
  }

  lemma InitResolve(t: Tables, q: seq<nat>, a: nat)
    requires InitShape(t, q)
    ensures Resolve(t, a) == if Idx(a, 4) == 511 && Idx(a, 3) == 511 then Hit(2, WindowEntry(Idx(a, 2))) else Miss
  {
    var i := Idx(a, 4);
    ZeroAbsent();
    if i >= 256 {
      TopWordFlags(q[i - 255]);
      TopWordFlags(q[257]);
      WindowEntryFlags(Idx(a, 2));
      assert Resolve(t, a) == Walk(t, q[i - 255], 3, a);
    }
  }

  lemma InitNoHugeLeaf(t: Tables, q: seq<nat>)
    requires InitShape(t, q)
    ensures NoHugeLeaf(t)
  {
  }

  class PageContext {
    var mem: map<nat, Table>
    var root: nat
    var pool: seq<nat>
    ghost var lev: Levels

    ghost function T(): Tables
      reads this
    {
      Tables(mem, root, pool)
    }

    ghost predicate Valid()
      reads this
    {
      Tree(T(), lev)
    }

    /** `pcx_init`, drawing frames from `q` (whatever they contain). */
    constructor (frames: map<nat, Table>, q: seq<nat>)
      requires |q| >= 258 && InFrames(frames, q)
      requires forall k, m :: 0 <= k < m < |q| ==> q[k] != q[m]
      ensures Valid() && InitShape(T(), q) && Window(T()) && LargeIsWindow(T()) && NoHugeLeaf(T()) && pool == q[258..]
    {
      mem, root, pool := frames, q[0], q[1..];
      lev := InitLevels(q);
      new;
      FillRoot(q);
      var pt2 := pool[0];
      pool := pool[1..];
      FillWindow(pt2);
      var pt3 := mem[root][511].frame;
      mem := mem[pt3 := mem[pt3][511 := TopWord(pt2)]];
      assert InitShape(T(), q);
      InitTree(T(), q);
      InitWindow(T(), q);
      InitLarge(T(), q);
      InitNoHugeLeaf(T(), q);
    }

    /** The root table and its 256 upper-half children. */
    method FillRoot(q: seq<nat>)
      requires |q| >= 258 && root == q[0] && pool == q[1..] && InFrames(mem, q)
      requires forall k, m :: 0 <= k < m < |q| ==> q[k] != q[m]
      modifies this`mem, this`pool
      ensures pool == q[257..] && InFrames(mem, q) && Children(mem, q, 256)
    {
      Zero(root);
      ZeroAbsent();
      for n := 0 to 256
        invariant pool == q[n + 1..] && InFrames(mem, q) && Children(mem, q, n)
      {
        var pt3 := pool[0];
        pool := pool[1..];
        mem := mem[root := mem[root][n + 256 := TopWord(pt3)]];
        Zero(pt3);
      }
    }

    /** The two loops that map the window with large pages. */
    method FillWindow(f: nat)
      requires f in mem
      modifies this`mem
      ensures f in mem && mem == old(mem)[f := mem[f]]
      ensures forall i :: 0 <= i < 512 ==> mem[f][i] == WindowEntry(i)
    {
      for i := 0 to 256
        invariant f in mem && mem == old(mem)[f := mem[f]]
        invariant forall k :: 0 <= k < i ==> mem[f][k] == WindowEntry(k)
      {
        mem := mem[f := mem[f][i := Word(i * 0x20_0000, PF_VALID | PF_PRES | PF_WRITE | PF_LARGE | PF_GLOBL)]];
      }
      for i := 256 to 512
        invariant f in mem && mem == old(mem)[f := mem[f]]
        invariant forall k :: 0 <= k < i ==> mem[f][k] == WindowEntry(k)
      {
        mem := mem[f := mem[f][i := Word(i * 0x20_0000 + 0xC000_0000,
          PF_VALID | PF_PRES | PF_WRITE | PF_LARGE | PF_GLOBL | PF_PCD)]];
      }
    }

    /** The loop that clears a fresh table. */
    method Zero(f: nat)
      requires f in mem
      modifies this`mem
      ensures mem == old(mem)[f := ZERO_TABLE]
    {
      for j := 0 to 512
        invariant f in mem && mem == old(mem)[f := mem[f]]
        invariant forall k :: 0 <= k < j ==> mem[f][k] == ZERO
      {
        mem := mem[f := mem[f][j := ZERO]];
      }
      ZeroAbsent();
      assert mem[f] == ZERO_TABLE;
    }

    /** `pcx_get_trans`. */
    method GetTrans(addr: nat) returns (r: nat)
      requires Valid()
      ensures r == TransOf(Resolve(T(), addr), addr)
    {
      var pt, i := root, 4;
      while i > 0
        invariant 1 <= i <= 4 && pt in lev && lev[pt] == i && Walk(T(), pt, i, addr) == Resolve(T(), addr)
        decreases i
      {
        var idx := Idx(addr, i);
        assert EntryOk(T(), lev, pt, idx);
        if !Pres(mem[pt][idx]) {
          return TWO64 - 1;
        }
        if Large(mem[pt][idx]) || i == 1 {
          return (mem[pt][idx].frame + addr % Span(i)) % TWO64;
        }
        pt, i := mem[pt][idx].frame, i - 1;
      }
    }

    /** `pcx_get_flags`. */
    method GetFlags(addr: nat) returns (r: bv64)
      requires Valid()
      ensures r == FlagsOf(Resolve(T(), addr))
    {
      var pt, i := root, 4;
      while i > 0
        invariant 1 <= i <= 4 && pt in lev && lev[pt] == i && Walk(T(), pt, i, addr) == Resolve(T(), addr)
        decreases i
      {
        var idx := Idx(addr, i);
        assert EntryOk(T(), lev, pt, idx);
        if !Pres(mem[pt][idx]) {
          return 0;
        }
        if Large(mem[pt][idx]) || i == 1 {
          return mem[pt][idx].flags;
        }
        pt, i := mem[pt][idx].frame, i - 1;
      }
    }

    /** Give a missing directory entry a fresh zeroed table. */
    method NewTable(pt: nat, i: nat)
      requires Valid() && pt in lev && lev[pt] > 1 && i < 512 && !Pres(mem[pt][i]) && pool != []
      modifies this
      ensures Valid() && T() == AddTable(old(T()), pt, i) && root == old(root)
      ensures lev == AddLevel(old(T()), old(lev), old(lev)[pt] - 1)
      ensures mem[pt][i] == Word(old(pool)[0], PF_VALID | PF_PRES | PF_WRITE | PF_USER)
    {
      AddTableTree(T(), lev, pt, i);
      var newpt := pool[0];
      pool := pool[1..];
      mem := mem[pt := mem[pt][i := DirWord(newpt)]];
      Zero(newpt);
      lev := lev[newpt := lev[pt] - 1];
    }

    /** `pcx_set_frame`; the one assumption is that the call does not run out of frames. */
    method SetFrame(addr: nat, size: nat, frame: Word, flags: Word) returns (r: nat)
      requires Valid()
      requires size % 0x1000 == 0 && addr % 0x1000 == 0 ==> SetPage(T(), addr, Or(frame, flags)).code != 2
      modifies this
      ensures Valid() && root == old(root)
      ensures size % 0x1000 != 0 || addr % 0x1000 != 0 ==> r == 1 && T() == old(T())
      ensures size % 0x1000 == 0 && addr % 0x1000 == 0 ==>
        SetResult(T(), r) == SetPage(old(T()), addr, Or(frame, flags))
    {
      if size % 0x1000 != 0 || addr % 0x1000 != 0 {
        return 1;
      }
      var pt, i := root, 4;
      ghost var w := Or(frame, flags);
      while i > 1
        invariant 1 <= i <= 4 && Valid() && root == old(root) && pt in lev && lev[pt] == i
        invariant SetFrom(T(), pt, i, addr, w) == SetPage(old(T()), addr, w)
        decreases i
      {
        var idx := Idx(addr, i);
        assert EntryOk(T(), lev, pt, idx);
        if !Pres(mem[pt][idx]) {
          DirWordFlags(pool[0]);
          NewTable(pt, idx);
        }
        assert EntryOk(T(), lev, pt, idx);
        if Large(mem[pt][idx]) {
          return 1;
        }
        pt, i := mem[pt][idx].frame, i - 1;
      }
      WriteLeafTree(T(), lev, pt, Idx(addr, 1), w);
      mem := mem[pt := mem[pt][Idx(addr, 1) := Or(frame, flags)]];
      return 0;
    }
  }
}

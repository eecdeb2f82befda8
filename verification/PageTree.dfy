/** The tables as a tree: walking, setting one entry, and what setting it changes. */
module PageTree {
  import opened PageWords

  type Table = s: seq<Word> | |s| == 512 witness Zeros(512)

  /** `n` zero words. */
  function Zeros(n: nat): (z: seq<Word>)
    ensures |z| == n && forall i :: 0 <= i < n ==> z[i] == ZERO
  {
    if n == 0 then [] else Zeros(n - 1) + [ZERO]
  }

  const ZERO_TABLE: Table := Zeros(512)

  /** `mem` maps a frame to its 512 words; `pool` lists the frames `pge_alloc` will hand out. */
  datatype Tables = Tables(mem: map<nat, Table>, root: nat, pool: seq<nat>)

  /** What a walk ends at: a non-present entry, or a leaf entry found at some level. */
  datatype Hit = Miss | Hit(level: nat, word: Word)

  function LeafHit(w: Word): Hit { if Pres(w) then Hit(1, w) else Miss }

  function Entry(t: Tables, f: nat, l: nat, a: nat): Word
    requires 1 <= l <= 4
  {
    if f in t.mem then t.mem[f][Idx(a, l)] else ZERO
  }

  function Walk(t: Tables, f: nat, l: nat, a: nat): (h: Hit)
    requires 1 <= l <= 4
    ensures h.Hit? ==> 1 <= h.level <= l && Pres(h.word)
    decreases l
  {
    var e := Entry(t, f, l, a);
    if !Pres(e) then Miss else if Large(e) || l == 1 then Hit(l, e) else Walk(t, e.frame, l - 1, a)
  }

  /** `pcx_get_trans`: frame plus offset, or all ones. */
  function TransOf(h: Hit, a: nat): nat
    requires h.Hit? ==> 1 <= h.level <= 4
  {
    if h.Miss? then TWO64 - 1 else (h.word.frame + a % Span(h.level)) % TWO64
  }

  /** `pcx_get_flags`. */
  function FlagsOf(h: Hit): bv64 { if h.Miss? then 0 else h.word.flags }

  /** Depth of the tables: every walk starts at this level. */
  const LEVELS: nat := 4

  function Resolve(t: Tables, a: nat): (h: Hit)
    ensures h.Hit? ==> 1 <= h.level <= 4 && Pres(h.word)
  {
    Walk(t, t.root, LEVELS, a)
  }

  // ---------------------------------------------------------------- setting one entry

  function DirWord(f: nat): Word { Word(f, PF_VALID | PF_PRES | PF_WRITE | PF_USER) }

  function WriteEntry(t: Tables, f: nat, i: nat, w: Word): Tables
    requires i < 512
  {
    if f in t.mem then t.(mem := t.mem[f := t.mem[f][i := w]]) else t
  }

  /** A missing directory entry gets the next pool frame, zeroed. */
  function AddTable(t: Tables, f: nat, i: nat): Tables
    requires i < 512 && t.pool != []
  {
    var t1 := WriteEntry(t, f, i, DirWord(t.pool[0]));
    t1.(mem := t1.mem[t.pool[0] := ZERO_TABLE], pool := t.pool[1..])
  }

  datatype SetResult = SetResult(tables: Tables, code: nat)

  /** `pcx_set_frame` from table `f` at level `l`. Running out of pool frames, which the source does
      not handle, ends with code 2. */
  function SetFrom(t: Tables, f: nat, l: nat, a: nat, w: Word): (r: SetResult)
    requires 1 <= l <= 4
    ensures r.code <= 2
    decreases l
  {
    var e := Entry(t, f, l, a);
    if l == 1 then SetResult(WriteEntry(t, f, Idx(a, 1), w), 0)
    else if !Pres(e) then
      if t.pool == [] then SetResult(t, 2)
      else SetFrom(AddTable(t, f, Idx(a, l)), t.pool[0], l - 1, a, w)
    else if Large(e) then SetResult(t, 1)
    else SetFrom(t, e.frame, l - 1, a, w)
  }

  // ---------------------------------------------------------------- the tree invariant

  type Levels = map<nat, nat>

  /** Directory entry: present and not a large-page leaf. */
  predicate Dir(w: Word) { Pres(w) && !Large(w) }

  ghost predicate EntryOk(t: Tables, lev: Levels, f: nat, i: nat)
    requires f in lev && f in t.mem && i < 512
  {
    lev[f] > 1 && Dir(t.mem[f][i]) ==>
      t.mem[f][i].frame in lev && lev[t.mem[f][i].frame] == lev[f] - 1
  }

  ghost predicate NotShared(t: Tables, lev: Levels, f: nat, i: nat, g: nat, j: nat)
    requires f in lev && f in t.mem && i < 512 && g in lev && g in t.mem && j < 512
  {
    lev[f] > 1 && lev[g] > 1 && Dir(t.mem[f][i]) && Dir(t.mem[g][j]) && (f != g || i != j) ==>
      t.mem[f][i].frame != t.mem[g][j].frame
  }

  /** The frames in `lev` are tables of levels 4 down to 1; directory entries lead one level down,
      no two of them to the same table; the pool holds distinct frames that are not tables. */
  ghost predicate Tree(t: Tables, lev: Levels) {
    && t.root in lev && lev[t.root] == 4
    && (forall f :: f in lev ==> f in t.mem && 1 <= lev[f] <= 4)
    && (forall f, i :: f in lev && 0 <= i < 512 ==> EntryOk(t, lev, f, i))
    && (forall f, i, g, j :: f in lev && g in lev && 0 <= i < 512 && 0 <= j < 512 ==> NotShared(t, lev, f, i, g, j))
    && (forall k :: 0 <= k < |t.pool| ==> t.pool[k] !in lev && t.pool[k] in t.mem)
    && (forall k, m :: 0 <= k < m < |t.pool| ==> t.pool[k] != t.pool[m])
  }

  lemma DirWordFlags(f: nat)
    ensures Pres(DirWord(f)) && !Large(DirWord(f)) && Dir(DirWord(f))
  {
  }

  lemma ZeroAbsent()
    ensures !Pres(ZERO) && !Dir(ZERO)
    ensures forall i :: 0 <= i < 512 ==> ZERO_TABLE[i] == ZERO
  {
  }

  ghost function AddLevel(t: Tables, lev: Levels, l: nat): Levels
    requires t.pool != []
  {
    lev[t.pool[0] := l]
  }

  lemma AddTableTree(t: Tables, lev: Levels, f: nat, i: nat)
    requires Tree(t, lev) && f in lev && lev[f] > 1 && i < 512 && !Pres(t.mem[f][i]) && t.pool != []
    ensures Tree(AddTable(t, f, i), AddLevel(t, lev, lev[f] - 1))
  {
    var t1, lev1, n := AddTable(t, f, i), AddLevel(t, lev, lev[f] - 1), t.pool[0];
    DirWordFlags(n);
    ZeroAbsent();
    forall g, j | g in lev1 && 0 <= j < 512 ensures EntryOk(t1, lev1, g, j) {
      if g != n { assert EntryOk(t, lev, g, j); }
    }
    forall g, j, h, k | g in lev1 && h in lev1 && 0 <= j < 512 && 0 <= k < 512
      ensures NotShared(t1, lev1, g, j, h, k)
    {
      if g != n && h != n {
        assert NotShared(t, lev, g, j, h, k) && EntryOk(t, lev, g, j) && EntryOk(t, lev, h, k);
      }
    }
  }

  lemma WriteLeafTree(t: Tables, lev: Levels, f: nat, i: nat, w: Word)
    requires Tree(t, lev) && f in lev && lev[f] == 1 && i < 512
    ensures Tree(WriteEntry(t, f, i, w), lev)
  {
    var t1 := WriteEntry(t, f, i, w);
    forall g, j | g in lev && 0 <= j < 512 ensures EntryOk(t1, lev, g, j) { assert EntryOk(t, lev, g, j); }
    forall g, j, h, k | g in lev && h in lev && 0 <= j < 512 && 0 <= k < 512 ensures NotShared(t1, lev, g, j, h, k) {
      assert NotShared(t, lev, g, j, h, k);
    }
  }

  /** Setting an entry keeps the tree; existing tables keep their level. */
  lemma {:induction false} SetFromTree(t: Tables, lev: Levels, f: nat, l: nat, a: nat, w: Word) returns (lev1: Levels)
    requires Tree(t, lev) && f in lev && lev[f] == l && 1 <= l <= 4
    ensures Tree(SetFrom(t, f, l, a, w).tables, lev1)
    ensures forall g :: g in lev ==> g in lev1 && lev1[g] == lev[g]
    ensures SetFrom(t, f, l, a, w).tables.root == t.root
    decreases l
  {
    lev1 := lev;
    var i := Idx(a, l);
    if l == 1 {
      WriteLeafTree(t, lev, f, i, w);
    } else {
      assert EntryOk(t, lev, f, i);
      if !Pres(t.mem[f][i]) {
        if t.pool != [] {
          AddTableTree(t, lev, f, i);
          lev1 := SetFromTree(AddTable(t, f, i), AddLevel(t, lev, l - 1), t.pool[0], l - 1, a, w);
        }
      } else if !Large(t.mem[f][i]) {
        lev1 := SetFromTree(t, lev, t.mem[f][i].frame, l - 1, a, w);
      }
    }
  }

  /** Tables at or above the level of `f`, other than `f`, are not written. */
  lemma {:induction false} SetFromUpper(t: Tables, lev: Levels, f: nat, l: nat, a: nat, w: Word, g: nat)
    requires Tree(t, lev) && f in lev && lev[f] == l && 1 <= l <= 4
    requires g in lev && lev[g] >= l && g != f
    ensures var t1 := SetFrom(t, f, l, a, w).tables; g in t1.mem && t1.mem[g] == t.mem[g]
    decreases l
  {
    var i := Idx(a, l);
    if l > 1 {
      assert EntryOk(t, lev, f, i);
      if !Pres(t.mem[f][i]) {
        if t.pool != [] {
          AddTableTree(t, lev, f, i);
          SetFromUpper(AddTable(t, f, i), AddLevel(t, lev, l - 1), t.pool[0], l - 1, a, w, g);
        }
      } else if !Large(t.mem[f][i]) {
        SetFromUpper(t, lev, t.mem[f][i].frame, l - 1, a, w, g);
      }
    }
  }

  // ---------------------------------------------------------------- what one call changes

  lemma {:induction false} FreshNeverRefused(t: Tables, lev: Levels, f: nat, l: nat, a: nat, w: Word)
    requires Tree(t, lev) && f in lev && lev[f] == l && 1 <= l <= 4 && t.mem[f] == ZERO_TABLE
    ensures SetFrom(t, f, l, a, w).code != 1
    decreases l
  {
  }

  /** Refusal happens exactly at a large page, and then nothing was written. */
  lemma {:induction false} RefusedExactly(t: Tables, lev: Levels, f: nat, l: nat, a: nat, w: Word)
    requires Tree(t, lev) && f in lev && lev[f] == l && 1 <= l <= 4
    ensures var r := SetFrom(t, f, l, a, w); var h := Walk(t, f, l, a);
      && (r.code == 1 <==> h.Hit? && h.level > 1)
      && (r.code == 1 ==> r.tables == t)
    decreases l
  {
    var i := Idx(a, l);
    if l > 1 {
      assert EntryOk(t, lev, f, i);
      if !Pres(t.mem[f][i]) {
        if t.pool != [] {
          AddTableTree(t, lev, f, i);
          FreshNeverRefused(AddTable(t, f, i), AddLevel(t, lev, l - 1), t.pool[0], l - 1, a, w);
        }
      } else if !Large(t.mem[f][i]) {
        RefusedExactly(t, lev, t.mem[f][i].frame, l - 1, a, w);
      }
    }
  }

  lemma {:induction false} EnoughFrames(t: Tables, f: nat, l: nat, a: nat, w: Word)
    requires 1 <= l <= 4 && |t.pool| >= l - 1
    ensures SetFrom(t, f, l, a, w).code != 2
    decreases l
  {
    var e := Entry(t, f, l, a);
    if l > 1 {
      if !Pres(e) { EnoughFrames(AddTable(t, f, Idx(a, l)), t.pool[0], l - 1, a, w); }
      else if !Large(e) { EnoughFrames(t, e.frame, l - 1, a, w); }
    }
  }

  /** One level of the frame argument: the walk of `b` from `g` reads the same entry before and after,
      unless it is the entry through which `a` is set. */
  lemma SameEntry(t: Tables, lev: Levels, f: nat, l: nat, a: nat, w: Word, g: nat, b: nat)
    requires Tree(t, lev) && f in lev && lev[f] == l && 1 < l <= 4 && g in lev && lev[g] == l
    requires g != f || Idx(a, l) != Idx(b, l) || Pres(t.mem[f][Idx(a, l)])
    ensures Entry(SetFrom(t, f, l, a, w).tables, g, l, b) == Entry(t, g, l, b)
  {
    var i := Idx(a, l);
    assert EntryOk(t, lev, f, i);
    if !Pres(t.mem[f][i]) {
      if t.pool != [] {
        AddTableTree(t, lev, f, i);
        SetFromUpper(AddTable(t, f, i), AddLevel(t, lev, l - 1), t.pool[0], l - 1, a, w, g);
      }
    } else if !Large(t.mem[f][i]) {
      SetFromUpper(t, lev, t.mem[f][i].frame, l - 1, a, w, g);
    }
  }

  /** The walk of `b` from any table of the level is as before the call, except after a success from `f`
      itself for an address with the same indices, which now ends at the new leaf. */
  lemma {:induction false} SetFromWalk(t: Tables, lev: Levels, f: nat, l: nat, a: nat, w: Word, g: nat, b: nat)
    requires Tree(t, lev) && f in lev && lev[f] == l && 1 <= l <= 4 && g in lev && lev[g] == l
    ensures Walk(SetFrom(t, f, l, a, w).tables, g, l, b) ==
      if SetFrom(t, f, l, a, w).code == 0 && g == f && SameIdx(a, b, l) then LeafHit(w) else Walk(t, g, l, b)
    decreases l
  {
    if l > 1 {
      if !Pres(t.mem[f][Idx(a, l)]) {
        if t.pool != [] { SetFromWalkNew(t, lev, f, l, a, w, g, b); }
      } else if !Large(t.mem[f][Idx(a, l)]) {
        SetFromWalkOld(t, lev, f, l, a, w, g, b);
      }
    }
  }

  /** The case in which the next table exists already. */
  lemma {:induction false} SetFromWalkOld(t: Tables, lev: Levels, f: nat, l: nat, a: nat, w: Word, g: nat, b: nat)
    requires Tree(t, lev) && f in lev && lev[f] == l && 1 < l <= 4 && g in lev && lev[g] == l
    requires Dir(t.mem[f][Idx(a, l)])
    ensures Walk(SetFrom(t, f, l, a, w).tables, g, l, b) ==
      if SetFrom(t, f, l, a, w).code == 0 && g == f && SameIdx(a, b, l) then LeafHit(w) else Walk(t, g, l, b)
    decreases l, 0
  {
    var i, j := Idx(a, l), Idx(b, l);
    SameEntry(t, lev, f, l, a, w, g, b);
    assert EntryOk(t, lev, f, i) && EntryOk(t, lev, g, j) && NotShared(t, lev, f, i, g, j);
    if Dir(t.mem[g][j]) {
      SetFromWalk(t, lev, t.mem[f][i].frame, l - 1, a, w, t.mem[g][j].frame, b);
    }
  }

  /** The case in which the next table is allocated. */
  lemma {:induction false} SetFromWalkNew(t: Tables, lev: Levels, f: nat, l: nat, a: nat, w: Word, g: nat, b: nat)
    requires Tree(t, lev) && f in lev && lev[f] == l && 1 < l <= 4 && g in lev && lev[g] == l
    requires t.pool != [] && !Pres(t.mem[f][Idx(a, l)])
    ensures Walk(SetFrom(t, f, l, a, w).tables, g, l, b) ==
      if SetFrom(t, f, l, a, w).code == 0 && g == f && SameIdx(a, b, l) then LeafHit(w) else Walk(t, g, l, b)
    decreases l, 0
  {
    var i, j, n := Idx(a, l), Idx(b, l), t.pool[0];
    var t0, lev0 := AddTable(t, f, i), AddLevel(t, lev, l - 1);
    AddTableTree(t, lev, f, i);
    SetFromUpper(t0, lev0, n, l - 1, a, w, g);
    assert EntryOk(t, lev, g, j);
    if g == f && i == j {
      DirWordFlags(n);
      ZeroAbsent();
      SetFromWalk(t0, lev0, n, l - 1, a, w, n, b);
    } else if Dir(t.mem[g][j]) {
      var c := t.mem[g][j].frame;
      SetFromWalk(t0, lev0, n, l - 1, a, w, c, b);
      AddTableWalk(t, lev, f, i, c, l - 1, b);
    }
  }

  /** Allocating an empty table changes no walk from a table below the level of `f`. */
  lemma {:induction false} AddTableWalk(t: Tables, lev: Levels, f: nat, i: nat, g: nat, l: nat, b: nat)
    requires Tree(t, lev) && f in lev && lev[f] > l && i < 512 && t.pool != []
    requires g in lev && lev[g] == l && 1 <= l <= 4
    ensures Walk(AddTable(t, f, i), g, l, b) == Walk(t, g, l, b)
    decreases l
  {
    if l > 1 {
      assert EntryOk(t, lev, g, Idx(b, l));
      if Dir(t.mem[g][Idx(b, l)]) { AddTableWalk(t, lev, f, i, t.mem[g][Idx(b, l)].frame, l - 1, b); }
    }
  }

  // ---------------------------------------------------------------- the theorem

  function SetPage(t: Tables, a: nat, w: Word): SetResult { SetFrom(t, t.root, LEVELS, a, w) }

  /** `pcx_set_frame` is a map update: on success the page of `a` gets the new leaf and every other page
      keeps its translation. It is refused exactly on a large page, and then writes nothing; it can run out
      of frames (code 2) only with fewer than three left, and then it still changes no translation. */
  lemma SetPageIsUpdate(t: Tables, lev: Levels, a: nat, w: Word) returns (lev1: Levels)
    requires Tree(t, lev)
    ensures var r := SetPage(t, a, w);
      && Tree(r.tables, lev1) && r.code <= 2
      && (r.code == 1 <==> Resolve(t, a).Hit? && Resolve(t, a).level > 1)
      && (r.code == 1 ==> r.tables == t)
      && (r.code == 2 ==> |t.pool| < 3)
      && (forall b :: Resolve(r.tables, b) ==
           if r.code == 0 && PageOf(a) == PageOf(b) then LeafHit(w) else Resolve(t, b))
  {
    lev1 := SetFromTree(t, lev, t.root, LEVELS, a, w);
    RefusedExactly(t, lev, t.root, LEVELS, a, w);
    if |t.pool| >= 3 { EnoughFrames(t, t.root, LEVELS, a, w); }
    forall b ensures Resolve(SetPage(t, a, w).tables, b) ==
      if SetPage(t, a, w).code == 0 && PageOf(a) == PageOf(b) then LeafHit(w) else Resolve(t, b)
    {
      SetFromWalk(t, lev, t.root, LEVELS, a, w, t.root, b);
      SamePageSameIdx(a, b);
    }
  }

  /** In numbers: on success addr + o translates to frame + o with the given flags for the 4096 offsets of
      the page, or to all ones and no flags if the new entry is not present. */
  lemma SetPageTranslates(t: Tables, lev: Levels, a: nat, w: Word, o: nat)
    requires Tree(t, lev) && SetPage(t, a, w).code == 0
    requires a % 0x1000 == 0 && o < 0x1000 && w.frame % 0x1000 == 0 && w.frame < TWO63
    ensures var h := Resolve(SetPage(t, a, w).tables, a + o);
      if Pres(w) then TransOf(h, a + o) == w.frame + o && FlagsOf(h) == w.flags
      else TransOf(h, a + o) == TWO64 - 1 && FlagsOf(h) == 0
  {
    OffsetInPage(a, o);
    LeafReads(w, a, o);
    SetPageReaches(t, lev, a, w, a + o);
  }

  lemma LeafReads(w: Word, a: nat, o: nat)
    requires a % 0x1000 == 0 && o < 0x1000 && w.frame % 0x1000 == 0 && w.frame < TWO63
    ensures Pres(w) ==> TransOf(LeafHit(w), a + o) == w.frame + o
  {
    OffsetInPage(a, o);
    assert Span(1) == 0x1000;
  }

  lemma SetPageReaches(t: Tables, lev: Levels, a: nat, w: Word, b: nat)
    requires Tree(t, lev) && SetPage(t, a, w).code == 0 && PageOf(a) == PageOf(b)
    ensures Resolve(SetPage(t, a, w).tables, b) == LeafHit(w)
  {
    var _ := SetPageIsUpdate(t, lev, a, w);
  }

  lemma OffsetInPage(a: nat, o: nat)
    requires a % 0x1000 == 0 && o < 0x1000
    ensures PageOf(a + o) == PageOf(a) && (a + o) % 0x1000 == o
  {
    assert (a + o) / 0x1000 == a / 0x1000;
  }

  /** Large leaves stand at level 2 only, where their span fits the source's int shift. */
  ghost predicate NoHugeLeaf(t: Tables) { forall b :: Resolve(t, b).Hit? ==> Resolve(t, b).level <= 2 }

  lemma SetPageAddsNoHugeLeaf(t: Tables, lev: Levels, a: nat, w: Word)
    requires Tree(t, lev) && NoHugeLeaf(t)
    ensures NoHugeLeaf(SetPage(t, a, w).tables)
  {
    var _ := SetPageIsUpdate(t, lev, a, w);
  }
}

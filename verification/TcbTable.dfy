/** The two-level TCB table, its subtables allocated on demand, as a finite map from ids to TCBs. */
module TcbTable {
  import opened Base
  import opened Threads

  /** TCB address; 0 is null. */
  type Ptr = nat

  type SubTable = s: seq<Ptr> | |s| == 512 witness Nulls(512)

  function Nulls(n: nat): (z: seq<Ptr>)
    ensures |z| == n && forall i :: 0 <= i < n ==> z[i] == 0
  {
    if n == 0 then [] else Nulls(n - 1) + [0]
  }

  const EMPTY: SubTable := Nulls(512)

  type Table = s: seq<Option<SubTable>> | |s| == 128 witness Missing(128)

  function Missing(n: nat): (z: seq<Option<SubTable>>)
    ensures |z| == n && forall i :: 0 <= i < n ==> z[i].None?
  {
    if n == 0 then [] else Missing(n - 1) + [None]
  }

  /** The slot of id `i`; null when its subtable is missing. */
  function Slot(t: Table, i: nat): Ptr
    requires i < TCB_LIMIT
  {
    match t[i / 512] case Some(s) => s[i % 512] case None => 0
  }

  /** The finite map the table stands for. */
  function Contents(t: Table): (m: map<nat, Ptr>)
    ensures forall i: nat :: i in m <==> i < TCB_LIMIT && Slot(t, i) != 0
    ensures forall i :: i in m ==> m[i] == Slot(t, i)
  {
    map i: nat | i < TCB_LIMIT && Slot(t, i) != 0 :: Slot(t, i)
  }

  function SetSlot(t: Table, i: nat, p: Ptr): Table
    requires i < TCB_LIMIT && t[i / 512].Some?
  {
    t[i / 512 := Some(t[i / 512].value[i % 512 := p])]
  }

  lemma SetSlotUpdates(t: Table, i: nat, p: Ptr)
    requires i < TCB_LIMIT && t[i / 512].Some?
    ensures Contents(SetSlot(t, i, p)) == if p == 0 then Contents(t) - {i} else Contents(t)[i := p]
  {
  }

  lemma AddSubTableKeeps(t: Table, i: nat)
    requires i < TCB_LIMIT && t[i / 512].None?
    ensures Contents(t[i / 512 := Some(EMPTY)]) == Contents(t)
  {
  }

  /** Every live TCB carries the id under which it is stored, and id 0 is never used. */
  ghost predicate IdsAgree(m: map<nat, Ptr>, ids: map<Ptr, nat>) {
    0 !in m && forall i :: i in m ==> m[i] in ids && ids[m[i]] == i
  }

  /** Two live ids never share a TCB. */
  lemma IdsUnique(m: map<nat, Ptr>, ids: map<Ptr, nat>, i: nat, j: nat)
    requires IdsAgree(m, ids) && i in m && j in m && m[i] == m[j]
    ensures i == j
  {
  }

  /** `i` is the lowest id from 1 not in use, or TCB_LIMIT when all are. */
  predicate Lowest(used: set<nat>, i: nat) {
    1 <= i <= TCB_LIMIT && (i < TCB_LIMIT ==> i !in used) && forall k :: 1 <= k < i ==> k in used
  }

  /** The id the state machine gives a new thread is the one `tcb_new` finds. */
  lemma LowestIsLowestFree(used: set<nat>, i: nat)
    requires Lowest(used, i)
    ensures i == LowestFree(used, 1)
  {
  }

  class TcbDirectory {
    var table: Table
    var id: map<Ptr, nat>
    var free: map<Ptr, bool>

    ghost function M(): map<nat, Ptr>
      reads this
    {
      Contents(table)
    }

    /** Live TCBs carry their id and are not in state FREE. */
    ghost predicate Valid()
      reads this
    {
      IdsAgree(M(), id) && forall i :: i in M() ==> M()[i] in free && !free[M()[i]]
    }

    constructor ()
      ensures Valid() && M() == map[]
    {
      table, id, free := Missing(128), map[], map[];
    }

    /** The loop that clears a new subtable at index `k`. */
    method InitSubTable(k: nat, junk: SubTable)
      requires k < 128 && table[k].None?
      modifies this`table
      ensures table == old(table)[k := Some(EMPTY)]
    {
      table := table[k := Some(junk)];
      for j := 0 to 512
        invariant table[k].Some? && table == old(table)[k := table[k]]
        invariant forall i :: 0 <= i < j ==> table[k].value[i] == 0
      {
        table := table[k := Some(table[k].value[j := 0])];
      }
      assert table[k].value == EMPTY;
    }

    /** The body of the search loop of `tcb_new` at id `i`; `done` when the call returns. */
    method TryId(i: nat, tcb: Ptr, pageOk: bool, junk: SubTable) returns (r: Ptr, done: bool)
      requires Valid() && 1 <= i < TCB_LIMIT && tcb != 0 && tcb !in M().Values
      modifies this
      ensures Valid()
      ensures done <==> i !in old(M())
      ensures !done ==> r == 0 && table == old(table)
      ensures r == 0 ==> M() == old(M())
      ensures done ==> (r == 0 <==> old(table)[i / 512].None? && !pageOk)
      ensures r != 0 ==> r == tcb && M() == old(M())[i := tcb] && tcb in id && id[tcb] == i
    {
      assert i in M() <==> Slot(table, i) != 0;
      if table[i / 512].None? {
        if !pageOk {
          return 0, true;
        }
        AddSubTableKeeps(table, i);
        InitSubTable(i / 512, junk);
      }
      if table[i / 512].value[i % 512] == 0 {
        SetSlotUpdates(table, i, tcb);
        table := table[i / 512 := Some(table[i / 512].value[i % 512 := tcb])];
        id := id[tcb := i];
        free := free[tcb := false];
        return tcb, true;
      }
      return 0, false;
    }

    /** `tcb_new`. `tcb` and `pageOk` are what the two allocators answer. The TCB gets the lowest free
        id; on failure (null) the map is unchanged, and the call fails only for want of memory or ids. */
    method New(tcb: Ptr, pageOk: bool, junk: SubTable) returns (r: Ptr)
      requires Valid() && tcb !in M().Values
      modifies this
      ensures Valid()
      ensures r == 0 ==> M() == old(M())
      ensures r != 0 ==> r == tcb && tcb in id && Lowest(old(M()).Keys, id[tcb]) && M() == old(M())[id[tcb] := tcb]
      ensures forall i :: Lowest(old(M()).Keys, i) ==>
        (r == 0 <==> (tcb == 0 || i == TCB_LIMIT || (old(table)[i / 512].None? && !pageOk)))
    {
      if tcb == 0 {
        return 0;
      }
      var i := 1;
      while i < TCB_LIMIT
        invariant 1 <= i <= TCB_LIMIT && Valid() && table == old(table)
        invariant forall k :: 1 <= k < i ==> k in M()
      {
        var done;
        r, done := TryId(i, tcb, pageOk, junk);
        if done {
          return;
        }
        i := i + 1;
      }
      return 0;
    }

    /** `tcb_get`. */
    method Get(thread: nat) returns (r: Ptr)
      requires Valid()
      ensures r == if thread in M() then M()[thread] else 0
    {
      if thread >= TCB_LIMIT {
        return 0;
      }
      if table[thread / 512].None? {
        return 0;
      }
      r := table[thread / 512].value[thread % 512];
    }

    /** `tcb_del` on a live TCB or null: exactly its id becomes free. */
    method Del(tcb: Ptr)
      requires Valid() && (tcb != 0 ==> tcb in M().Values)
      modifies this
      ensures Valid()
      ensures M() == if tcb == 0 then old(M()) else old(M()) - {old(id)[tcb]}
    {
      if tcb == 0 {
        return;
      }
      ghost var k :| k in M() && M()[k] == tcb;
      if free[tcb] {
        return;
      }
      var i := id[tcb];
      if i >= TCB_LIMIT || table[i / 512].None? {
        return;
      }
      SetSlotUpdates(table, i, 0);
      table := table[i / 512 := Some(table[i / 512].value[i % 512 := 0])];
    }

    /** Looking up a live TCB's own id finds it. */
    lemma GetOwnId(tcb: Ptr)
      requires Valid() && tcb in M().Values
      ensures tcb in id && id[tcb] in M() && M()[id[tcb]] == tcb
    {
    }
  }
}

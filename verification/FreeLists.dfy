/** The four free-list allocators over one bump pool: each free page's first word links to the next. */
module FreeLists {
  import opened Base

  const PAGE: nat := 0x1000

  /** tcb, ccb, pge and pcx, in the order of the macro calls. */
  const KINDS: nat := 4

  type Free = s: seq<seq<nat>> | |s| == KINDS witness [[], [], [], []]
  type Held = s: seq<set<nat>> | |s| == KINDS witness [{}, {}, {}, {}]

  /** Abstract state: what is on each free list, what each allocator's clients hold, and the bump pool. */
  datatype Pool = Pool(free: Free, held: Held, base: nat, limit: nat)

  datatype Op = Alloc(kind: nat) | Release(kind: nat, page: nat)

  /** Result 0 is the null pointer. */
  datatype Outcome = Outcome(pool: Pool, page: nat)

  function Take(p: Pool, k: nat): Outcome
    requires k < KINDS
  {
    if p.free[k] != [] then
      var a := p.free[k][0];
      Outcome(p.(free := p.free[k := p.free[k][1..]], held := p.held[k := p.held[k] + {a}]), a)
    else if p.base == p.limit then Outcome(p, 0)
    else Outcome(p.(held := p.held[k := p.held[k] + {p.base}], base := p.base + PAGE), p.base)
  }

  function Give(p: Pool, k: nat, a: nat): Pool
    requires k < KINDS
  {
    p.(free := p.free[k := [a] + p.free[k]], held := p.held[k := p.held[k] - {a}])
  }

  /** A correct client frees to an allocator only what it got from it. */
  predicate Correct(p: Pool, op: Op) {
    op.kind < KINDS && (op.Release? ==> op.page in p.held[op.kind])
  }

  function Apply(p: Pool, op: Op): Pool {
    if op.kind >= KINDS then p
    else match op case Alloc(k) => Take(p, k).pool case Release(k, a) => Give(p, k, a)
  }

  function Run(p: Pool, ops: seq<Op>): Pool
    decreases |ops|
  {
    if ops == [] then p else Run(Apply(p, ops[0]), ops[1..])
  }

  predicate CorrectRun(p: Pool, ops: seq<Op>)
    decreases |ops|
  {
    ops == [] || (Correct(p, ops[0]) && CorrectRun(Apply(p, ops[0]), ops[1..]))
  }

  function Initial(start: nat, limit: nat): Pool { Pool([[], [], [], []], [{}, {}, {}, {}], start, limit) }

  // ---------------------------------------------------------------- conservation

  predicate At(p: Pool, a: nat, k: nat)
    requires k < KINDS
  {
    a in p.free[k] || a in p.held[k]
  }

  /** Pages the bump pointer has passed. */
  predicate Pulled(p: Pool, start: nat, a: nat) { start <= a < p.base && (a - start) % PAGE == 0 }

  ghost predicate Apart(p: Pool, k: nat)
    requires k < KINDS
  {
    NoDup(p.free[k]) && forall a :: a in p.free[k] ==> a !in p.held[k]
  }

  /** Every pulled page is with exactly one allocator, either free once or held; nothing else is anywhere. */
  ghost predicate Conserved(p: Pool, start: nat) {
    && (forall k :: 0 <= k < KINDS ==> Apart(p, k))
    && (forall k, m, a :: 0 <= k < KINDS && 0 <= m < KINDS && At(p, a, k) && At(p, a, m) ==> k == m)
    && (forall k, a :: 0 <= k < KINDS && At(p, a, k) ==> Pulled(p, start, a))
    && (forall a :: Pulled(p, start, a) ==> exists k :: 0 <= k < KINDS && At(p, a, k))
    && 0 < start <= p.base <= p.limit && (p.base - start) % PAGE == 0 && (p.limit - p.base) % PAGE == 0
  }

  lemma NextPulled(p: Pool, start: nat, a: nat)
    requires start <= p.base && (p.base - start) % PAGE == 0
    ensures Pulled(p.(base := p.base + PAGE), start, a) <==> Pulled(p, start, a) || a == p.base
  {
  }

  lemma TakeFreeKeeps(p: Pool, k: nat, start: nat)
    requires Conserved(p, start) && k < KINDS && p.free[k] != []
    ensures Conserved(Take(p, k).pool, start)
  {
    var p1, a := Take(p, k).pool, p.free[k][0];
    assert p.free[k] == [a] + p1.free[k];
    assert forall b, m :: 0 <= m < KINDS ==> (At(p1, b, m) <==> At(p, b, m));
    assert forall b :: Pulled(p1, start, b) <==> Pulled(p, start, b);
    forall b | Pulled(p1, start, b) ensures exists m :: 0 <= m < KINDS && At(p1, b, m) {
      assert Pulled(p, start, b);
      var m :| 0 <= m < KINDS && At(p, b, m);
      assert At(p1, b, m);
    }
    forall m | 0 <= m < KINDS ensures Apart(p1, m) { assert Apart(p, m); }
  }

  lemma TakeNewKeeps(p: Pool, k: nat, start: nat)
    requires Conserved(p, start) && k < KINDS && p.free[k] == [] && p.base != p.limit
    ensures Conserved(Take(p, k).pool, start)
  {
    var p1 := Take(p, k).pool;
    assert forall b :: 0 <= b ==> (Pulled(p1, start, b) <==> Pulled(p, start, b) || b == p.base) by {
      forall b | 0 <= b ensures Pulled(p1, start, b) <==> Pulled(p, start, b) || b == p.base { NextPulled(p, start, b); }
    }
    assert forall b, m :: 0 <= m < KINDS ==> (At(p1, b, m) <==> At(p, b, m) || (b == p.base && m == k));
    assert !Pulled(p, start, p.base);
    forall m | 0 <= m < KINDS ensures Apart(p1, m) { assert Apart(p, m); }
    forall b | Pulled(p1, start, b) ensures exists m :: 0 <= m < KINDS && At(p1, b, m) {
      if b == p.base { assert At(p1, b, k); }
      else {
        var m :| 0 <= m < KINDS && At(p, b, m);
        assert At(p1, b, m);
      }
    }
  }

  lemma GiveKeeps(p: Pool, k: nat, a: nat, start: nat)
    requires Conserved(p, start) && k < KINDS && a in p.held[k]
    ensures Conserved(Give(p, k, a), start)
  {
    var p1 := Give(p, k, a);
    assert Apart(p, k);
    assert forall b, m :: 0 <= m < KINDS ==> (At(p1, b, m) <==> At(p, b, m));
    assert forall b :: Pulled(p1, start, b) <==> Pulled(p, start, b);
    forall m | 0 <= m < KINDS ensures Apart(p1, m) { assert Apart(p, m); }
    forall b | Pulled(p1, start, b) ensures exists m :: 0 <= m < KINDS && At(p1, b, m) {
      assert Pulled(p, start, b);
      var m :| 0 <= m < KINDS && At(p, b, m);
      assert At(p1, b, m);
    }
  }

  lemma ApplyKeeps(p: Pool, op: Op, start: nat)
    requires Conserved(p, start) && Correct(p, op)
    ensures Conserved(Apply(p, op), start)
  {
    match op
    case Alloc(k) =>
      if p.free[k] != [] { TakeFreeKeeps(p, k, start); }
      else if p.base != p.limit { TakeNewKeeps(p, k, start); }
    case Release(k, a) => GiveKeeps(p, k, a, start);
  }

  lemma {:induction false} RunKeeps(p: Pool, ops: seq<Op>, start: nat)
    requires Conserved(p, start) && CorrectRun(p, ops)
    ensures Conserved(Run(p, ops), start)
    decreases |ops|
  {
    if ops != [] {
      ApplyKeeps(p, ops[0], start);
      RunKeeps(Apply(p, ops[0]), ops[1..], start);
    }
  }

  /** In every run of correct calls the pages are conserved; an allocation then returns a page nobody
      holds, and null exactly when its own list is empty and the pool is used up. */
  lemma PagesConserved(start: nat, limit: nat, ops: seq<Op>, k: nat)
    requires 0 < start <= limit && (limit - start) % PAGE == 0 && k < KINDS
    requires CorrectRun(Initial(start, limit), ops)
    ensures var p := Run(Initial(start, limit), ops); var r := Take(p, k);
      && Conserved(p, start)
      && (r.page == 0 <==> p.free[k] == [] && p.base == p.limit)
      && (r.page != 0 ==> (forall m :: 0 <= m < KINDS ==> r.page !in p.held[m])
                          && r.page in r.pool.held[k] && r.page !in r.pool.free[k])
  {
    var p0 := Initial(start, limit);
    assert forall a :: !Pulled(p0, start, a);
    RunKeeps(p0, ops, start);
    var p := Run(p0, ops);
    var r := Take(p, k);
    if p.free[k] != [] {
      assert At(p, r.page, k) && Apart(p, k) && Pulled(p, start, r.page);
      forall m | 0 <= m < KINDS ensures r.page !in p.held[m] { assert At(p, r.page, m) ==> m == k; }
      TakeFreeKeeps(p, k, start);
    } else if p.base != p.limit {
      assert !Pulled(p, start, p.base);
      forall m | 0 <= m < KINDS ensures r.page !in p.held[m] { assert !At(p, r.page, m); }
      TakeNewKeeps(p, k, start);
    }
    if r.page != 0 { assert Apart(r.pool, k); }
  }

  // ---------------------------------------------------------------- reuse

  /** A freed page is the next one allocated, and then everything is as it was before the free. */
  lemma FreeThenAlloc(p: Pool, k: nat, a: nat)
    requires Correct(p, Release(k, a))
    ensures Take(Apply(p, Release(k, a)), k) == Outcome(p, a)
  {
    assert p.held[k] - {a} + {a} == p.held[k];
  }

  /** The pool is touched only when the allocator's own list is empty; then the page is the pool's next one. */
  lemma AllocTakes(p: Pool, k: nat)
    requires k < KINDS
    ensures var o := Take(p, k);
      && (p.free[k] != [] ==> o.page == p.free[k][0] && o.pool.free[k] == p.free[k][1..] && o.pool.base == p.base)
      && (p.free[k] == [] ==> o.pool.free == p.free && o.page == if p.base == p.limit then 0 else p.base)
      && (p.free[k] == [] ==> o.pool.base == if p.base == p.limit then p.base else p.base + PAGE)
  {
  }

  // ---------------------------------------------------------------- the links

  function After(q: seq<nat>, i: nat): nat { if i + 1 < |q| then q[i + 1] else 0 }

  /** Following first words from `head` visits `q` and ends at null. */
  ghost predicate Chain(link: map<nat, nat>, head: nat, q: seq<nat>) {
    && head == (if q == [] then 0 else q[0])
    && forall i :: 0 <= i < |q| ==> q[i] != 0 && q[i] in link && link[q[i]] == After(q, i)
  }

  ghost predicate Chains(link: map<nat, nat>, heads: seq<nat>, free: Free) {
    |heads| == KINDS && forall k :: 0 <= k < KINDS ==> Chain(link, heads[k], free[k])
  }

  /** Writing the first word of a page that is on no free list. */
  lemma ChainsFrame(link: map<nat, nat>, heads: seq<nat>, free: Free, a: nat, v: nat)
    requires Chains(link, heads, free) && forall k :: 0 <= k < KINDS ==> a !in free[k]
    ensures Chains(link[a := v], heads, free)
  {
  }

  lemma ChainsPush(link: map<nat, nat>, heads: seq<nat>, free: Free, k: nat, a: nat)
    requires Chains(link, heads, free) && k < KINDS && a != 0 && forall m :: 0 <= m < KINDS ==> a !in free[m]
    ensures Chains(link[a := heads[k]], heads[k := a], free[k := [a] + free[k]])
  {
  }

  lemma ChainsPop(link: map<nat, nat>, heads: seq<nat>, free: Free, k: nat)
    requires Chains(link, heads, free) && k < KINDS && free[k] != []
    ensures free[k][0] in link && Chains(link, heads[k := link[free[k][0]]], free[k := free[k][1..]])
  {
  }

  class Allocators {
    var link: map<nat, nat>
    var list: seq<nat>
    var base: nat
    var limit: nat

    ghost var free: Free
    ghost var held: Held

    ghost function P(): Pool
      reads this
    {
      Pool(free, held, base, limit)
    }

    ghost predicate Valid()
      reads this
    {
      Chains(link, list, free)
    }

    constructor (start: nat, end: nat)
      ensures Valid() && P() == Initial(start, end)
    {
      link, list, base, limit := map[], [0, 0, 0, 0], start, end;
      free, held := [[], [], [], []], [{}, {}, {}, {}];
    }

    /** `pmm_alloc`, inside its lock: null exactly when the pool is exhausted; otherwise a page that no
        allocator has, free or held, and the pulled pages are then those before and this one. */
    method PmmAlloc(ghost start: nat) returns (a: nat)
      requires Conserved(P(), start)
      modifies this`base
      ensures a == 0 <==> old(base) == limit
      ensures a == 0 ==> base == old(base)
      ensures a != 0 ==> a == old(base) && base == a + PAGE <= limit
      ensures a != 0 ==> forall k :: 0 <= k < KINDS ==> !At(old(P()), a, k)
      ensures a != 0 ==> forall b :: Pulled(P(), start, b) <==> Pulled(old(P()), start, b) || b == a
    {
      if base == limit {
        a := 0;
      } else {
        a := base;
        forall b ensures Pulled(P().(base := base + PAGE), start, b) <==> Pulled(P(), start, b) || b == a {
          NextPulled(P(), start, b);
        }
        base := base + PAGE;
      }
    }

    /** The `alloc` routine: pop the list; if it is empty pull a page onto it and retry. */
    method Alloc(k: nat, ghost start: nat) returns (a: nat)
      requires Valid() && k < KINDS && Conserved(P(), start)
      modifies this
      ensures Valid() && Outcome(P(), a) == Take(old(P()), k) && Conserved(P(), start)
    {
      ApplyKeeps(P(), Op.Alloc(k), start);
      ghost var pulled := false;
      while true
        invariant Valid() && Take(P(), k) == Take(old(P()), k) && limit == old(limit)
        invariant pulled ==> free[k] != []
        invariant !pulled ==> P() == old(P())
        decreases !pulled
      {
        a := list[k];
        if a != 0 {
          ChainsPop(link, list, free, k);
          list := list[k := link[a]];
          free := free[k := free[k][1..]];
          held := held[k := held[k] + {a}];
          return a;
        }
        assert Chain(link, list[k], free[k]) && free[k] == [];
        a := PmmAlloc(start);
        if a == 0 {
          return 0;
        }
        NewPageFree(old(P()), start);
        ChainsPush(link, list, free, k, a);
        link := link[a := list[k]];
        list := list[k := a];
        free := free[k := [a] + free[k]];
        pulled := true;
      }
    }

    /** The `free` routine. */
    method Free(k: nat, a: nat, ghost start: nat)
      requires Valid() && Conserved(P(), start) && Correct(P(), Release(k, a))
      modifies this
      ensures Valid() && P() == Give(old(P()), k, a) && Conserved(P(), start)
    {
      HeldNotFree(P(), start, k, a);
      GiveKeeps(P(), k, a, start);
      ChainsPush(link, list, free, k, a);
      link := link[a := list[k]];
      list := list[k := a];
      free := free[k := [a] + free[k]];
      held := held[k := held[k] - {a}];
    }

    /** A client overwriting a page it holds disturbs no free list. */
    method ClientWrite(k: nat, a: nat, v: nat, ghost start: nat)
      requires Valid() && Conserved(P(), start) && k < KINDS && a in held[k]
      modifies this`link
      ensures Valid() && P() == old(P())
    {
      HeldNotFree(P(), start, k, a);
      ChainsFrame(link, list, free, a, v);
      link := link[a := v];
    }
  }

  lemma HeldNotFree(p: Pool, start: nat, k: nat, a: nat)
    requires Conserved(p, start) && k < KINDS && a in p.held[k]
    ensures a != 0 && forall m :: 0 <= m < KINDS ==> a !in p.free[m]
  {
    assert At(p, a, k) && Apart(p, k) && Pulled(p, start, a);
    forall m | 0 <= m < KINDS ensures a !in p.free[m] { assert At(p, a, m) ==> m == k; }
  }

  lemma NewPageFree(p: Pool, start: nat)
    requires Conserved(p, start)
    ensures p.base != 0 && forall m :: 0 <= m < KINDS ==> p.base !in p.free[m]
  {
    assert !Pulled(p, start, p.base);
    forall m | 0 <= m < KINDS ensures p.base !in p.free[m] { assert !At(p, p.base, m); }
  }
}

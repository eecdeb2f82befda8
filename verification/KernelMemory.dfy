/** The kernel's static variables and TCB links, updated in place. All four lists share the one
    `next` link of each TCB. Every method is proved against the state machine of `Threads`. */
module KernelMemory {
  import opened Base
  import opened Threads
  import TcbTable
  import opened ThreadInvariants
  import opened ThreadSteps
  import opened TapSteps

  type Links = map<Tid, Option<Tid>>

  function First(q: seq<Tid>): Option<Tid> { if q == [] then None else Some(q[0]) }

  function Last(q: seq<Tid>): Option<Tid> { if q == [] then None else Some(q[|q| - 1]) }

  /** Following `next` from `head` visits exactly `q` and then ends. */
  ghost predicate Linked(next: Links, head: Option<Tid>, q: seq<Tid>) {
    && head == First(q)
    && forall i :: 0 <= i < |q| ==> q[i] in next && next[q[i]] == First(q[i + 1..])
  }

  lemma LinkedFrame(next: Links, next1: Links, head: Option<Tid>, q: seq<Tid>)
    requires Linked(next, head, q) && forall t :: t in q ==> t in next1 && next1[t] == next[t]
    ensures Linked(next1, head, q)
  {
  }

  lemma LinkedPush(next: Links, next1: Links, head: Option<Tid>, q: seq<Tid>, t: Tid)
    requires Linked(next, head, q) && NoDup(q) && t !in q
    requires t in next1 && next1[t] == None
    requires q != [] ==> q[|q| - 1] in next1 && next1[q[|q| - 1]] == Some(t)
    requires forall i :: 0 <= i < |q| - 1 ==> q[i] in next1 && next1[q[i]] == next[q[i]]
    ensures Linked(next1, First(q + [t]), q + [t])
  {
  }

  lemma LinkedTail(next: Links, head: Option<Tid>, q: seq<Tid>)
    requires Linked(next, head, q) && q != []
    ensures q[0] in next && Linked(next, next[q[0]], q[1..])
  {
  }

  /** Unlinking the element at `k` by redirecting its predecessor. */
  lemma LinkedRemove(next: Links, next1: Links, head: Option<Tid>, q: seq<Tid>, k: nat)
    requires Linked(next, head, q) && NoDup(q) && 0 < k < |q|
    requires next1 == next[q[k - 1] := next[q[k]]]
    ensures Linked(next1, head, q[..k] + q[k + 1..])
  {
  }

  lemma {:induction false} RemoveAt(q: seq<Tid>, k: nat)
    requires k < |q| && forall i :: 0 <= i < k ==> q[i] != q[k]
    ensures RemoveOne(q, q[k]) == q[..k] + q[k + 1..]
  {
    if k == 0 {
      assert q[..0] + q[1..] == q[1..];
    } else {
      var r := q[1..];
      assert r[k - 1] == q[k];
      RemoveAt(r, k - 1);
      assert q[..k] == [q[0]] + r[..k - 1] && q[k + 1..] == r[k..];
    }
  }

  lemma {:induction false} RemoveAbsent(q: seq<Tid>, t: Tid)
    requires t !in q
    ensures RemoveOne(q, t) == q
  {
    if q != [] {
      RemoveAbsent(q[1..], t);
      assert q == [q[0]] + q[1..];
    }
  }

  lemma LinkedCons(next: Links, head: Option<Tid>, q: seq<Tid>, t: Tid)
    requires Linked(next, head, q) && t in next && next[t] == head
    ensures Linked(next, Some(t), [t] + q)
  {
  }

  predicate Listed(l: Lists, t: Tid) { t in l[0] || t in l[1] || t in l[2] }

  ghost predicate Distinct(runq: seq<Tid>, l: Lists) {
    && NoDup(runq) && NoDup(l[0]) && NoDup(l[1]) && NoDup(l[2])
    && (forall t :: t in runq ==> !Listed(l, t))
    && (forall t :: t in l[0] ==> t !in l[1] && t !in l[2])
    && (forall t :: t in l[1] ==> t !in l[2])
  }

  ghost predicate LinkedLists(next: Links, heads: seq<Option<Tid>>, l: Lists) {
    |heads| == 3 && Linked(next, heads[0], l[0]) && Linked(next, heads[1], l[1]) && Linked(next, heads[2], l[2])
  }

  /** A link change at threads on none of the three lists leaves the lists as they are. */
  lemma LinkedListsFrame(next: Links, next1: Links, heads: seq<Option<Tid>>, l: Lists)
    requires LinkedLists(next, heads, l)
    requires forall t :: Listed(l, t) && t in next ==> t in next1 && next1[t] == next[t]
    ensures LinkedLists(next1, heads, l)
  {
  }

  function PushLinks(next: Links, tail: Option<Tid>, t: Tid): Links {
    var n := next[t := None];
    if tail.Some? then n[tail.value := Some(t)] else n
  }

  lemma PushRep(next: Links, head: Option<Tid>, heads: seq<Option<Tid>>, q: seq<Tid>, l: Lists, t: Tid)
    requires Linked(next, head, q) && LinkedLists(next, heads, l) && Distinct(q, l) && t !in q && !Listed(l, t)
    ensures var n := PushLinks(next, Last(q), t);
      && Linked(n, First(q + [t]), q + [t]) && LinkedLists(n, heads, l) && Distinct(q + [t], l)
  {
    var n := PushLinks(next, Last(q), t);
    LinkedPush(next, n, head, q, t);
    assert q != [] ==> q[|q| - 1] in q;
    LinkedListsFrame(next, n, heads, l);
  }

  lemma DistinctTail(q: seq<Tid>, l: Lists)
    requires Distinct(q, l) && q != []
    ensures Distinct(q[1..], l)
  {
  }

  lemma UnlinkDistinct(q: seq<Tid>, l: Lists, k: nat)
    requires Distinct(q, l) && k < |q|
    ensures Distinct(q[..k] + q[k + 1..], l)
  {
  }

  lemma UnlinkRep(next: Links, head: Option<Tid>, heads: seq<Option<Tid>>, q: seq<Tid>, l: Lists, k: nat)
    requires Linked(next, head, q) && LinkedLists(next, heads, l) && Distinct(q, l) && 0 < k < |q|
    ensures var n := next[q[k - 1] := next[q[k]]]; var r := q[..k] + q[k + 1..];
      && Linked(n, head, r) && LinkedLists(n, heads, l) && r == RemoveOne(q, q[k])
      && Last(r) == if k + 1 == |q| then Some(q[k - 1]) else Last(q)
  {
    var n := next[q[k - 1] := next[q[k]]];
    LinkedRemove(next, n, head, q, k);
    RemoveAt(q, k);
    assert q[k - 1] in q;
    LinkedListsFrame(next, n, heads, l);
  }

  lemma EnqueueRep(next: Links, head: Option<Tid>, heads: seq<Option<Tid>>, q: seq<Tid>, l: Lists, k: nat, t: Tid)
    requires Linked(next, head, q) && LinkedLists(next, heads, l) && Distinct(q, l) && t !in q && !Listed(l, t) && k < 3
    ensures var n := next[t := heads[k]]; var l1: Lists := l[k := [t] + l[k]];
      && Linked(n, head, q) && LinkedLists(n, heads[k := Some(t)], l1) && Distinct(q, l1)
  {
    var n := next[t := heads[k]];
    LinkedFrame(next, n, head, q);
    LinkedListsFrame(next, n, heads, l);
    LinkedCons(n, heads[k], l[k], t);
    EnqueueDistinct(q, l, k, t);
  }

  lemma EnqueueDistinct(q: seq<Tid>, l: Lists, k: nat, t: Tid)
    requires Distinct(q, l) && t !in q && !Listed(l, t) && k < 3
    ensures Distinct(q, l[k := [t] + l[k]])
  {
  }

  lemma DequeueRep(next: Links, heads: seq<Option<Tid>>, q: seq<Tid>, l: Lists, k: nat)
    requires LinkedLists(next, heads, l) && Distinct(q, l) && k < 3 && l[k] != []
    ensures l[k][0] in next
    ensures var l1: Lists := l[k := l[k][1..]];
      LinkedLists(next, heads[k := next[l[k][0]]], l1) && Distinct(q, l1)
  {
  }

  predicate MayResume(r: RunState) { r == Suspended || r == SuspendedWaiting }

  class Kernel {
    var tcb: map<Tid, Tcb>
    var next: Links
    var scheduleHead: Option<Tid>
    var scheduleTail: Option<Tid>
    var queueHead: seq<Option<Tid>>
    var activeTcb: Option<Tid>
    var routes: map<nat, Route>

    ghost var runq: seq<Tid>
    ghost var pending: Lists
    ghost var dropped: set<(Tid, nat)>
    ghost var injected: nat

    ghost function Abs(): State
      reads this
    {
      State(tcb, activeTcb, runq, pending, routes, dropped, injected)
    }

    ghost predicate Valid()
      reads this
    {
      && Linked(next, scheduleHead, runq) && scheduleTail == Last(runq)
      && LinkedLists(next, queueHead, pending)
      && Distinct(runq, pending)
    }

    ghost predicate OffLists(t: Tid)
      reads this
    {
      t !in runq && !Listed(pending, t)
    }

    /** `init`: one running thread, two installed vector pages, all lists empty. */
    constructor (junk: nat)
      ensures Valid() && Abs() == Initial(junk)
    {
      tcb := Initial(junk).tcb;
      next := map[];
      scheduleHead, scheduleTail, queueHead := None, None, [None, None, None];
      activeTcb, routes := Some(1), Initial(junk).routes;
      runq, pending, dropped, injected := [], [[], [], []], {}, 0;
    }

    // -------------------------------------------------------------- scheduler.c

    /** `scheduler_push_tcb`. */
    method PushTcb(t: Tid)
      requires Valid() && OffLists(t)
      modifies this
      ensures Valid() && Abs() == Push(old(Abs()), t)
    {
      next := next[t := None];
      if scheduleTail.Some? {
        next := next[scheduleTail.value := Some(t)];
      } else {
        scheduleHead := Some(t);
      }
      scheduleTail := Some(t);
      PushRep(old(next), old(scheduleHead), queueHead, runq, pending, t);
      runq := runq + [t];
    }

    /** `scheduler_pull_tcb`. */
    method PullTcb() returns (t: Option<Tid>)
      requires Valid()
      modifies this
      ensures Valid() && t == First(old(runq))
      ensures Abs() == old(Abs()).(runq := if t.None? then [] else old(runq)[1..])
    {
      t := scheduleHead;
      if scheduleHead.Some? {
        LinkedTail(next, scheduleHead, runq);
        DistinctTail(runq, pending);
        scheduleHead := next[scheduleHead.value];
      }
      if scheduleTail == t {
        scheduleTail := None;
      }
      if t.Some? {
        runq := runq[1..];
      }
    }

    /** `scheduler_rem_tcb`: deletes exactly `t`, or returns 1 and changes nothing. */
    method RemTcb(t: Tid) returns (r: int)
      requires Valid()
      modifies this
      ensures Valid() && Abs() == old(Abs()).(runq := RemoveOne(old(runq), t))
      ensures r == if t in old(runq) then 0 else 1
      ensures t !in old(runq) ==> Abs() == old(Abs()) && next == old(next)
    {
      if scheduleHead == Some(t) {
        LinkedTail(next, scheduleHead, runq);
        DistinctTail(runq, pending);
        scheduleHead := next[t];
        if scheduleTail == Some(t) {
          scheduleTail := None;
        }
        runq := runq[1..];
        return 0;
      }
      ghost var k;
      var p;
      p, k := FindPredecessor(t);
      if p.Some? {
        Unlink(p.value, t, k);
        return 0;
      }
      RemoveAbsent(runq, t);
      return 1;
    }

    /** The search loop: the element in front of `t`, if `t` is queued. */
    method FindPredecessor(t: Tid) returns (p: Option<Tid>, ghost k: nat)
      requires Valid() && scheduleHead != Some(t)
      ensures p.Some? ==> 0 < k < |runq| && runq[k - 1] == p.value && runq[k] == t
      ensures p.None? ==> t !in runq
    {
      p := scheduleHead;
      ghost var i := 0;
      while p.Some?
        invariant 0 <= i <= |runq| && p == First(runq[i..])
        invariant forall k :: 0 <= k <= i && k < |runq| ==> runq[k] != t
        decreases |runq| - i
      {
        assert next[runq[i]] == First(runq[i + 1..]);
        if next[p.value] == Some(t) {
          return p, i + 1;
        }
        p := next[p.value];
        i := i + 1;
      }
      k := 0;
    }

    /** The body of the search loop once the predecessor `p` of `t` is found. */
    method Unlink(p: Tid, t: Tid, ghost k: nat)
      requires Valid() && 0 < k < |runq| && runq[k - 1] == p && runq[k] == t
      modifies this
      ensures Valid() && Abs() == old(Abs()).(runq := RemoveOne(old(runq), t)) && t in old(runq)
    {
      next := next[p := next[t]];
      if scheduleTail == Some(t) {
        scheduleTail := Some(p);
      }
      UnlinkRep(old(next), scheduleHead, queueHead, runq, pending, k);
      UnlinkDistinct(runq, pending, k);
      runq := runq[..k] + runq[k + 1..];
    }

    /** `scheduler_schedule`, with `ccb_unload_tcb` and `ccb_load_tcb` on the active slot. */
    method SchedulerSchedule()
      requires Valid()
      requires activeTcb.Some? ==> activeTcb.value in tcb && OffLists(activeTcb.value)
      requires forall t :: t in runq ==> t in tcb
      modifies this
      ensures Valid() && Abs() == Schedule(old(Abs()))
    {
      var oldTcb := activeTcb;
      activeTcb := None;
      if oldTcb.Some? {
        tcb := tcb[oldTcb.value := tcb[oldTcb.value].(state := Queued)];
        PushTcb(oldTcb.value);
      }
      assert Abs() == Requeue(old(Abs()));
      var newTcb := PullTcb();
      if newTcb.Some? {
        tcb := tcb[newTcb.value := tcb[newTcb.value].(state := Running)];
        activeTcb := newTcb;
      } else {
        activeTcb := Some(IDLE);
        injected := injected + 1;
      }
    }

    // -------------------------------------------------------------- queues.c

    /** `enqueue` on list `k`: the lists are last-in first-out. */
    method QueueFault(k: nat, t: Tid)
      requires Valid() && k < 3 && OffLists(t)
      modifies this
      ensures Valid() && Abs() == Enqueue(old(Abs()), k, t)
    {
      next := next[t := queueHead[k]];
      queueHead := queueHead[k := Some(t)];
      EnqueueRep(old(next), scheduleHead, old(queueHead), runq, pending, k, t);
      pending := pending[k := [t] + pending[k]];
    }

    /** `get_queued` on list `k`. */
    method GetQueued(k: nat) returns (t: Option<Tid>)
      requires Valid() && k < 3
      modifies this
      ensures Valid() && Abs() == Dequeue(old(Abs()), k) && t == First(old(pending)[k])
    {
      t := queueHead[k];
      if t.Some? {
        DequeueRep(next, queueHead, runq, pending, k);
        queueHead := queueHead[k := next[t.value]];
        pending := pending[k := pending[k][1..]];
      }
    }

    /** `has_queued`. */
    method HasQueued(k: nat) returns (b: bool)
      requires Valid() && k < 3
      ensures b <==> pending[k] != []
    {
      b := queueHead[k].Some?;
    }

    // -------------------------------------------------------------- interrupt_vector.c

    /** `interrupt_add_route`: the first free slot of the four, or none. */
    method InterruptAddRoute(t: Tid, vec: nat)
      requires Valid()
      modifies this
      ensures Valid() && Abs() == AddRoute(old(Abs()), t, vec)
    {
      if vec in routes {
        for i := 0 to 4
          invariant Valid() && Abs() == old(Abs())
          invariant forall k :: 0 <= k < i ==> routes[vec][k].Some?
        {
          if routes[vec][i].None? {
            routes := routes[vec := routes[vec][i := Some(t)]];
            return;
          }
        }
        dropped := dropped + {(t, vec)};
      }
    }

    /** `interrupt_remove_route`. */
    method InterruptRemoveRoute(t: Tid, vec: nat)
      requires Valid()
      modifies this
      ensures Valid() && Abs() == RemoveRoute(old(Abs()), t, vec)
    {
      if vec in routes {
        for i := 0 to 4
          invariant Valid() && Abs() == old(Abs())
          invariant forall k :: 0 <= k < i ==> routes[vec][k] != Some(t)
        {
          if routes[vec][i] == Some(t) {
            routes := routes[vec := routes[vec][i := None]];
            return;
          }
        }
      }
    }

    /** The tap loop of `interrupt_vector_fire` for one routed thread. */
    method NotifyTcb(t: Tid, vec: nat)
      requires Valid() && t in tcb && (tcb[t].state == Waiting ==> OffLists(t))
      modifies this
      ensures Valid() && Abs() == Notify(old(Abs()), vec, t)
    {
      for j := 0 to 4
        invariant Valid() && Abs() == old(Abs())
        invariant forall k :: 0 <= k < j ==> tcb[t].tap[k].vec != vec
      {
        if tcb[t].tap[j].vec == vec {
          tcb := tcb[t := tcb[t].(tap := tcb[t].tap[j := tcb[t].tap[j].(fired := true)])];
          match tcb[t].state {
            case Waiting =>
              PushTcb(t);
              tcb := tcb[t := tcb[t].(state := Queued, rax := vec)];
            case SuspendedWaiting =>
              tcb := tcb[t := tcb[t].(state := Suspended, rax := vec)];
            case _ =>
          }
          return;
        }
      }
    }

    /** `interrupt_vector_fire`. */
    method InterruptVectorFire(vec: nat)
      requires Valid() && Core(Abs())
      modifies this
      ensures Valid() && Abs() == Fire(old(Abs()), vec)
    {
      if vec in routes {
        ghost var r := routes[vec];
        assert r[0..] == r;
        for i := 0 to 4
          invariant Valid() && Core(Abs()) && vec in routes && routes[vec] == r
          invariant NotifyAll(Abs(), vec, r[i..]) == Fire(old(Abs()), vec)
        {
          assert r[i..][0] == r[i] && r[i..][1..] == r[i + 1..];
          var x := routes[vec][i];
          if x.Some? {
            SlotHolds(Abs(), vec, i);
            NotifyCore(Abs(), vec, x.value);
            SleeperOffLists(x.value);
            NotifyTcb(x.value, vec);
          }
        }
      }
    }

    lemma SleeperOffLists(t: Tid)
      requires Core(Abs()) && t in tcb
      ensures Sleeping(tcb[t]) ==> OffLists(t)
    {
    }

    /** `interrupt_vector_reset` with `pinion_on_reset`; resetting an IRQ vector changes nothing here. */
    method InterruptVectorReset(vec: nat)
      requires Valid() && Core(Abs())
      modifies this
      ensures Valid() && Abs() == VectorReset(old(Abs()), vec)
    {
      if vec in routes && vec / 128 == 1 && vec % 128 < 3 {
        var work := HasQueued(vec % 128);
        if work {
          InterruptVectorFire(vec);
        }
      }
    }

    // -------------------------------------------------------------- API calls

    /** `tcb_get`. */
    method TcbGet(thread: int) returns (t: Option<Tid>)
      ensures t == Lookup(Abs(), thread)
    {
      var id := thread % 0x1_0000_0000;
      t := if 0 < id < TCB_LIMIT && id in tcb then Some(id) else None;
    }

    method TargetOf(thread: int) returns (t: Option<Tid>)
      ensures t == Target(Abs(), thread)
    {
      var id := thread;
      if thread == -1 && activeTcb.Some? {
        id := activeTcb.value;
      }
      t := TcbGet(id);
    }

    /** `thread_create` with the search of `tcb_new`: on success the thread is new, suspended and untapped,
        and every lower id was in use; it fails, changing nothing, exactly without a TCB or a free id. */
    method ThreadCreate(ok: bool, junk: nat) returns (id: nat)
      requires Valid()
      modifies this
      ensures Valid() && Abs() == CreateThread(old(Abs()), ok, junk)
      ensures id == 0 <==> !ok || forall k :: 1 <= k < TCB_LIMIT ==> k in old(tcb)
      ensures id == 0 ==> Abs() == old(Abs())
      ensures id != 0 ==> id < TCB_LIMIT && id !in old(tcb) && forall k :: 1 <= k < id ==> k in old(tcb)
      ensures id != 0 ==> tcb == old(tcb)[id := Tcb(Suspended, NO_TAPS, junk)]
    {
      if !ok {
        return 0;
      }
      var i := 1;
      while i < TCB_LIMIT && i in tcb
        invariant 1 <= i <= TCB_LIMIT && forall k :: 1 <= k < i ==> k in tcb
      {
        i := i + 1;
      }
      TcbTable.LowestIsLowestFree(tcb.Keys, i);
      if i == TCB_LIMIT {
        return 0;
      }
      tcb := tcb[i := Tcb(Suspended, NO_TAPS, junk)];
      return i;
    }

    method ThreadPause(thread: int) returns (ok: bool)
      requires Valid()
      modifies this
      ensures Valid() && Abs() == PauseThread(old(Abs()), thread)
      ensures ok <==> Target(old(Abs()), thread).Some? && old(tcb)[Target(old(Abs()), thread).value].state != Free
    {
      var x := TargetOf(thread);
      if x.None? {
        return false;
      }
      var t := x.value;
      match tcb[t].state {
        case Suspended =>
        case SuspendedWaiting =>
        case Waiting =>
          tcb := tcb[t := tcb[t].(state := SuspendedWaiting)];
        case Queued =>
          var _ := RemTcb(t);
          tcb := tcb[t := tcb[t].(state := Suspended)];
        case Running =>
          tcb := tcb[t := tcb[t].(state := Suspended)];
        case Free =>
          return false;
      }
      return true;
    }

    method ThreadResume(thread: int) returns (ok: bool)
      requires Valid() && Inv(Abs()) && activeTcb != Some(IDLE) && !ResumesListed(Abs(), thread)
      modifies this
      ensures Valid() && Abs() == ResumeThread(old(Abs()), thread)
      ensures ok <==> Target(old(Abs()), thread).Some? && MayResume(old(tcb)[Target(old(Abs()), thread).value].state)
    {
      var x := TargetOf(thread);
      if x.None? {
        return false;
      }
      var t := x.value;
      match tcb[t].state {
        case Suspended =>
          PushTcb(t);
          tcb := tcb[t := tcb[t].(state := Queued)];
        case SuspendedWaiting =>
          tcb := tcb[t := tcb[t].(state := Waiting)];
        case _ =>
          return false;
      }
      return true;
    }

    method ThreadReap(thread: int) returns (ok: bool)
      requires Valid()
      modifies this
      ensures Valid() && Abs() == ReapThread(old(Abs()), thread)
      ensures ok <==> Lookup(old(Abs()), thread).Some? && old(tcb)[Lookup(old(Abs()), thread).value].state == Suspended
    {
      var x := TcbGet(thread);
      if x.None? || tcb[x.value].state != Suspended {
        return false;
      }
      tcb := tcb - {x.value};
      dropped := set p | p in dropped && p.0 != x.value;
      return true;
    }

    method ThreadExit()
      requires Valid() && Inv(Abs()) && activeTcb != Some(IDLE)
      modifies this
      ensures Valid() && Abs() == ExitThread(old(Abs()))
    {
      var t := activeTcb.value;
      StopKeeps(Abs());
      ActiveOffLists(t);
      tcb := tcb[t := tcb[t].(state := Suspended)];
      QueueFault(ZOMBIE, t);
      InterruptVectorFire(FAULT_VECTOR + ZOMBIE);
    }

    /** `set_tap` up to the vector reset: drop the old route, replace the tap, add the new route. */
    method Retap(t: Tid, index: nat, vec: nat)
      requires Valid() && t in tcb && index < 4
      modifies this
      ensures Valid() && Abs() == Retapped(old(Abs()), t, index, vec)
    {
      ghost var prev := tcb[t].tap[index].vec;
      if tcb[t].tap[index].vec != 0 {
        InterruptRemoveRoute(t, tcb[t].tap[index].vec);
      }
      tcb := tcb[t := tcb[t].(tap := tcb[t].tap[index := Tap(vec, false)])];
      dropped := dropped - {(t, prev)};
      InterruptAddRoute(t, vec);
    }

    lemma ActiveOffLists(t: Tid)
      requires Inv(Abs()) && activeTcb == Some(t)
      ensures OffLists(t) && t in tcb
    {
    }

    method InterruptSetTap(index: nat, vec: nat) returns (ok: bool)
      requires Valid() && Core(Abs()) && activeTcb.Some? && activeTcb.value in tcb && activeTcb.value != IDLE
      requires !TapsTwice(Abs(), index, Narrow(vec))
      modifies this
      ensures Valid() && Abs() == SetTapCall(old(Abs()), index, Narrow(vec))
      ensures ok <==> index < 4 && Narrow(vec) < 0x4000
    {
      if index >= 4 || vec % 0x1_0000 >= 0x4000 {
        return false;
      }
      var tap := vec % 0x1_0000;
      RetappedCore(Abs(), activeTcb.value, index, tap);
      Retap(activeTcb.value, index, tap);
      InterruptVectorReset(tap);
      return true;
    }

    /** The body of the `interrupt_reset` loop once tap `i` is found. */
    method ResetTap(t: Tid, i: nat, vec: nat)
      requires Valid() && Inv(Abs()) && t in tcb && t != IDLE && i < 4 && i == FindTap(tcb[t].tap, vec)
      modifies this
      ensures Valid() && Abs() == VectorReset(ClearTap(old(Abs()), t, i), vec)
    {
      ClearTapKeeps(Abs(), t, vec);
      tcb := tcb[t := tcb[t].(tap := tcb[t].tap[i := tcb[t].tap[i].(fired := false)])];
      InterruptVectorReset(vec);
    }

    method InterruptReset(vec: nat)
      requires Valid() && Inv(Abs()) && activeTcb != Some(IDLE)
      modifies this
      ensures Valid() && Abs() == ResetCall(old(Abs()), vec)
    {
      var t := activeTcb.value;
      for i := 0 to 4
        invariant Valid() && Abs() == old(Abs())
        invariant i <= FindTap(tcb[t].tap, vec)
      {
        if tcb[t].tap[i].vec == vec {
          ResetTap(t, i, vec);
          return;
        }
      }
    }

    /** Returns the vector of a fired tap at once, or goes to sleep (0, patched on wakeup). */
    method InterruptWait() returns (vec: nat)
      requires Valid() && activeTcb.Some? && activeTcb.value in tcb
      modifies this
      ensures Valid() && Abs() == WaitCall(old(Abs()))
      ensures vec == var tap := old(tcb)[old(activeTcb).value].tap;
        if FirstFired(tap) < 4 then tap[FirstFired(tap)].vec else 0
    {
      var t := activeTcb.value;
      for i := 0 to 4
        invariant Valid() && Abs() == old(Abs())
        invariant forall k :: 0 <= k < i ==> !tcb[t].tap[k].fired
      {
        if tcb[t].tap[i].fired {
          return tcb[t].tap[i].vec;
        }
      }
      tcb := tcb[t := tcb[t].(state := Waiting)];
      return 0;
    }

    // -------------------------------------------------------------- init.c

    /** Vector 0x100 with rdi = 0. */
    method YieldIfStopped()
      requires Valid() && Core(Abs()) && Notified(Abs()) && activeTcb.Some? && activeTcb.value in tcb
      requires activeTcb.value != IDLE
      requires tcb[activeTcb.value].state == Running ==> !OnPending(Abs(), activeTcb.value)
      modifies this
      ensures Valid() && Abs() == YieldUnlessRunning(old(Abs()))
    {
      if tcb[activeTcb.value].state != Running {
        activeTcb := None;
      }
      SchedulerSchedule();
    }

    /** The page-fault and misc-fault branches of `fault`. */
    method ReportFault(k: nat)
      requires Valid() && Inv(Abs()) && activeTcb != Some(IDLE) && k < 3
      modifies this
      ensures Valid() && Abs() == FaultStep(old(Abs()), k)
    {
      var t := activeTcb.value;
      FaultEnqueued(Abs(), k);
      ActiveOffLists(t);
      activeTcb := None;
      QueueFault(k, t);
      FiredRunnable(Abs(), FAULT_VECTOR + k);
      InterruptVectorFire(FAULT_VECTOR + k);
      SchedulerSchedule();
    }

    /** `fault`: the timer, page faults, other CPU faults; device interrupts are ignored. */
    method Fault(ivect: nat)
      requires Valid() && Inv(Abs()) && Enabled(Abs(), Interrupt(ivect))
      modifies this
      ensures Valid() && Abs() == Step(old(Abs()), Interrupt(ivect))
    {
      if ivect == 32 {
        SchedulerSchedule();
      } else if ivect == 14 {
        ReportFault(PAGEFAULT);
      } else if ivect < 32 {
        ReportFault(MISCFAULT);
      }
    }

    method PauseThenYield(thread: int)
      requires Valid() && Inv(Abs()) && activeTcb != Some(IDLE)
      modifies this
      ensures Valid() && Abs() == YieldUnlessRunning(PauseThread(old(Abs()), thread))
    {
      PauseThreadKeeps(Abs(), thread);
      var _ := ThreadPause(thread);
      YieldIfStopped();
    }

    method ResumeThenYield(thread: int)
      requires Valid() && Inv(Abs()) && activeTcb != Some(IDLE) && !ResumesListed(Abs(), thread)
      modifies this
      ensures Valid() && Abs() == Schedule(ResumeThread(old(Abs()), thread))
    {
      ResumeThreadKeeps(Abs(), thread);
      var _ := ThreadResume(thread);
      SchedulerSchedule();
    }

    method ExitThenYield()
      requires Valid() && Inv(Abs()) && activeTcb != Some(IDLE)
      modifies this
      ensures Valid() && Abs() == YieldUnlessRunning(ExitThread(old(Abs())))
    {
      ExitThreadKeeps(Abs());
      ThreadExit();
      YieldIfStopped();
    }

    method WaitThenYield()
      requires Valid() && Inv(Abs()) && activeTcb != Some(IDLE)
      modifies this
      ensures Valid() && Abs() == YieldUnlessRunning(WaitCall(old(Abs())))
    {
      WaitCallKeeps(Abs());
      var _ := InterruptWait();
      YieldIfStopped();
    }

    method CreateThenYield(ok: bool, junk: nat)
      requires Valid() && Inv(Abs())
      modifies this
      ensures Valid() && Abs() == Schedule(CreateThread(old(Abs()), ok, junk))
    {
      CreateThreadKeeps(Abs(), ok, junk);
      var _ := ThreadCreate(ok, junk);
      SchedulerSchedule();
    }

    /** One API call with its trailing yield, or one interrupt: the in-place kernel does what `Step` says. */
    method Perform(e: Event)
      requires Valid() && Inv(Abs()) && Enabled(Abs(), e)
      modifies this
      ensures Valid() && Abs() == Step(old(Abs()), e)
    {
      match e {
        case Interrupt(n) =>
          Fault(n);
        case Yield =>
          SchedulerSchedule();
        case Create(ok, junk) =>
          CreateThenYield(ok, junk);
        case Pause(x) =>
          PauseThenYield(x);
        case Resume(x) =>
          ResumeThenYield(x);
        case Exit =>
          ExitThenYield();
        case Reap(x) =>
          var _ := ThreadReap(x);
        case SetTap(i, v) =>
          var _ := InterruptSetTap(i, v);
        case Reset(v) =>
          InterruptReset(v);
        case Wait =>
          WaitThenYield();
        case GetFault(k) =>
          if k < 3 {
            var _ := GetQueued(k);
          }
      }
    }

    /** Any legal sequence of events, from any state satisfying the invariant. */
    method Handle(es: seq<Event>)
      requires Valid() && Inv(Abs()) && Legal(Abs(), es)
      modifies this
      ensures Valid() && Abs() == Run(old(Abs()), es) && Inv(Abs())
    {
      for i := 0 to |es|
        invariant Valid() && Inv(Abs()) && Legal(Abs(), es[i..]) && Run(Abs(), es[i..]) == Run(old(Abs()), es)
      {
        assert es[i..][0] == es[i] && es[i..][1..] == es[i + 1..];
        StepKeeps(Abs(), es[i]);
        Perform(es[i]);
      }
    }
  }
}

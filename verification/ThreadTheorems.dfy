/** Whole-run theorems about threads, taps, lists and the scheduler. */
module ThreadTheorems {
  import opened Base
  import opened Threads
  import opened ThreadInvariants
  import opened ThreadSteps
  import opened TapSteps

  // ---------------------------------------------------------------- lists

  /** Every place a thread's `next` link or the active slot can name it. */
  ghost function Places(s: State): seq<Tid> {
    s.runq + s.pending[0] + s.pending[1] + s.pending[2] + if s.active.Some? then [s.active.value] else []
  }

  lemma NoDupConcat(a: seq<Tid>, b: seq<Tid>)
    requires NoDup(a) && NoDup(b) && forall t :: t in a ==> t !in b
    ensures NoDup(a + b)
  {
    forall i, j | 0 <= i < j < |a + b| ensures (a + b)[i] != (a + b)[j] {
      if i < |a| && j >= |a| { assert a[i] in a && b[j - |a|] in b; }
    }
  }

  lemma PlacesDistinct(s: State)
    requires Inv(s)
    ensures NoDup(Places(s))
  {
    var a := s.runq + s.pending[0];
    NoDupConcat(s.runq, s.pending[0]);
    NoDupConcat(a, s.pending[1]);
    NoDupConcat(a + s.pending[1], s.pending[2]);
    NoDupConcat(a + s.pending[1] + s.pending[2], [s.active.value]);
  }

  /** The run queue, the three lists and the active slot never name a thread twice, all named
      threads are live, and QUEUED means exactly: on the run queue. */
  lemma ListsDisjointInEveryRun(junk: nat, es: seq<Event>)
    requires Legal(Initial(junk), es)
    ensures var s := Run(Initial(junk), es);
      && NoDup(Places(s)) && s.active.Some?
      && (forall t :: t in Places(s) ==> t in s.tcb)
      && (forall t :: t in s.tcb ==> (s.tcb[t].state == Queued <==> t in s.runq))
  {
    InitialInv(junk);
    RunKeeps(Initial(junk), es);
    var s := Run(Initial(junk), es);
    PlacesDistinct(s);
    forall t | t in Places(s) ensures t in s.tcb {
      if t !in s.runq && t != s.active.value { assert OnPending(s, t); }
    }
  }

  predicate Tick(e: Event) { e == Interrupt(32) }

  lemma TickKeeps(s: State, e: Event)
    requires Inv(s) && Tick(e)
    ensures Enabled(s, e) && Inv(Step(s, e))
  {
    StepKeeps(s, e);
  }

  /** Runs never get stuck: from any state of the invariant the timer can tick any number of times. */
  lemma {:induction false} TicksLegal(s: State, es: seq<Event>)
    requires Inv(s) && forall i :: 0 <= i < |es| ==> Tick(es[i])
    ensures Legal(s, es)
    decreases |es|
  {
    if es != [] {
      TickKeeps(s, es[0]);
      TicksLegal(Step(s, es[0]), es[1..]);
    }
  }

  // ---------------------------------------------------------------- wakeups

  /** Every thread routed on `vec` has its flag set and is awake. */
  ghost predicate AllAwake(s: State, vec: nat) {
    vec in s.routes && forall i :: 0 <= i < 4 && s.routes[vec][i].Some? ==>
      var t := s.routes[vec][i].value; t in s.tcb && HasFired(s.tcb[t], vec) && !Sleeping(s.tcb[t])
  }

  lemma NotifiedAwake(s: State, vec: nat)
    requires Inv(s) && vec in s.routes && AllNotified(s, vec)
    ensures AllAwake(s, vec)
  {
  }

  /** A sleeper has no fired tap, and while a fault or zombie list has work every thread
      routed on its vector has the flag set, hence is awake. */
  lemma NoLostWakeup(junk: nat, es: seq<Event>)
    requires Legal(Initial(junk), es)
    ensures var s := Run(Initial(junk), es);
      && (forall t, j :: t in s.tcb && Sleeping(s.tcb[t]) && 0 <= j < 4 ==> !s.tcb[t].tap[j].fired)
      && (s.pending[PAGEFAULT] != [] ==> AllAwake(s, FAULT_VECTOR + PAGEFAULT))
      && (s.pending[MISCFAULT] != [] ==> AllAwake(s, FAULT_VECTOR + MISCFAULT))
      && (s.pending[ZOMBIE] != [] ==> AllAwake(s, FAULT_VECTOR + ZOMBIE))
  {
    InitialInv(junk);
    RunKeeps(Initial(junk), es);
    var s := Run(Initial(junk), es);
    if s.pending[PAGEFAULT] != [] { NotifiedAwake(s, 0x80); }
    if s.pending[MISCFAULT] != [] { NotifiedAwake(s, 0x81); }
    if s.pending[ZOMBIE] != [] { NotifiedAwake(s, 0x82); }
    forall t, j | t in s.tcb && Sleeping(s.tcb[t]) && 0 <= j < 4 ensures !s.tcb[t].tap[j].fired {
      assert !AnyFired(s.tcb[t]);
    }
  }

  // ---------------------------------------------------------------- routes

  /** `t` asked for `vec` in this step and all four slots belonged to other threads. */
  ghost predicate Refused(s: State, e: Event, t: Tid, vec: nat) {
    && e.SetTap? && Narrow(e.vec) == vec && s.active == Some(t) && vec in s.routes
    && forall i :: 0 <= i < 4 ==> s.routes[vec][i].Some? && s.routes[vec][i] != Some(t)
  }

  /** From here on `(t, vec)` stays a tap without a slot. */
  ghost predicate Stays(s: State, es: seq<Event>, t: Tid, vec: nat)
    decreases |es|
  {
    Unrouted(s, t, vec) && (es != [] ==> Stays(Step(s, es[0]), es[1..], t, vec))
  }

  /** `t` is live and holds `vec` in a tap, but has no slot of its route. */
  ghost predicate Unrouted(s: State, t: Tid, vec: nat) {
    t in s.tcb && vec in s.routes && Holds(s.tcb[t], vec) && FindSlot(s.routes[vec], Some(t)) == 4
  }

  /** Some step refused `t` a slot of `vec`, and ever since `t` has held the vector without a slot. */
  ghost predicate RefusedLast(s: State, es: seq<Event>, t: Tid, vec: nat)
    decreases |es|
  {
    es != [] && ((Refused(s, es[0], t, vec) && Stays(Step(s, es[0]), es[1..], t, vec))
                 || RefusedLast(Step(s, es[0]), es[1..], t, vec))
  }

  lemma DropOldTapFrees(s: State, t: Tid, index: nat, vec: nat)
    requires Routing(s) && t in s.tcb && index < 4 && vec in s.routes && Fresh(s.tcb[t], index, vec)
    requires FindSlot(DropOldTap(s, t, index).routes[vec], None) == 4
    ensures forall i :: 0 <= i < 4 ==> s.routes[vec][i].Some? && s.routes[vec][i] != Some(t)
  {
    DropOldTapRoutes(s, t, index, vec);
    ReplacedHolds(s.tcb[t], index, vec, vec);
    if s.tcb[t].tap[index].vec != vec { NotHeldNotRouted(s, t, vec); }
  }

  lemma DroppedSetTap(s: State, index: nat, v: nat, t: Tid, vec: nat)
    requires Inv(s) && Enabled(s, SetTap(index, v))
    requires (t, vec) in SetTapCall(s, index, Narrow(v)).dropped && (t, vec) !in s.dropped
    ensures Refused(s, SetTap(index, v), t, vec)
  {
    assert Rec(s, s.active.value) == s.tcb[s.active.value];
    DropOldTapFrees(s, s.active.value, index, Narrow(v));
  }

  lemma DroppedStep(s: State, e: Event, t: Tid, vec: nat)
    requires Inv(s) && Enabled(s, e) && (t, vec) in Step(s, e).dropped && (t, vec) !in s.dropped
    ensures Refused(s, e, t, vec)
  {
    if e.SetTap? { DroppedSetTap(s, e.index, e.vec, t, vec); } else { OthersDropNothing(s, e); }
  }

  lemma OthersDropNothing(s: State, e: Event)
    requires !e.SetTap?
    ensures Step(s, e).dropped <= s.dropped
  {
  }

  /** The history field records exactly the taps without a slot. */
  lemma DroppedIsUnrouted(s: State, t: Tid, vec: nat)
    requires Inv(s)
    ensures (t, vec) in s.dropped <==> Unrouted(s, t, vec)
  {
    if t in s.tcb && vec in s.routes { assert TapRouted(s, t, vec); }
  }

  lemma {:induction false} UnroutedRun(s: State, es: seq<Event>, t: Tid, vec: nat)
    requires Inv(s) && Legal(s, es) && Unrouted(Run(s, es), t, vec)
    ensures Stays(s, es, t, vec) || RefusedLast(s, es, t, vec)
    decreases |es|
  {
    DroppedIsUnrouted(s, t, vec);
    if es != [] {
      var s1 := Step(s, es[0]);
      StepKeeps(s, es[0]);
      UnroutedRun(s1, es[1..], t, vec);
      if Stays(s1, es[1..], t, vec) && !Unrouted(s, t, vec) {
        DroppedIsUnrouted(s1, t, vec);
        DroppedStep(s, es[0], t, vec);
      }
    }
  }

  /** Routed threads hold the vector and have one slot; a tap on an installed vector is routed
      unless, when it was set, four other threads had the slots: they refused it, and ever since
      the thread has held it without a slot. */
  lemma RoutesMatchTapsInEveryRun(junk: nat, es: seq<Event>)
    requires Legal(Initial(junk), es)
    ensures var s := Run(Initial(junk), es);
      && (forall v, i :: v in s.routes && 0 <= i < 4 && s.routes[v][i].Some? ==>
            s.routes[v][i].value in s.tcb && Holds(s.tcb[s.routes[v][i].value], v)
            && forall j :: 0 <= j < 4 && s.routes[v][j] == s.routes[v][i] ==> j == i)
      && (forall t, v :: t in s.tcb && v in s.routes && Holds(s.tcb[t], v) && FindSlot(s.routes[v], Some(t)) == 4 ==>
            RefusedLast(Initial(junk), es, t, v))
  {
    InitialInv(junk);
    RunKeeps(Initial(junk), es);
    var s := Run(Initial(junk), es);
    forall v, i | v in s.routes && 0 <= i < 4 && s.routes[v][i].Some?
      ensures s.routes[v][i].value in s.tcb && Holds(s.tcb[s.routes[v][i].value], v)
      ensures forall j :: 0 <= j < 4 && s.routes[v][j] == s.routes[v][i] ==> j == i
    {
      assert RouteOk(s, v);
      assert SlotOk(s, v, s.routes[v][i]);
    }
    forall t, v | t in s.tcb && v in s.routes && Holds(s.tcb[t], v) && FindSlot(s.routes[v], Some(t)) == 4
      ensures RefusedLast(Initial(junk), es, t, v)
    {
      UnroutedRun(Initial(junk), es, t, v);
    }
  }

  // ---------------------------------------------------------------- idle

  /** The idle TCB is injected at most once; afterwards it is always active or queued, so
      the queue is never again empty when pulled from. */
  lemma IdleInjectedOnce(junk: nat, es: seq<Event>)
    requires Legal(Initial(junk), es)
    ensures var s := Run(Initial(junk), es);
      s.injected <= 1 && (s.injected == 1 ==> s.active == Some(IDLE) || IDLE in s.runq)
  {
    InitialInv(junk);
    RunKeeps(Initial(junk), es);
  }

  // ---------------------------------------------------------------- round robin

  function IndexOf(q: seq<Tid>, t: Tid): (i: nat)
    ensures i <= |q| && (i < |q| ==> q[i] == t) && (i == |q| <==> t !in q)
  {
    if q == [] then 0 else if q[0] == t then 0 else 1 + IndexOf(q[1..], t)
  }

  lemma {:induction false} IndexOfAppend(q: seq<Tid>, r: seq<Tid>, t: Tid)
    requires t in q
    ensures IndexOf(q + r, t) == IndexOf(q, t)
  {
    if q[0] != t {
      assert (q + r)[1..] == q[1..] + r;
      IndexOfAppend(q[1..], r, t);
    }
  }

  lemma {:induction false} IndexOfRemoveOne(q: seq<Tid>, u: Tid, t: Tid)
    requires t in q && u != t
    ensures t in RemoveOne(q, u) && IndexOf(RemoveOne(q, u), t) <= IndexOf(q, t)
  {
    if q[0] != u && q[0] != t { IndexOfRemoveOne(q[1..], u, t); }
  }

  /** `t` stands no further back than position `k`. */
  predicate Within(s: State, t: Tid, k: int) { t in s.runq && IndexOf(s.runq, t) <= k }

  lemma NotifiesWithin(s: State, s1: State, t: Tid, k: int)
    requires AwakeUntouched(s, s1) && Within(s, t, k)
    ensures Within(s1, t, k)
  {
    assert s1.runq == s.runq + s1.runq[|s.runq|..];
    IndexOfAppend(s.runq, s1.runq[|s.runq|..], t);
  }

  lemma ScheduleWithin(s: State, t: Tid, k: int)
    requires Within(s, t, k)
    ensures Schedule(s).active == Some(t) || Within(Schedule(s), t, k - 1)
  {
    if s.active.Some? { IndexOfAppend(s.runq, [s.active.value], t); }
  }

  lemma FaultWithin(s: State, n: nat, t: Tid, k: int)
    requires Inv(s) && s.active != Some(IDLE) && n < 3 && Within(s, t, k)
    ensures FaultStep(s, n).active == Some(t) || Within(FaultStep(s, n), t, k - 1)
  {
    var s1 := Enqueue(Unload(s), n, s.active.value);
    UnloadKeeps(s);
    EnqueueKeeps(Unload(s), n, s.active.value);
    FireKeeps(s1, FAULT_VECTOR + n);
    NotifiesWithin(s1, Fire(s1, FAULT_VECTOR + n), t, k);
    ScheduleWithin(Fire(s1, FAULT_VECTOR + n), t, k);
  }

  lemma YieldWithin(s: State, t: Tid, k: int)
    requires Within(s, t, k)
    ensures YieldUnlessRunning(s).active == Some(t) || Within(YieldUnlessRunning(s), t, k - 1)
  {
    ScheduleWithin(s, t, k);
    ScheduleWithin(Unload(s), t, k);
  }

  lemma ResetWithin(s: State, vec: nat, t: Tid, k: int)
    requires Core(s) && NotifiedExcept(s, vec) && Within(s, t, k)
    ensures Within(VectorReset(s, vec), t, k)
  {
    VectorResetKeeps(s, vec);
    NotifiesWithin(s, VectorReset(s, vec), t, k);
  }

  ghost predicate PausesOther(s: State, e: Event, t: Tid) { e.Pause? ==> Target(s, e.thread) != Some(t) }

  lemma ExitWithin(s: State, t: Tid, k: int)
    requires Inv(s) && s.active != Some(IDLE) && Within(s, t, k)
    ensures Within(ExitThread(s), t, k)
  {
    var a := s.active.value;
    WithStateKeeps(s, a, Suspended);
    EnqueueKeeps(WithState(s, a, Suspended), ZOMBIE, a);
    FireKeeps(Enqueue(WithState(s, a, Suspended), ZOMBIE, a), FAULT_VECTOR + ZOMBIE);
    NotifiesWithin(Enqueue(WithState(s, a, Suspended), ZOMBIE, a), ExitThread(s), t, k);
  }

  lemma SetTapWithin(s: State, index: nat, vec: nat, t: Tid, k: int)
    requires Inv(s) && s.active != Some(IDLE) && !TapsTwice(s, index, vec) && Within(s, t, k)
    ensures Within(SetTapCall(s, index, vec), t, k)
  {
    if index < 4 && vec < 0x4000 {
      var a := s.active.value;
      RetappedCore(s, a, index, vec);
      RetappedNotifiedExcept(s, a, index, vec);
      RetappedTcb(s, a, index, vec);
      ResetWithin(Retapped(s, a, index, vec), vec, t, k);
    }
  }

  lemma ResetCallWithin(s: State, vec: nat, t: Tid, k: int)
    requires Inv(s) && s.active != Some(IDLE) && Within(s, t, k)
    ensures Within(ResetCall(s, vec), t, k)
  {
    var a := s.active.value;
    if Holds(s.tcb[a], vec) {
      ClearTapKeeps(s, a, vec);
      ResetWithin(ClearTap(s, a, FindTap(s.tcb[a].tap, vec)), vec, t, k);
    }
  }

  lemma PauseWithin(s: State, x: int, t: Tid, k: int)
    requires Within(s, t, k) && Target(s, x) != Some(t)
    ensures Within(PauseThread(s, x), t, k)
  {
    if Target(s, x).Some? { IndexOfRemoveOne(s.runq, Target(s, x).value, t); }
  }

  lemma ResumeWithin(s: State, x: int, t: Tid, k: int)
    requires Within(s, t, k)
    ensures Within(ResumeThread(s, x), t, k)
  {
    if Target(s, x).Some? { IndexOfAppend(s.runq, [Target(s, x).value], t); }
  }

  /** No step moves a queued thread back; a step that schedules loads it or moves it forward. */
  lemma StepWithin(s: State, e: Event, t: Tid, k: int)
    requires Inv(s) && Enabled(s, e) && Within(s, t, k) && PausesOther(s, e, t)
    ensures var s1 := Step(s, e);
      (Schedules(e) && s1.active == Some(t)) || Within(s1, t, if Schedules(e) then k - 1 else k)
  {
    match e
    case Interrupt(n) =>
      if n == 32 { ScheduleWithin(s, t, k); }
      else if n == 14 { FaultWithin(s, PAGEFAULT, t, k); }
      else if n < 32 { FaultWithin(s, MISCFAULT, t, k); }
    case Yield => ScheduleWithin(s, t, k);
    case Create(ok, junk) => ScheduleWithin(CreateThread(s, ok, junk), t, k);
    case Pause(x) => PauseWithin(s, x, t, k); YieldWithin(PauseThread(s, x), t, k);
    case Resume(x) => ResumeWithin(s, x, t, k); ScheduleWithin(ResumeThread(s, x), t, k);
    case Exit => ExitWithin(s, t, k); YieldWithin(ExitThread(s), t, k);
    case SetTap(i, v) => SetTapWithin(s, i, Narrow(v), t, k);
    case Reset(v) => ResetCallWithin(s, v, t, k);
    case Wait => YieldWithin(WaitCall(s), t, k);
    case _ =>
  }

  function ScheduleCalls(es: seq<Event>): nat {
    if es == [] then 0 else (if Schedules(es[0]) then 1 else 0) + ScheduleCalls(es[1..])
  }

  ghost predicate NeverPaused(s: State, es: seq<Event>, t: Tid)
    decreases |es|
  {
    es == [] || (PausesOther(s, es[0], t) && NeverPaused(Step(s, es[0]), es[1..], t))
  }

  /** Some step of the run loads `t` into the active slot. */
  ghost predicate LoadedIn(s: State, es: seq<Event>, t: Tid)
    decreases |es|
  {
    es != [] && (Step(s, es[0]).active == Some(t) || LoadedIn(Step(s, es[0]), es[1..], t))
  }

  /** Round robin: at index k, loaded within k+1 calls of the scheduler, whatever the others do. */
  lemma {:induction false} RoundRobin(s: State, es: seq<Event>, t: Tid, k: nat)
    requires Inv(s) && Legal(s, es) && NeverPaused(s, es, t)
    requires k < |s.runq| && s.runq[k] == t && ScheduleCalls(es) >= k + 1
    ensures LoadedIn(s, es, t)
  {
    assert s.runq[IndexOf(s.runq, t)] == t;
    RoundRobinFrom(s, es, t, k);
  }

  lemma {:induction false} RoundRobinFrom(s: State, es: seq<Event>, t: Tid, k: int)
    requires Inv(s) && Legal(s, es) && NeverPaused(s, es, t) && Within(s, t, k) && ScheduleCalls(es) >= k + 1
    ensures LoadedIn(s, es, t)
    decreases |es|
  {
    if es != [] {
      var s1 := Step(s, es[0]);
      StepKeeps(s, es[0]);
      StepWithin(s, es[0], t, k);
      if s1.active != Some(t) {
        RoundRobinFrom(s1, es[1..], t, if Schedules(es[0]) then k - 1 else k);
      }
    }
  }
}

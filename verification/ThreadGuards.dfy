/** Why the guards are needed, and that they are no stronger than needed. */
module ThreadGuards {
  import opened Base
  import opened Threads
  import opened ThreadInvariants
  import opened ThreadSteps
  import opened TapSteps

  // ---------------------------------------------------------------- resume

  lemma ListedBreaks(s: State, t: Tid)
    requires s.active.Some? && OnPending(s, t) && s.active.value != t && t in s.runq
    requires t in s.tcb && s.tcb[t].state == Queued
    ensures !Inv(Schedule(s))
  {
    var s1 := Requeue(s);
    assert t in s1.runq;
    assert OnPending(Schedule(s), t);
    if s1.runq[0] != t { assert Schedule(s).tcb[t].state == Queued; }
  }

  lemma ResumeListedBreaks(s: State, thread: int)
    requires Inv(s) && s.active != Some(IDLE) && ResumesListed(s, thread)
    ensures !Inv(Schedule(ResumeThread(s, thread)))
  {
    TargetLive(s, thread);
    ListedBreaks(ResumeThread(s, thread), Target(s, thread).value);
  }

  /** `thread_resume` keeps the invariant exactly when its target is not suspended on such a list. */
  lemma ResumeGuardExact(s: State, thread: int)
    requires Inv(s) && s.active != Some(IDLE)
    ensures Inv(Schedule(ResumeThread(s, thread))) <==> !ResumesListed(s, thread)
  {
    if ResumesListed(s, thread) { ResumeListedBreaks(s, thread); } else { ResumeKeeps(s, thread); }
  }

  // ---------------------------------------------------------------- reap

  /** `thread_reap` keeps the invariant exactly when the suspended target, if any, is on no list and in no
      route slot. */
  lemma ReapGuardExact(s: State, thread: int)
    requires Inv(s)
    ensures Inv(ReapThread(s, thread)) <==> !ReapsNamed(s, thread)
  {
    if ReapsNamed(s, thread) { ReapNamedBreaks(s, thread); } else { ReapKeeps(s, thread); }
  }

  lemma ReapNamedBreaks(s: State, thread: int)
    requires Inv(s) && ReapsNamed(s, thread)
    ensures !Inv(ReapThread(s, thread))
  {
    var t := Lookup(s, thread).value;
    if OnPending(s, t) { assert OnPending(Without(s, t), t); } else { ReapRoutedBreaks(s, t); }
  }

  lemma ReapRoutedBreaks(s: State, t: Tid)
    requires Routed(s, t)
    ensures !Routing(Without(s, t))
  {
    var v, i :| v in s.routes && 0 <= i < 4 && s.routes[v][i] == Some(t);
    assert !SlotOk(Without(s, t), v, s.routes[v][i]);
    assert !RouteOk(Without(s, t), v);
  }

  /** A client meets the guard that reaps only threads on no list and without taps. */
  lemma ReapDiscipline(s: State, thread: int)
    requires Routing(s)
    requires var x := Lookup(s, thread); x.Some? ==> !OnPending(s, x.value) && Untapped(s.tcb[x.value])
    ensures !ReapsNamed(s, thread)
  {
    var x := Lookup(s, thread);
    if x.Some? {
      forall v, i | v in s.routes && 0 <= i < 4 ensures s.routes[v][i] != x {
        assert RouteOk(s, v) && SlotOk(s, v, s.routes[v][i]);
      }
    }
  }

  // ---------------------------------------------------------------- set_tap

  /** Notifications leave the vectors of a live thread's taps alone. */
  lemma {:induction false} NotifyAllVecs(s: State, vec: nat, slots: seq<Option<Tid>>, t: Tid)
    requires t in s.tcb
    ensures t in NotifyAll(s, vec, slots).tcb && SameTapVecs(s.tcb[t], NotifyAll(s, vec, slots).tcb[t])
    decreases |slots|
  {
    if slots != [] { NotifyAllVecs(NotifySlot(s, vec, slots[0]), vec, slots[1..], t); }
  }

  /** The whole invariant, which says that no installed vector is in two taps, is kept exactly when the call
      does not put one there. */
  lemma SetTapKeepsExactly(s: State, index: nat, vec: nat)
    requires Inv(s) && s.active != Some(IDLE)
    ensures Inv(SetTapCall(s, index, vec)) <==> !TapsTwice(s, index, vec)
  {
    if TapsTwice(s, index, vec) {
      TwiceBreaks(s, s.active.value, index, vec);
      assert SetTapCall(s, index, vec) == VectorReset(Retapped(s, s.active.value, index, vec), vec);
      assert !Routing(SetTapCall(s, index, vec));
    } else {
      SetTapKeeps(s, index, vec);
    }
  }

  lemma TwiceBreaks(s: State, t: Tid, index: nat, vec: nat)
    requires t in s.tcb && index < 4 && !Fresh(s.tcb[t], index, vec)
    ensures !Routing(VectorReset(Retapped(s, t, index, vec), vec))
  {
    var s1 := Retapped(s, t, index, vec);
    var j :| 0 <= j < 4 && j != index && s.tcb[t].tap[j].vec == vec;
    assert s1.tcb[t].tap[j].vec == vec && s1.tcb[t].tap[index].vec == vec;
    if vec in s1.routes { NotifyAllVecs(s1, vec, s1.routes[vec], t); }
    assert !TapsDistinct(VectorReset(s1, vec).tcb[t]);
  }

  /** The thread has a slot of the vector it taps a second time, and another slot is free. */
  predicate TakesSecondSlot(s: State, index: nat, vec: nat)
    requires s.active.Some?
  {
    TapsTwice(s, index, vec) && vec in s.routes
    && FindSlot(s.routes[vec], s.active) < 4 && FindSlot(s.routes[vec], None) < 4
  }

  /** Every routed thread holds the vector and has one slot of its route. */
  ghost predicate RoutesOk(s: State) { forall v :: v in s.routes ==> RouteOk(s, v) }

  /** After any `interrupt_set_tap` the routes are right exactly unless the call takes a second slot. */
  lemma SetTapGuardExact(s: State, index: nat, vec: nat)
    requires Inv(s) && s.active != Some(IDLE)
    ensures RoutesOk(SetTapCall(s, index, vec)) <==> !TakesSecondSlot(s, index, vec)
  {
    if TapsTwice(s, index, vec) {
      SecondTapRoutes(s, s.active.value, index, vec);
    } else {
      SetTapKeeps(s, index, vec);
    }
  }

  lemma SecondTapRoutes(s: State, t: Tid, index: nat, vec: nat)
    requires Inv(s) && s.active == Some(t) && t != IDLE && TapsTwice(s, index, vec)
    ensures RoutesOk(VectorReset(Retapped(s, t, index, vec), vec)) <==> !TakesSecondSlot(s, index, vec)
  {
    var s1 := VectorReset(Retapped(s, t, index, vec), vec);
    RetappedTcb(s, t, index, vec);
    if TakesSecondSlot(s, index, vec) {
      SecondSlot(s, t, index, vec);
    } else {
      forall w | w in s1.routes ensures RouteOk(s1, w) { NoSecondSlot(s, t, index, vec, w); }
    }
  }

  /** The tap replaced by a second tap on `vec` holds another vector. */
  lemma OtherOldTap(s: State, t: Tid, index: nat, vec: nat)
    requires Routing(s) && t in s.tcb && index < 4 && !Fresh(s.tcb[t], index, vec)
    ensures s.tcb[t].tap[index].vec != vec && Holds(s.tcb[t], vec)
    ensures vec in s.routes ==> Retapped(s, t, index, vec).routes[vec] == AddRoute(s, t, vec).routes[vec]
  {
    var j :| 0 <= j < 4 && j != index && s.tcb[t].tap[j].vec == vec;
    assert TapsDistinct(s.tcb[t]);
    if vec in s.routes { DropOldTapRoutes(s, t, index, vec); }
  }

  lemma SecondSlot(s: State, t: Tid, index: nat, vec: nat)
    requires Inv(s) && s.active == Some(t) && TakesSecondSlot(s, index, vec)
    ensures var s1 := VectorReset(Retapped(s, t, index, vec), vec); vec in s1.routes && !RouteOk(s1, vec)
  {
    OtherOldTap(s, t, index, vec);
    var r := VectorReset(Retapped(s, t, index, vec), vec).routes[vec];
    var i, j := FindSlot(s.routes[vec], Some(t)), FindSlot(s.routes[vec], None);
    assert r[i] == Some(t) && r[j] == Some(t);
  }

  lemma NoSecondSlot(s: State, t: Tid, index: nat, vec: nat, w: nat)
    requires Inv(s) && s.active == Some(t) && t != IDLE && w in s.routes
    requires TapsTwice(s, index, vec) && !TakesSecondSlot(s, index, vec)
    ensures RouteOk(VectorReset(Retapped(s, t, index, vec), vec), w)
  {
    OtherOldTap(s, t, index, vec);
    var s2 := ReplaceTap(DropOldTap(s, t, index), t, index, vec);
    ReplacedRoute(s, t, index, vec, w);
    if vec in s.routes { DropOldTapRoutes(s, t, index, vec); }
    AddOneSlot(s2, t, vec, w);
    ResetRoute(Retapped(s, t, index, vec), vec, w);
  }

  /** Dropping the old route and replacing the tap leaves no route slot behind, whatever the new vector. */
  lemma ReplacedRoute(s: State, t: Tid, index: nat, vec: nat, w: nat)
    requires Routing(s) && t in s.tcb && index < 4 && w in s.routes
    ensures RouteOk(ReplaceTap(DropOldTap(s, t, index), t, index, vec), w)
  {
    DropOldTapRoutes(s, t, index, w);
    var s1 := DropOldTap(s, t, index);
    var s2 := ReplaceTap(s1, t, index, vec);
    forall i | 0 <= i < 4 ensures SlotOk(s2, w, s2.routes[w][i]) { assert SlotOk(s1, w, s1.routes[w][i]); }
  }

  lemma AddOneSlot(s: State, t: Tid, vec: nat, w: nat)
    requires w in s.routes && RouteOk(s, w) && t in s.tcb && t != IDLE && Holds(s.tcb[t], vec)
    requires vec in s.routes ==> FindSlot(s.routes[vec], Some(t)) == 4 || FindSlot(s.routes[vec], None) == 4
    ensures RouteOk(AddRoute(s, t, vec), w)
  {
    var s1 := AddRoute(s, t, vec);
    forall i | 0 <= i < 4 ensures SlotOk(s1, w, s1.routes[w][i]) { assert SlotOk(s, w, s.routes[w][i]); }
  }

  lemma ResetRoute(s: State, vec: nat, w: nat)
    requires w in s.routes && RouteOk(s, w)
    ensures RouteOk(VectorReset(s, vec), w)
  {
    var s1 := VectorReset(s, vec);
    forall i | 0 <= i < 4 ensures SlotOk(s1, w, s1.routes[w][i]) {
      assert SlotOk(s, w, s.routes[w][i]);
      if s.routes[w][i].Some? && vec in s.routes {
        NotifyAllVecs(s, vec, s.routes[vec], s.routes[w][i].value);
        SameFind(s.tcb[s.routes[w][i].value], NotifyAll(s, vec, s.routes[vec]).tcb[s.routes[w][i].value], w);
      }
    }
  }

  /** Why the guard excludes second taps also where they take no second slot: if the thread has a slot and
      the route is full, clearing the second tap again takes away the slot of the first one. */
  lemma SecondTapLosesSlot(s: State, t: Tid, index: nat, vec: nat)
    requires Inv(s) && s.active == Some(t) && TapsTwice(s, index, vec) && vec in s.routes
    requires FindSlot(s.routes[vec], Some(t)) < 4 && FindSlot(s.routes[vec], None) == 4
    ensures var s2 := SetTapCall(SetTapCall(s, index, vec), index, 0);
      && s2.active == Some(t) && t in s2.tcb && vec in s2.routes
      && Holds(s2.tcb[t], vec) && FindSlot(s2.routes[vec], Some(t)) == 4
  {
    var j :| 0 <= j < 4 && j != index && s.tcb[t].tap[j].vec == vec;
    assert RouteOk(s, vec);
    SecondTapKept(s, t, index, vec, j);
    ClearedSlot(SetTapCall(s, index, vec), t, index, vec, j);
  }

  lemma SecondTapKept(s: State, t: Tid, index: nat, vec: nat, j: nat)
    requires Routing(s) && s.active == Some(t) && t in s.tcb && TapsTwice(s, index, vec) && vec in s.routes
    requires FindSlot(s.routes[vec], None) == 4 && j < 4 && j != index && s.tcb[t].tap[j].vec == vec
    ensures var s1 := SetTapCall(s, index, vec);
      && s1.active == Some(t) && t in s1.tcb && vec in s1.routes && s1.routes[vec] == s.routes[vec] && 0 !in s1.routes
      && s1.tcb[t].tap[j].vec == vec && s1.tcb[t].tap[index].vec == vec
  {
    OtherOldTap(s, t, index, vec);
    RetappedTcb(s, t, index, vec);
    ResetKeepsTap(Retapped(s, t, index, vec), vec, t);
  }

  lemma ResetKeepsTap(s: State, vec: nat, t: Tid)
    requires t in s.tcb
    ensures var s1 := VectorReset(s, vec);
      s1.active == s.active && s1.routes == s.routes && t in s1.tcb && SameTapVecs(s.tcb[t], s1.tcb[t])
  {
    if vec in s.routes { NotifyAllVecs(s, vec, s.routes[vec], t); }
  }

  lemma ClearedSlot(s: State, t: Tid, index: nat, vec: nat, j: nat)
    requires s.active == Some(t) && t in s.tcb && vec in s.routes && index < 4 && j < 4 && j != index
    requires s.tcb[t].tap[j].vec == vec && s.tcb[t].tap[index].vec == vec != 0 && 0 !in s.routes
    requires FindSlot(s.routes[vec], Some(t)) < 4
    requires forall i, k :: 0 <= i < k < 4 && s.routes[vec][i].Some? ==> s.routes[vec][i] != s.routes[vec][k]
    ensures var s1 := SetTapCall(s, index, 0);
      && s1.active == Some(t) && t in s1.tcb && vec in s1.routes
      && Holds(s1.tcb[t], vec) && FindSlot(s1.routes[vec], Some(t)) == 4
  {
    FindSlotClear(s.routes[vec], t, t);
    assert Retapped(s, t, index, 0).tcb[t].tap[j].vec == vec;
  }

  // ---------------------------------------------------------------- the stale tap word

  /** Tap words are a 14-bit vector and the fired flag. */
  ghost predicate InRange(s: State) {
    forall t, j :: t in s.tcb && 0 <= j < 4 ==> s.tcb[t].tap[j].vec < 0x4000
  }

  lemma {:induction false} NotifyAllInRange(s: State, vec: nat, slots: seq<Option<Tid>>)
    requires InRange(s)
    ensures InRange(NotifyAll(s, vec, slots))
    decreases |slots|
  {
    if slots != [] { NotifyAllInRange(NotifySlot(s, vec, slots[0]), vec, slots[1..]); }
  }

  lemma FireInRange(s: State, vec: nat)
    requires InRange(s)
    ensures InRange(Fire(s, vec))
  {
    if vec in s.routes { NotifyAllInRange(s, vec, s.routes[vec]); }
  }

  lemma ScheduleInRange(s: State)
    requires InRange(s)
    ensures InRange(Schedule(s))
  {
  }

  lemma FaultInRange(s: State, k: nat)
    requires InRange(s) && k < 3
    ensures InRange(FaultStep(s, k))
  {
    if s.active.Some? {
      var e := Enqueue(Unload(s), k, s.active.value);
      FireInRange(e, FAULT_VECTOR + k);
      ScheduleInRange(Fire(e, FAULT_VECTOR + k));
    }
  }

  lemma StepInRange(s: State, e: Event)
    requires InRange(s)
    ensures InRange(Step(s, e))
  {
    match e
    case Interrupt(n) =>
      FaultInRange(s, PAGEFAULT);
      FaultInRange(s, MISCFAULT);
      ScheduleInRange(s);
    case Yield => ScheduleInRange(s);
    case Create(ok, junk) => CreateInRange(s, ok, junk);
    case Pause(x) => PauseInRange(s, x);
    case Resume(x) => ResumeInRange(s, x);
    case Exit => ExitInRange(s);
    case Reap(x) =>
    case SetTap(i, v) => SetTapInRange(s, i, Narrow(v));
    case Reset(v) => ResetInRange(s, v);
    case Wait => WaitInRange(s);
    case GetFault(k) =>
  }

  lemma CreateInRange(s: State, ok: bool, junk: nat)
    requires InRange(s)
    ensures InRange(Schedule(CreateThread(s, ok, junk)))
  {
    ScheduleInRange(CreateThread(s, ok, junk));
  }

  lemma ResumeInRange(s: State, thread: int)
    requires InRange(s)
    ensures InRange(Schedule(ResumeThread(s, thread)))
  {
    ScheduleInRange(ResumeThread(s, thread));
  }

  lemma ResetInRange(s: State, vec: nat)
    requires InRange(s)
    ensures InRange(ResetCall(s, vec))
  {
    if s.active.Some? && Holds(Rec(s, s.active.value), vec) {
      FireInRange(ClearTap(s, s.active.value, FindTap(Rec(s, s.active.value).tap, vec)), vec);
    }
  }

  lemma WaitInRange(s: State)
    requires InRange(s)
    ensures InRange(YieldUnlessRunning(WaitCall(s)))
  {
    ScheduleInRange(WaitCall(s));
    ScheduleInRange(Unload(WaitCall(s)));
  }

  lemma PauseInRange(s: State, thread: int)
    requires InRange(s)
    ensures InRange(YieldUnlessRunning(PauseThread(s, thread)))
  {
    assert InRange(PauseThread(s, thread));
    ScheduleInRange(PauseThread(s, thread));
    ScheduleInRange(Unload(PauseThread(s, thread)));
  }

  lemma ExitInRange(s: State)
    requires InRange(s)
    ensures InRange(YieldUnlessRunning(ExitThread(s)))
  {
    if s.active.Some? {
      FireInRange(Enqueue(WithState(s, s.active.value, Suspended), ZOMBIE, s.active.value), FAULT_VECTOR + ZOMBIE);
    }
    ScheduleInRange(ExitThread(s));
    ScheduleInRange(Unload(ExitThread(s)));
  }

  lemma SetTapInRange(s: State, index: nat, vec: nat)
    requires InRange(s)
    ensures InRange(SetTapCall(s, index, vec))
  {
    if index < 4 && vec < 0x4000 && s.active.Some? {
      RetappedInRange(s, s.active.value, index, vec);
      FireInRange(Retapped(s, s.active.value, index, vec), vec);
    }
  }

  lemma RetappedInRange(s: State, t: Tid, index: nat, vec: nat)
    requires InRange(s) && index < 4 && vec < 0x4000
    ensures InRange(Retapped(s, t, index, vec))
  {
    var s1, tap := Retapped(s, t, index, vec), Rec(s, t).tap[index := Tap(vec, false)];
    assert s1.tcb == s.tcb[t := Rec(s, t).(tap := tap)];
    forall u, j | u in s1.tcb && 0 <= j < 4 ensures s1.tcb[u].tap[j].vec < 0x4000 {
      if u == t { assert s1.tcb[u].tap == tap; }
    }
  }

  lemma {:induction false} RunInRange(s: State, es: seq<Event>)
    requires InRange(s)
    ensures InRange(Run(s, es))
    decreases |es|
  {
    if es != [] {
      StepInRange(s, es[0]);
      RunInRange(Step(s, es[0]), es[1..]);
    }
  }

  /** `interrupt_set_tap` replacing tap `index` hands the old word, flag and all, to the route removal, and
      the page index taken from it lies outside the 128-entry page table. */
  predicate PassesStaleWord(s: State, index: nat)
    requires index < 4 && s.active.Some?
  {
    var word := Rec(s, s.active.value).tap[index].Word();
    word % 0x4000 != 0 && word / 128 >= 128
  }

  /** In every run a call does so exactly when the tap it replaces has fired and holds a vector. */
  lemma StaleTapWord(junk: nat, es: seq<Event>, index: nat)
    requires Legal(Initial(junk), es) && index < 4
    ensures var s := Run(Initial(junk), es);
      && s.active.Some?
      && (PassesStaleWord(s, index) <==>
           var tap := Rec(s, s.active.value).tap[index]; tap.fired && tap.vec != 0)
  {
    InitialInv(junk);
    RunKeeps(Initial(junk), es);
    InitialInRange(junk);
    RunInRange(Initial(junk), es);
    FiredWord(Run(Initial(junk), es), index);
  }

  lemma InitialInRange(junk: nat)
    ensures InRange(Initial(junk))
  {
  }

  lemma FiredWord(s: State, index: nat)
    requires InRange(s) && index < 4 && s.active.Some? && s.active.value in s.tcb
    ensures var tap := Rec(s, s.active.value).tap[index]; PassesStaleWord(s, index) <==> tap.fired && tap.vec != 0
  {
  }
}

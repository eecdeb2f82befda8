/** What a thread that waits is told, from the step that wakes it to the one that loads it. */
module Wakeups {
  import opened Base
  import opened Threads
  import opened ThreadInvariants
  import opened ThreadSteps
  import opened TapSteps

  /** The thread is awake and holds, as the result of its wait, a vector whose tap has fired. */
  predicate Told(r: Tcb) { !Sleeping(r) && HasFired(r, r.rax) }

  /** A thread asleep before and awake after is told; one told before and not running is told the same. */
  ghost predicate Tells(s: State, s1: State, t: Tid)
    requires t in s.tcb && t in s1.tcb
  {
    && (Sleeping(s.tcb[t]) && !Sleeping(s1.tcb[t]) ==> Told(s1.tcb[t]))
    && (Told(s.tcb[t]) && s.active != Some(t) ==> Told(s1.tcb[t]) && s1.tcb[t].rax == s.tcb[t].rax)
  }

  ghost predicate WakesWith(s: State, s1: State) { forall t :: t in s.tcb && t in s1.tcb ==> Tells(s, s1, t) }

  lemma NotifyTells(s: State, vec: nat, t: Tid, u: Tid)
    requires t in s.tcb && u in s.tcb
    ensures var r := Notify(s, vec, t).tcb[u];
      && (Told(s.tcb[u]) ==> Told(r) && r.rax == s.tcb[u].rax)
      && (Sleeping(s.tcb[u]) && !Sleeping(r) ==> Told(r))
  {
    NotifyFlags(s, vec, t, u, s.tcb[u].rax);
    NotifyFlags(s, vec, t, u, Notify(s, vec, t).tcb[u].rax);
  }

  lemma NotifyWakesWith(s: State, s1: State, vec: nat, t: Tid)
    requires WakesWith(s, s1) && t in s1.tcb
    ensures WakesWith(s, Notify(s1, vec, t))
  {
    forall u | u in s.tcb && u in s1.tcb ensures Tells(s, Notify(s1, vec, t), u) {
      assert Tells(s, s1, u);
      NotifyTells(s1, vec, t, u);
    }
  }

  lemma {:induction false} NotifyAllWakesWith(s: State, s1: State, vec: nat, slots: seq<Option<Tid>>)
    requires WakesWith(s, s1) && forall i :: 0 <= i < |slots| && slots[i].Some? ==> slots[i].value in s1.tcb
    ensures WakesWith(s, NotifyAll(s1, vec, slots))
    decreases |slots|
  {
    if slots != [] {
      var s2 := NotifySlot(s1, vec, slots[0]);
      if slots[0].Some? {
        NotifyWakesWith(s, s1, vec, slots[0].value);
        NotifyVecs(s1, vec, slots[0].value);
      }
      NotifyAllWakesWith(s, s2, vec, slots[1..]);
    }
  }

  lemma FireWakesWith(s: State, s1: State, vec: nat)
    requires WakesWith(s, s1) && Core(s1)
    ensures WakesWith(s, Fire(s1, vec))
  {
    if vec in s1.routes {
      forall i | 0 <= i < 4 && s1.routes[vec][i].Some? ensures s1.routes[vec][i].value in s1.tcb { SlotHolds(s1, vec, i); }
      NotifyAllWakesWith(s, s1, vec, s1.routes[vec]);
    }
  }

  lemma ScheduleWakesWith(s: State, s1: State)
    requires WakesWith(s, s1) && RunQueue(s1)
    requires s1.active.Some? ==> s1.active.value in s1.tcb && !Sleeping(s1.tcb[s1.active.value])
    ensures WakesWith(s, Schedule(s1))
  {
    assert s1.runq != [] ==> s1.runq[0] in s1.runq;
  }

  lemma YieldWakesWith(s: State, s1: State)
    requires WakesWith(s, s1) && RunQueue(s1) && s1.active.Some? && s1.active.value in s1.tcb
    ensures WakesWith(s, YieldUnlessRunning(s1))
  {
    if s1.tcb[s1.active.value].state == Running { ScheduleWakesWith(s, s1); }
    else { ScheduleWakesWith(s, Unload(s1)); }
  }

  lemma FaultWakesWith(s: State, k: nat)
    requires Inv(s) && s.active != Some(IDLE) && k < 3
    ensures WakesWith(s, FaultStep(s, k))
  {
    var e := Enqueue(Unload(s), k, s.active.value);
    UnloadKeeps(s);
    EnqueueKeeps(Unload(s), k, s.active.value);
    FireKeeps(e, FAULT_VECTOR + k);
    FireWakesWith(s, e, FAULT_VECTOR + k);
    ScheduleWakesWith(s, Fire(e, FAULT_VECTOR + k));
  }

  lemma ExitWakesWith(s: State)
    requires Inv(s) && s.active != Some(IDLE)
    ensures WakesWith(s, YieldUnlessRunning(ExitThread(s)))
  {
    var t := s.active.value;
    WithStateKeeps(s, t, Suspended);
    var e := Enqueue(WithState(s, t, Suspended), ZOMBIE, t);
    EnqueueKeeps(WithState(s, t, Suspended), ZOMBIE, t);
    FireWakesWith(s, e, FAULT_VECTOR + ZOMBIE);
    ExitThreadKeeps(s);
    YieldWakesWith(s, ExitThread(s));
  }

  lemma RetappedWakesNobody(s: State, t: Tid, index: nat, vec: nat)
    requires s.active == Some(t) && t in s.tcb && index < 4
    ensures WakesWith(s, Retapped(s, t, index, vec))
  {
    RetappedTcb(s, t, index, vec);
  }

  lemma SetTapWakesWith(s: State, index: nat, vec: nat)
    requires Inv(s) && s.active != Some(IDLE) && !TapsTwice(s, index, vec)
    ensures WakesWith(s, SetTapCall(s, index, vec))
  {
    if index < 4 && vec < 0x4000 {
      RetappedWakesNobody(s, s.active.value, index, vec);
      RetappedCore(s, s.active.value, index, vec);
      FireWakesWith(s, Retapped(s, s.active.value, index, vec), vec);
    }
  }

  lemma ResetWakesWith(s: State, vec: nat)
    requires Inv(s) && s.active != Some(IDLE)
    ensures WakesWith(s, ResetCall(s, vec))
  {
    var t := s.active.value;
    if Holds(s.tcb[t], vec) {
      ClearTapKeeps(s, t, vec);
      FireWakesWith(s, ClearTap(s, t, FindTap(s.tcb[t].tap, vec)), vec);
    }
  }

  lemma CreateWakesWith(s: State, ok: bool, junk: nat)
    requires Inv(s)
    ensures WakesWith(s, Schedule(CreateThread(s, ok, junk)))
  {
    CreateThreadKeeps(s, ok, junk);
    ScheduleWakesWith(s, CreateThread(s, ok, junk));
  }

  lemma PauseWakesNobody(s: State, thread: int)
    ensures WakesWith(s, PauseThread(s, thread))
  {
  }

  lemma PauseWakesWith(s: State, thread: int)
    requires Inv(s) && s.active != Some(IDLE)
    ensures WakesWith(s, YieldUnlessRunning(PauseThread(s, thread)))
  {
    PauseWakesNobody(s, thread);
    PauseThreadKeeps(s, thread);
    YieldWakesWith(s, PauseThread(s, thread));
  }

  lemma ResumeWakesNobody(s: State, thread: int)
    ensures WakesWith(s, ResumeThread(s, thread))
  {
  }

  lemma ResumeWakesWith(s: State, thread: int)
    requires Inv(s) && s.active != Some(IDLE) && !ResumesListed(s, thread)
    ensures WakesWith(s, Schedule(ResumeThread(s, thread)))
  {
    ResumeWakesNobody(s, thread);
    ResumeThreadKeeps(s, thread);
    ScheduleWakesWith(s, ResumeThread(s, thread));
  }

  lemma WaitWakesWith(s: State)
    requires Inv(s) && s.active != Some(IDLE)
    ensures WakesWith(s, YieldUnlessRunning(WaitCall(s)))
  {
    WaitCallKeeps(s);
    YieldWakesWith(s, WaitCall(s));
  }

  /** Whatever step wakes a sleeper tells it a vector it holds a fired tap on, as `interrupt_wait`
      promises its caller. */
  lemma StepWakesWith(s: State, e: Event)
    requires Inv(s) && Enabled(s, e)
    ensures WakesWith(s, Step(s, e))
  {
    match e
    case Interrupt(n) =>
      if n == 32 { ScheduleWakesWith(s, s); }
      else if n == 14 { FaultWakesWith(s, PAGEFAULT); }
      else if n < 32 { FaultWakesWith(s, MISCFAULT); }
    case Yield => ScheduleWakesWith(s, s);
    case Create(ok, junk) => CreateWakesWith(s, ok, junk);
    case Pause(x) => PauseWakesWith(s, x);
    case Resume(x) => ResumeWakesWith(s, x);
    case Exit => ExitWakesWith(s);
    case Reap(x) =>
    case SetTap(i, v) => SetTapWakesWith(s, i, Narrow(v));
    case Reset(v) => ResetWakesWith(s, v);
    case Wait => WaitWakesWith(s);
    case GetFault(k) =>
  }

  // ---------------------------------------------------------------- until the wait returns

  /** From `s` on `t` is told `vec`, at least until it is loaded or reaped. */
  ghost predicate ToldUntilLoaded(s: State, es: seq<Event>, t: Tid, vec: nat)
    decreases |es|
  {
    t in s.tcb ==>
      && Told(s.tcb[t]) && s.tcb[t].rax == vec
      && (s.active != Some(t) && es != [] ==> ToldUntilLoaded(Step(s, es[0]), es[1..], t, vec))
  }

  lemma {:induction false} StaysTold(s: State, es: seq<Event>, t: Tid)
    requires Inv(s) && Legal(s, es) && t in s.tcb && Told(s.tcb[t])
    ensures ToldUntilLoaded(s, es, t, s.tcb[t].rax)
    decreases |es|
  {
    if s.active != Some(t) && es != [] {
      StepKeeps(s, es[0]);
      StepWakesWith(s, es[0]);
      if t in Step(s, es[0]).tcb {
        assert Tells(s, Step(s, es[0]), t);
        StaysTold(Step(s, es[0]), es[1..], t);
      }
    }
  }

  /** In every run: when a wait that slept returns, its result is a vector on which the thread holds a fired
      tap, whatever happened between the step that woke it and the one that loads it. */
  lemma WaitReturnsFired(s: State, es: seq<Event>, t: Tid)
    requires Inv(s) && Legal(s, es) && es != []
    requires t in s.tcb && Sleeping(s.tcb[t]) && t in Step(s, es[0]).tcb && !Sleeping(Step(s, es[0]).tcb[t])
    ensures var s1 := Step(s, es[0]); ToldUntilLoaded(s1, es[1..], t, s1.tcb[t].rax)
  {
    StepKeeps(s, es[0]);
    StepWakesWith(s, es[0]);
    assert Tells(s, Step(s, es[0]), t);
    StaysTold(Step(s, es[0]), es[1..], t);
  }
}

/** Every step of every legal run keeps the invariant. */
module ThreadSteps {
  import opened Base
  import opened Threads
  import opened ThreadInvariants

  // ---------------------------------------------------------------- one thread changes state

  /** `s1` is `s` with only `t`'s run state replaced (and lists possibly edited). */
  ghost predicate OnlyState(s: State, s1: State, t: Tid, r: RunState) {
    t in s.tcb && s1.tcb == s.tcb[t := s.tcb[t].(state := r)] && s1.routes == s.routes && s1.dropped == s.dropped
  }

  lemma OnlyStateVecs(s: State, s1: State, t: Tid, r: RunState)
    requires OnlyState(s, s1, t, r)
    ensures SameVecs(s, s1)
    ensures Routing(s) ==> Routing(s1)
    ensures NoFiredSleeper(s) && (Sleeping(Tcb(r, NO_TAPS, 0)) ==> !AnyFired(s.tcb[t])) ==> NoFiredSleeper(s1)
    ensures forall v, k :: SlotNotified(s, v, k) ==> SlotNotified(s1, v, k)
  {
    if Routing(s) { RoutingFrame(s, s1); }
  }

  lemma NotifiedFrame(s: State, s1: State)
    requires Notified(s) && s1.routes == s.routes
    requires forall k :: 0 <= k < 3 && s1.pending[k] != [] ==> s.pending[k] != []
    requires forall v, x :: SlotNotified(s, v, x) ==> SlotNotified(s1, v, x)
    ensures Notified(s1)
  {
  }

  lemma WithStateKeeps(s: State, t: Tid, r: RunState)
    requires Core(s) && t in s.tcb && t != IDLE && s.tcb[t].state != Queued && r != Queued && r != Free
    requires OnPending(s, t) ==> r == Running || r == Suspended
    requires r == Waiting || r == SuspendedWaiting ==> !AnyFired(s.tcb[t])
    ensures Core(WithState(s, t, r)) && (Notified(s) ==> Notified(WithState(s, t, r)))
  {
    var s1 := WithState(s, t, r);
    OnlyStateVecs(s, s1, t, r);
    if Notified(s) { NotifiedFrame(s, s1); }
  }

  lemma EnqueueReadyKeeps(s: State, t: Tid)
    requires Core(s) && t in s.tcb && t != IDLE && s.tcb[t].state == Suspended && !OnPending(s, t)
    ensures Core(WithState(Push(s, t), t, Queued)) && (Notified(s) ==> Notified(WithState(Push(s, t), t, Queued)))
  {
    var s1 := WithState(Push(s, t), t, Queued);
    OnlyStateVecs(s, s1, t, Queued);
    if Notified(s) { NotifiedFrame(s, s1); }
  }

  // ---------------------------------------------------------------- scheduling

  /** The active slot is empty or holds a thread that may run. */
  ghost predicate Runnable(s: State) {
    s.active.Some? ==> Loaded(s)
  }

  lemma RequeueKeeps(s: State)
    requires Core(s) && Notified(s) && Runnable(s)
    ensures Core(Requeue(s)) && Notified(Requeue(s)) && Requeue(s).active.None?
    ensures Requeue(s).runq == s.runq + if s.active.Some? then [s.active.value] else []
  {
    if s.active.Some? {
      OnlyStateVecs(s, Requeue(s), s.active.value, Queued);
      NotifiedFrame(s, Requeue(s));
    }
  }

  lemma LoadHeadRunQueue(s: State)
    requires RunQueue(s) && s.runq != []
    ensures RunQueue(LoadNext(s))
  {
  }

  lemma LoadHeadPending(s: State)
    requires RunQueue(s) && Pending(s) && s.runq != []
    ensures Pending(LoadNext(s)) && !OnPending(s, s.runq[0])
  {
  }

  lemma LoadHeadIdle(s: State)
    requires RunQueue(s) && Idle(s) && s.active.None? && s.runq != []
    ensures Idle(LoadNext(s))
  {
  }

  lemma LoadHeadKeeps(s: State)
    requires Core(s) && Notified(s) && s.active.None? && s.runq != []
    ensures Inv(LoadNext(s))
  {
    assert s.runq[0] in s.runq;
    OnlyStateVecs(s, LoadNext(s), s.runq[0], Running);
    NotifiedFrame(s, LoadNext(s));
    LoadHeadRunQueue(s);
    LoadHeadPending(s);
    LoadHeadIdle(s);
  }

  lemma InjectIdleKeeps(s: State)
    requires Core(s) && Notified(s) && s.active.None? && s.runq == []
    ensures Inv(LoadNext(s))
  {
    var s1 := LoadNext(s);
    assert IDLE !in s.runq;
    assert SameVecs(s, s1);
    RoutingFrame(s, s1);
    NotifiedFrame(s, s1);
  }

  lemma ScheduleKeeps(s: State)
    requires Core(s) && Notified(s) && Runnable(s)
    ensures Inv(Schedule(s))
  {
    RequeueKeeps(s);
    if Requeue(s).runq != [] { LoadHeadKeeps(Requeue(s)); } else { InjectIdleKeeps(Requeue(s)); }
  }

  // ---------------------------------------------------------------- faults and exit

  lemma UnloadKeeps(s: State)
    requires Core(s) && s.active != Some(IDLE)
    ensures Core(Unload(s)) && (Notified(s) ==> Notified(Unload(s)))
  {
    assert SameVecs(s, Unload(s));
    RoutingFrame(s, Unload(s));
    if Notified(s) { NotifiedFrame(s, Unload(s)); }
  }

  lemma EnqueueKeeps(s: State, k: nat, t: Tid)
    requires Core(s) && k < 3 && t in s.tcb && t != IDLE && Parked(s.tcb[t]) && !OnPending(s, t)
    ensures Core(Enqueue(s, k, t))
  {
    assert SameVecs(s, Enqueue(s, k, t));
    RoutingFrame(s, Enqueue(s, k, t));
  }

  /** Notified on every list but the one of `vec`. */
  ghost predicate NotifiedExcept(s: State, vec: nat) {
    && (s.pending[0] != [] && vec != 0x80 ==> AllNotified(s, 0x80))
    && (s.pending[1] != [] && vec != 0x81 ==> AllNotified(s, 0x81))
    && (s.pending[2] != [] && vec != 0x82 ==> AllNotified(s, 0x82))
  }

  lemma AllNotifiedFrame(s: State, s1: State, vec: nat)
    requires AllNotified(s, vec) && Notifies(s, s1)
    ensures AllNotified(s1, vec)
  {
  }

  lemma FireNotifies(s: State, vec: nat)
    requires Core(s) && NotifiedExcept(s, vec)
    ensures Core(Fire(s, vec)) && Notified(Fire(s, vec)) && Notifies(s, Fire(s, vec))
  {
    FireKeeps(s, vec);
    var s1 := Fire(s, vec);
    if s.pending[0] != [] && vec != 0x80 { AllNotifiedFrame(s, s1, 0x80); }
    if s.pending[1] != [] && vec != 0x81 { AllNotifiedFrame(s, s1, 0x81); }
    if s.pending[2] != [] && vec != 0x82 { AllNotifiedFrame(s, s1, 0x82); }
  }

  lemma VectorResetKeeps(s: State, vec: nat)
    requires Core(s) && NotifiedExcept(s, vec)
    ensures Core(VectorReset(s, vec)) && Notified(VectorReset(s, vec)) && Notifies(s, VectorReset(s, vec))
  {
    NotifiesNothing(s);
    FireNotifies(s, vec);
  }

  /** Enqueue on list `k`, then fire its vector. */
  lemma ReportKeeps(s: State, k: nat, t: Tid)
    requires Core(s) && Notified(s) && k < 3
    requires t in s.tcb && t != IDLE && Parked(s.tcb[t]) && !OnPending(s, t)
    ensures var s1 := Fire(Enqueue(s, k, t), FAULT_VECTOR + k);
      && Core(s1) && Notified(s1) && s1.active == s.active
      && t in s1.tcb && s1.tcb[t].state == s.tcb[t].state
  {
    EnqueueKeeps(s, k, t);
    var e := Enqueue(s, k, t);
    assert forall v, x :: SlotNotified(s, v, x) == SlotNotified(e, v, x);
    FireNotifies(e, FAULT_VECTOR + k);
  }

  lemma FaultEnqueued(s: State, k: nat)
    requires Inv(s) && k < 3 && s.active != Some(IDLE)
    ensures Core(Enqueue(Unload(s), k, s.active.value))
  {
    UnloadKeeps(s);
    EnqueueKeeps(Unload(s), k, s.active.value);
  }

  /** After firing, everything on the run queue is live. */
  lemma FiredRunnable(s: State, vec: nat)
    requires Core(s)
    ensures forall t :: t in Fire(s, vec).runq ==> t in Fire(s, vec).tcb
  {
    FireKeeps(s, vec);
  }

  lemma FaultKeeps(s: State, k: nat)
    requires Inv(s) && k < 3 && s.active != Some(IDLE)
    ensures Inv(FaultStep(s, k))
  {
    UnloadKeeps(s);
    ReportKeeps(Unload(s), k, s.active.value);
    ScheduleKeeps(Fire(Enqueue(Unload(s), k, s.active.value), FAULT_VECTOR + k));
  }

  /** After a call that may have stopped the active thread: unload it unless it still runs. */
  lemma YieldKeeps(s: State)
    requires Core(s) && Notified(s) && s.active.Some? && s.active.value in s.tcb && s.active.value != IDLE
    requires s.tcb[s.active.value].state == Running ==> !OnPending(s, s.active.value)
    ensures Inv(YieldUnlessRunning(s))
  {
    if s.tcb[s.active.value].state == Running {
      ScheduleKeeps(s);
    } else {
      UnloadKeeps(s);
      ScheduleKeeps(Unload(s));
    }
  }

  /** The active thread, suspended, is ready to go on the zombie list. */
  lemma StopKeeps(s: State)
    requires Inv(s) && s.active != Some(IDLE)
    ensures var t := s.active.value; var s0 := WithState(s, t, Suspended);
      && Core(s0) && Notified(s0) && t in s0.tcb && t != IDLE && s0.tcb[t].state == Suspended && !OnPending(s0, t)
      && Core(Enqueue(s0, ZOMBIE, t))
  {
    var t := s.active.value;
    WithStateKeeps(s, t, Suspended);
    assert !OnPending(WithState(s, t, Suspended), t);
    EnqueueKeeps(WithState(s, t, Suspended), ZOMBIE, t);
  }

  lemma ExitThreadKeeps(s: State)
    requires Inv(s) && s.active != Some(IDLE)
    ensures var s1 := ExitThread(s);
      && Core(s1) && Notified(s1) && s1.active == s.active && s.active.value in s1.tcb
      && s1.tcb[s.active.value].state == Suspended
  {
    StopKeeps(s);
    ReportKeeps(WithState(s, s.active.value, Suspended), ZOMBIE, s.active.value);
  }

  lemma ExitKeeps(s: State)
    requires Inv(s) && s.active != Some(IDLE)
    ensures Inv(YieldUnlessRunning(ExitThread(s)))
  {
    ExitThreadKeeps(s);
    YieldKeeps(ExitThread(s));
  }

  // ---------------------------------------------------------------- pause, resume, wait

  lemma RemoveOneMembers(q: seq<Tid>, t: Tid)
    requires NoDup(q)
    ensures NoDup(RemoveOne(q, t)) && t !in RemoveOne(q, t)
    ensures forall u :: u != t ==> (u in RemoveOne(q, t) <==> u in q)
  {
    if q != [] {
      if q[0] == t {
        assert q == [q[0]] + q[1..];
      } else {
        RemoveOneMembers(q[1..], t);
        assert q == [q[0]] + q[1..];
        var r := RemoveOne(q[1..], t);
        assert q[0] !in r by { assert q[0] !in q[1..]; }
      }
    }
  }

  lemma UnqueueKeeps(s: State, t: Tid)
    requires Core(s) && Notified(s) && t in s.tcb && t != IDLE && s.tcb[t].state == Queued
    ensures var s1 := WithState(s.(runq := RemoveOne(s.runq, t)), t, Suspended);
      Core(s1) && Notified(s1)
  {
    var s1 := WithState(s.(runq := RemoveOne(s.runq, t)), t, Suspended);
    RemoveOneMembers(s.runq, t);
    OnlyStateVecs(s, s1, t, Suspended);
    NotifiedFrame(s, s1);
    assert RunQueue(s1);
    assert Pending(s1);
  }

  lemma TargetLive(s: State, thread: int)
    requires Inv(s)
    ensures Target(s, thread).Some? ==> Target(s, thread).value in s.tcb && Target(s, thread).value != IDLE
  {
  }

  /** All that pausing a thread keeps in the middle of its step. */
  ghost predicate PauseKept(s: State, s1: State) {
    Core(s1) && Notified(s1) && s1.active == s.active && s1.pending == s.pending && s1.tcb.Keys == s.tcb.Keys
  }

  lemma PauseWaiting(s: State, t: Tid)
    requires Inv(s) && t in s.tcb && t != IDLE && s.tcb[t].state == Waiting
    ensures PauseKept(s, WithState(s, t, SuspendedWaiting))
  {
    WithStateKeeps(s, t, SuspendedWaiting);
  }

  lemma PauseRunning(s: State, t: Tid)
    requires Inv(s) && t in s.tcb && t != IDLE && s.tcb[t].state == Running
    ensures PauseKept(s, WithState(s, t, Suspended))
  {
    WithStateKeeps(s, t, Suspended);
  }

  lemma PauseQueued(s: State, t: Tid)
    requires Inv(s) && t in s.tcb && t != IDLE && s.tcb[t].state == Queued
    ensures PauseKept(s, WithState(s.(runq := RemoveOne(s.runq, t)), t, Suspended))
  {
    UnqueueKeeps(s, t);
  }

  lemma PauseThreadKeeps(s: State, thread: int)
    requires Inv(s) && s.active != Some(IDLE)
    ensures PauseKept(s, PauseThread(s, thread))
  {
    TargetLive(s, thread);
    match Target(s, thread)
    case None =>
    case Some(t) =>
      match s.tcb[t].state
      case Waiting => PauseWaiting(s, t);
      case Queued => PauseQueued(s, t);
      case Running => PauseRunning(s, t);
      case _ =>
  }

  lemma PauseKeeps(s: State, thread: int)
    requires Inv(s) && s.active != Some(IDLE)
    ensures Inv(YieldUnlessRunning(PauseThread(s, thread)))
  {
    PauseThreadKeeps(s, thread);
    YieldKeeps(PauseThread(s, thread));
  }

  lemma ResumeThreadKeeps(s: State, thread: int)
    requires Inv(s) && s.active != Some(IDLE) && !ResumesListed(s, thread)
    ensures var s1 := ResumeThread(s, thread);
      Core(s1) && Notified(s1) && Runnable(s1)
  {
    TargetLive(s, thread);
    match Target(s, thread)
    case None =>
    case Some(t) =>
      match s.tcb[t].state
      case Suspended => EnqueueReadyKeeps(s, t);
      case SuspendedWaiting => WithStateKeeps(s, t, Waiting);
      case _ =>
  }

  lemma ResumeKeeps(s: State, thread: int)
    requires Inv(s) && s.active != Some(IDLE) && !ResumesListed(s, thread)
    ensures Inv(Schedule(ResumeThread(s, thread)))
  {
    ResumeThreadKeeps(s, thread);
    ScheduleKeeps(ResumeThread(s, thread));
  }

  lemma WaitCallKeeps(s: State)
    requires Inv(s) && s.active != Some(IDLE)
    ensures Core(WaitCall(s)) && Notified(WaitCall(s))
  {
    if FirstFired(s.tcb[s.active.value].tap) == 4 { WithStateKeeps(s, s.active.value, Waiting); }
  }

  lemma WaitKeeps(s: State)
    requires Inv(s) && s.active != Some(IDLE)
    ensures Inv(YieldUnlessRunning(WaitCall(s)))
  {
    WaitCallKeeps(s);
    YieldKeeps(WaitCall(s));
  }

  // ---------------------------------------------------------------- lists, creation, reaping

  lemma GetFaultKeeps(s: State, k: nat)
    requires Inv(s) && k < 3
    ensures Inv(Dequeue(s, k))
  {
    var s1 := Dequeue(s, k);
    if s.pending[k] != [] {
      DequeuePending(s, k);
      DequeueRouting(s, k);
    }
  }

  lemma DequeuePending(s: State, k: nat)
    requires Pending(s) && k < 3
    ensures Pending(Dequeue(s, k)) && forall t :: OnPending(Dequeue(s, k), t) ==> OnPending(s, t)
  {
    var d := Dequeue(s, k).pending[k];
    if s.pending[k] != [] { assert forall i :: 0 <= i < |d| ==> d[i] == s.pending[k][i + 1]; }
  }

  lemma DequeueRouting(s: State, k: nat)
    requires Routing(s) && k < 3
    ensures Routing(Dequeue(s, k))
  {
    assert SameVecs(s, Dequeue(s, k));
    RoutingFrame(s, Dequeue(s, k));
  }

  lemma CreateThreadKeeps(s: State, ok: bool, junk: nat)
    requires Inv(s)
    ensures Inv(CreateThread(s, ok, junk))
  {
    var s1 := CreateThread(s, ok, junk);
    var i := LowestFree(s.tcb.Keys, 1);
    if ok && i != TCB_LIMIT {
      assert i !in s.tcb && forall t :: t in s.tcb ==> s1.tcb[t] == s.tcb[t];
      assert Routing(s1) by { CreateRouting(s, i, Tcb(Suspended, NO_TAPS, junk)); }
    }
  }

  lemma CreateRouting(s: State, i: Tid, r: Tcb)
    requires Routing(s) && i !in s.tcb && r.tap == NO_TAPS
    ensures Routing(s.(tcb := s.tcb[i := r]))
  {
    var s1 := s.(tcb := s.tcb[i := r]);
    forall v | v in s.routes ensures RouteOk(s1, v) {
      assert RouteOk(s, v);
      forall k | 0 <= k < 4 ensures SlotOk(s1, v, s1.routes[v][k]) { assert SlotOk(s, v, s.routes[v][k]); }
    }
    forall t, v | t in s1.tcb && v in s.routes ensures TapRouted(s1, t, v) {
      if t == i { assert (i, v) !in s.dropped; } else { assert TapRouted(s, t, v); }
    }
  }

  lemma WithoutRouting(s: State, t: Tid)
    requires Routing(s) && !Routed(s, t)
    ensures Routing(Without(s, t))
  {
    var s1 := Without(s, t);
    forall v | v in s.routes ensures RouteOk(s1, v) {
      assert RouteOk(s, v);
      forall k | 0 <= k < 4 ensures SlotOk(s1, v, s1.routes[v][k]) { assert SlotOk(s, v, s.routes[v][k]); }
    }
    forall u, v | u in s1.tcb && v in s.routes ensures TapRouted(s1, u, v) { assert TapRouted(s, u, v); }
  }

  lemma WithoutNotified(s: State, t: Tid)
    requires Notified(s) && !Routed(s, t)
    ensures Notified(Without(s, t))
  {
    forall v, i | v in s.routes && 0 <= i < 4 && SlotNotified(s, v, s.routes[v][i])
      ensures SlotNotified(Without(s, t), v, s.routes[v][i])
    {
      assert s.routes[v][i] != Some(t);
    }
  }

  /** A suspended thread that no list and no route names can go. */
  lemma WithoutKeeps(s: State, t: Tid)
    requires Inv(s) && t in s.tcb && s.tcb[t].state == Suspended && !OnPending(s, t) && !Routed(s, t)
    ensures Inv(Without(s, t))
  {
    WithoutRouting(s, t);
    WithoutNotified(s, t);
  }

  lemma ReapKeeps(s: State, thread: int)
    requires Inv(s) && !ReapsNamed(s, thread)
    ensures Inv(ReapThread(s, thread))
  {
    var x := Lookup(s, thread);
    if x.Some? && s.tcb[x.value].state == Suspended { WithoutKeeps(s, x.value); }
  }
}

/** The life cycle of a thread: which state may follow which, and what that means over whole runs. */
module ThreadStates {
  import opened Base
  import opened Threads
  import opened ThreadInvariants
  import opened ThreadSteps
  import opened TapSteps
  import opened ThreadEffects

  // ---------------------------------------------------------------- one step

  /** From state `a` of a thread that is not loaded to state `b`: `loaded` is whether it is then; `paused` and
      `resumed` are whether the step pauses or resumes it. */
  predicate Moved(a: RunState, b: RunState, loaded: bool, paused: bool, resumed: bool) {
    match a
    case Waiting => if paused then b == SuspendedWaiting else b == Waiting || b == Queued || (b == Running && loaded)
    case SuspendedWaiting => if resumed then b == Waiting else b == SuspendedWaiting || b == Suspended
    case Suspended => if resumed then b == Queued || (b == Running && loaded) else b == Suspended
    case Queued => if paused then b == Suspended else b == Queued || (b == Running && loaded)
    case Running => if paused then b == Suspended else b == Running && !loaded
    case Free => b == Free
  }

  /** What firing a vector may do to a state. */
  predicate Notified1(a: RunState, b: RunState) {
    b == a || (a == Waiting && b == Queued) || (a == SuspendedWaiting && b == Suspended)
  }

  lemma FiredMoves(s: State, s1: State, vec: nat, slots: seq<Option<Tid>>, t: Tid)
    requires FiredAt(s, s1, vec, slots) && t in s.tcb
    ensures t in s1.tcb && Notified1(s.tcb[t].state, s1.tcb[t].state)
  {
    if Some(t) in slots { assert FiredRecord(s.tcb[t], s1.tcb[t], vec); }
  }

  /** What the scheduler may do to a thread that is not loaded. */
  lemma ScheduledMoves(m: State, s1: State, t: Tid)
    requires Scheduled(m, s1) && RunQueue(m) && Idle(m) && t in m.tcb && m.active != Some(t)
    ensures t in s1.tcb
    ensures m.tcb[t].state == Queued ==>
      s1.tcb[t].state == Queued || (s1.tcb[t].state == Running && s1.active == Some(t))
    ensures m.tcb[t].state != Queued ==> s1.tcb[t].state == m.tcb[t].state
    ensures m.tcb[t].state != Queued && m.tcb[t].state != Free ==> s1.active != Some(t)
  {
    if m.tcb[t].state != Queued {
      assert t !in m.runq;
      assert t !in Line(m) && (Line(m) != [] ==> Line(m)[0] in Line(m));
    }
  }

  lemma FiredScheduledMoves(b: State, m: State, s1: State, vec: nat, slots: seq<Option<Tid>>, t: Tid)
    requires FiredAt(b, m, vec, slots) && Scheduled(m, s1) && RunQueue(m) && Idle(m) && t in b.tcb && b.active != Some(t)
    ensures t in s1.tcb && Moved(b.tcb[t].state, s1.tcb[t].state, s1.active == Some(t), false, false)
  {
    FiredMoves(b, m, vec, slots, t);
    ScheduledMoves(m, s1, t);
  }

  predicate Pauses(s: State, e: Event, t: Tid) { e.Pause? && Target(s, e.thread) == Some(t) }

  predicate Resumes(s: State, e: Event, t: Tid) { e.Resume? && Target(s, e.thread) == Some(t) }

  /** The move of `t` from `s` to `s1` by `e`. */
  predicate Moves(s: State, e: Event, s1: State, t: Tid)
    requires t in s.tcb
  {
    t in s1.tcb && Moved(s.tcb[t].state, s1.tcb[t].state, s1.active == Some(t), Pauses(s, e, t), Resumes(s, e, t))
  }

  lemma FaultMoves(s: State, n: nat, t: Tid)
    requires Inv(s) && Enabled(s, Interrupt(n)) && t in s.tcb && s.active != Some(t)
    ensures Moves(s, Interrupt(n), Step(s, Interrupt(n)), t)
  {
    if n < 32 {
      var m := FaultEffect(s, n);
      var k := FaultList(n);
      FiredScheduledMoves(OnList(s, k, s.active.value), m, Step(s, Interrupt(n)), 0x80 + k, s.routes[0x80 + k], t);
    } else {
      TimerEffect(s, n);
      if n == 32 { ScheduledMoves(s, Step(s, Interrupt(n)), t); }
    }
  }

  lemma ExitMoves(s: State, t: Tid)
    requires Inv(s) && s.active != Some(IDLE) && t in s.tcb && s.active != Some(t)
    ensures Moves(s, Exit, Step(s, Exit), t)
  {
    var m := ExitEffect(s);
    FiredScheduledMoves(OnList(Suspend(s, s.active.value), 2, s.active.value), m, Step(s, Exit), 0x82, s.routes[0x82], t);
  }

  lemma PauseMoves(s: State, x: int, t: Tid)
    requires Inv(s) && s.active != Some(IDLE) && t in s.tcb && s.active != Some(t)
    ensures Moves(s, Pause(x), Step(s, Pause(x)), t)
  {
    var m := PauseEffect(s, x);
    PausedState(s, x, m, t);
    LeavingMoves(m, Step(s, Pause(x)), t);
  }

  lemma LeavingMoves(m: State, s1: State, t: Tid)
    requires Scheduled(Leaving(m), s1) && Core(Leaving(m)) && t in m.tcb && m.active != Some(t)
    ensures t in s1.tcb
    ensures m.tcb[t].state == Queued ==>
      s1.tcb[t].state == Queued || (s1.tcb[t].state == Running && s1.active == Some(t))
    ensures m.tcb[t].state != Queued ==> s1.tcb[t].state == m.tcb[t].state
    ensures m.tcb[t].state != Queued && m.tcb[t].state != Free ==> s1.active != Some(t)
  {
    ScheduledMoves(Leaving(m), s1, t);
  }

  lemma PausedState(s: State, x: int, m: State, t: Tid)
    requires t in s.tcb && if Target(s, x).Some? then PausedIn(s, m, Target(s, x).value) else m == s
    ensures t in m.tcb && m.tcb[t].state == if Target(s, x) == Some(t) then Paused(s.tcb[t].state) else s.tcb[t].state
  {
  }

  lemma ResumeMoves(s: State, x: int, t: Tid)
    requires Inv(s) && s.active != Some(IDLE) && !ResumesListed(s, x) && t in s.tcb && s.active != Some(t)
    ensures Moves(s, Resume(x), Step(s, Resume(x)), t)
  {
    var m := ResumeEffect(s, x);
    ResumedState(s, x, m, t);
    ScheduledMoves(m, Step(s, Resume(x)), t);
  }

  function Resumed(r: RunState): RunState { if r == Suspended then Queued else if r == SuspendedWaiting then Waiting else r }

  lemma ResumedState(s: State, x: int, m: State, t: Tid)
    requires t in s.tcb && if Target(s, x).Some? then ResumedIn(s, m, Target(s, x).value) else m == s
    ensures t in m.tcb && m.tcb[t].state == if Target(s, x) == Some(t) then Resumed(s.tcb[t].state) else s.tcb[t].state
    ensures m.active == s.active
  {
  }

  lemma WaitMoves(s: State, t: Tid)
    requires Inv(s) && s.active != Some(IDLE) && t in s.tcb && s.active != Some(t)
    ensures Moves(s, Wait, Step(s, Wait), t)
  {
    WaitEffect(s);
    WaitCallKeeps(s);
    WaitMid(s);
    ScheduledMoves(Leaving(WaitCall(s)), Step(s, Wait), t);
  }

  lemma CreateMoves(s: State, ok: bool, junk: nat, t: Tid)
    requires Inv(s) && s.active != Some(IDLE) && t in s.tcb && s.active != Some(t)
    ensures Moves(s, Create(ok, junk), Step(s, Create(ok, junk)), t)
  {
    var m, _ := CreateEffect(s, ok, junk);
    ScheduledMoves(m, Step(s, Create(ok, junk)), t);
  }

  lemma SetTapMoves(s: State, i: nat, v: nat, t: Tid)
    requires Inv(s) && Enabled(s, SetTap(i, v)) && t in s.tcb && s.active != Some(t)
    ensures Moves(s, SetTap(i, v), Step(s, SetTap(i, v)), t)
  {
    StepKeeps(s, SetTap(i, v));
    var vec := v % 0x1_0000;
    var b := SetTapEffect(s, i, v);
    if i < 4 && vec < 0x4000 && HasWork(s, vec) { FiredMoves(b, Step(s, SetTap(i, v)), vec, b.routes[vec], t); }
  }

  lemma ResetMoves(s: State, v: nat, t: Tid)
    requires Inv(s) && s.active != Some(IDLE) && t in s.tcb && s.active != Some(t)
    ensures Moves(s, Reset(v), Step(s, Reset(v)), t)
  {
    var a := s.active.value;
    var j := FindTap(s.tcb[a].tap, v);
    ResetEffect(s, v);
    if j < 4 && HasWork(s, v) { FiredMoves(WithTap(s, a, j, v), Step(s, Reset(v)), v, s.routes[v], t); }
  }

  /** Every step moves every thread that is not loaded along the diagram, or reaps it. */
  lemma StateDiagram(s: State, e: Event, t: Tid)
    requires Inv(s) && Enabled(s, e) && t in s.tcb && s.active != Some(t) && t in Step(s, e).tcb
    ensures Moves(s, e, Step(s, e), t)
  {
    match e
    case Interrupt(n) => FaultMoves(s, n, t);
    case Yield => TimerEffect(s, 32); ScheduledMoves(s, Step(s, e), t);
    case Create(ok, junk) => CreateMoves(s, ok, junk, t);
    case Pause(x) => PauseMoves(s, x, t);
    case Resume(x) => ResumeMoves(s, x, t);
    case Exit => ExitMoves(s, t);
    case Reap(x) => ReapEffect(s, x);
    case SetTap(i, v) => SetTapMoves(s, i, v, t);
    case Reset(v) => ResetMoves(s, v, t);
    case Wait => WaitMoves(s, t);
    case GetFault(k) => GetFaultEffect(s, k);
  }

  // ---------------------------------------------------------------- the loaded thread

  /** The loaded thread is still loaded, or queued. */
  predicate Ran(s1: State, t: Tid) {
    t in s1.tcb && if s1.active == Some(t) then s1.tcb[t].state == Running else s1.tcb[t].state == Queued
  }

  /** The loaded thread is not loaded any more, and in state `b`. */
  predicate Left(s1: State, t: Tid, b: RunState) { t in s1.tcb && s1.active != Some(t) && s1.tcb[t].state == b }

  lemma ScheduledRan(m: State, s1: State, t: Tid)
    requires Scheduled(m, s1) && m.active == Some(t) && t in m.tcb
    ensures Ran(s1, t)
  {
  }

  lemma ScheduledLeft(m: State, s1: State, t: Tid)
    requires Scheduled(m, s1) && RunQueue(m) && m.active.None? && t in m.tcb && m.tcb[t].state != Queued && t != IDLE
    ensures Left(s1, t, m.tcb[t].state)
  {
    assert t !in m.runq && (m.runq != [] ==> m.runq[0] in m.runq);
  }

  lemma ActivePauses(s: State, x: int)
    requires Inv(s) && s.active != Some(IDLE)
    ensures var t, s1 := s.active.value, Step(s, Pause(x));
      if Target(s, x) == Some(t) then Left(s1, t, Suspended) else Ran(s1, t)
  {
    var t := s.active.value;
    var m := PauseEffect(s, x);
    PausedState(s, x, m, t);
    if Target(s, x) == Some(t) { ScheduledLeft(Leaving(m), Step(s, Pause(x)), t); }
    else { ScheduledRan(m, Step(s, Pause(x)), t); }
  }

  lemma ActiveLeaves(s: State, e: Event)
    requires Inv(s) && Enabled(s, e) && s.active != Some(IDLE) && (e.Exit? || (e.Interrupt? && e.ivect < 32))
    ensures Left(Step(s, e), s.active.value, if e.Exit? then Suspended else Running)
  {
    var t := s.active.value;
    if e.Exit? {
      var m := ExitEffect(s);
      FiredMoves(OnList(Suspend(s, t), 2, t), m, 0x82, s.routes[0x82], t);
      ScheduledLeft(m, Step(s, e), t);
    } else {
      FaultTold(s, e.ivect);
    }
  }

  lemma ActiveWaits(s: State)
    requires Inv(s) && s.active != Some(IDLE)
    ensures var t, s1 := s.active.value, Step(s, Wait); if AnyFired(s.tcb[t]) then Ran(s1, t) else Left(s1, t, Waiting)
  {
    var t := s.active.value;
    WaitEffect(s);
    if AnyFired(s.tcb[t]) { ScheduledRan(s, Step(s, Wait), t); } else { WaitSleeps(s, t); }
  }

  lemma ActiveResumes(s: State, x: int)
    requires Inv(s) && s.active != Some(IDLE) && !ResumesListed(s, x)
    ensures Ran(Step(s, Resume(x)), s.active.value)
  {
    var m := ResumeEffect(s, x);
    ResumedState(s, x, m, s.active.value);
    ScheduledRan(m, Step(s, Resume(x)), s.active.value);
  }

  lemma ActiveCreates(s: State, ok: bool, junk: nat)
    requires Inv(s) && s.active != Some(IDLE)
    ensures Ran(Step(s, Create(ok, junk)), s.active.value)
  {
    var m, _ := CreateEffect(s, ok, junk);
    ScheduledRan(m, Step(s, Create(ok, junk)), s.active.value);
  }

  /** What becomes of the loaded thread in each step. */
  lemma ActiveDiagram(s: State, e: Event)
    requires Inv(s) && Enabled(s, e) && s.active != Some(IDLE)
    ensures var t, s1 := s.active.value, Step(s, e);
      match e
      case Interrupt(n) => if n < 32 then Left(s1, t, Running) else Ran(s1, t)
      case Exit => Left(s1, t, Suspended)
      case Wait => if AnyFired(s.tcb[t]) then Ran(s1, t) else Left(s1, t, Waiting)
      case Pause(x) => if Target(s, x) == Some(t) then Left(s1, t, Suspended) else Ran(s1, t)
      case _ => Ran(s1, t)
  {
    match e
    case Interrupt(n) =>
      if n < 32 { ActiveLeaves(s, e); }
      else { TimerEffect(s, n); if n == 32 { ScheduledRan(s, Step(s, e), s.active.value); } }
    case Yield => TimerEffect(s, 32); ScheduledRan(s, Step(s, e), s.active.value);
    case Create(ok, junk) => ActiveCreates(s, ok, junk);
    case Pause(x) => ActivePauses(s, x);
    case Resume(x) => ActiveResumes(s, x);
    case Exit => ActiveLeaves(s, e);
    case Wait => ActiveWaits(s);
    case _ => ActiveStays(s, e);
  }

  lemma ActiveStays(s: State, e: Event)
    requires Inv(s) && Enabled(s, e) && s.active != Some(IDLE)
    requires e.Reap? || e.SetTap? || e.Reset? || e.GetFault?
    ensures Ran(Step(s, e), s.active.value)
  {
    StepKeeps(s, e);
    ActiveSame(s, e);
  }

  lemma ActiveSame(s: State, e: Event)
    requires e.Reap? || e.SetTap? || e.Reset? || e.GetFault?
    ensures Step(s, e).active == s.active
  {
  }

  // ---------------------------------------------------------------- pause

  /** After a pause its target is neither loaded nor queued: it is suspended, waiting still if it waited. */
  lemma PauseStops(s: State, x: int, t: Tid)
    requires Inv(s) && s.active != Some(IDLE) && Target(s, x) == Some(t)
    ensures var s1 := Step(s, Pause(x));
      && t in s.tcb && t in s1.tcb && s1.active != Some(t) && t !in s1.runq
      && s1.tcb[t].state == Paused(s.tcb[t].state)
  {
    TargetLive(s, x);
    StepKeeps(s, Pause(x));
    if s.active == Some(t) { ActivePauses(s, x); } else { PausesOther(s, x, t); }
  }

  lemma PausesOther(s: State, x: int, t: Tid)
    requires Inv(s) && s.active != Some(IDLE) && Target(s, x) == Some(t) && t in s.tcb && t != IDLE && s.active != Some(t)
    ensures var s1 := Step(s, Pause(x)); t in s1.tcb && s1.active != Some(t) && s1.tcb[t].state == Paused(s.tcb[t].state)
  {
    var m := PauseEffect(s, x);
    PausedState(s, x, m, t);
    LeavingMoves(m, Step(s, Pause(x)), t);
  }

  predicate Stopped(s: State, t: Tid) { t in s.tcb && (s.tcb[t].state == Suspended || s.tcb[t].state == SuspendedWaiting) }

  /** From `s` on `t` is stopped and not loaded, at least until it is resumed or reaped. */
  ghost predicate StoppedUntilResumed(s: State, es: seq<Event>, t: Tid)
    decreases |es|
  {
    t in s.tcb ==>
      && Stopped(s, t) && s.active != Some(t) && t !in s.runq
      && (es != [] && !Resumes(s, es[0], t) ==> StoppedUntilResumed(Step(s, es[0]), es[1..], t))
  }

  lemma {:induction false} StaysStopped(s: State, es: seq<Event>, t: Tid)
    requires Inv(s) && Legal(s, es) && Stopped(s, t) && t != IDLE
    ensures StoppedUntilResumed(s, es, t)
    decreases |es|
  {
    if es != [] && !Resumes(s, es[0], t) {
      StepKeeps(s, es[0]);
      if t in Step(s, es[0]).tcb {
        StateDiagram(s, es[0], t);
        StaysStopped(Step(s, es[0]), es[1..], t);
      }
    }
  }

  /** In every run a paused thread does not run until it is resumed, whatever fires at it. */
  lemma PausedStays(s: State, x: int, es: seq<Event>, t: Tid)
    requires Inv(s) && s.active != Some(IDLE) && Target(s, x) == Some(t) && Legal(Step(s, Pause(x)), es)
    ensures StoppedUntilResumed(Step(s, Pause(x)), es, t)
  {
    TargetLive(s, x);
    PauseStops(s, x, t);
    StepKeeps(s, Pause(x));
    StaysStopped(Step(s, Pause(x)), es, t);
  }

  // ---------------------------------------------------------------- waiting

  /** From `s` on `t` waits or is queued, until it is loaded or paused: no wakeup loses it. */
  ghost predicate AliveUntilLoaded(s: State, es: seq<Event>, t: Tid)
    decreases |es|
  {
    t in s.tcb &&
      (s.active == Some(t) ||
        ((s.tcb[t].state == Waiting || s.tcb[t].state == Queued)
         && (es != [] && !Pauses(s, es[0], t) ==> AliveUntilLoaded(Step(s, es[0]), es[1..], t))))
  }

  /** A waiting or queued thread that a step does not pause is waiting, queued or loaded after it. */
  lemma WaiterStep(s: State, e: Event, t: Tid)
    requires Inv(s) && Enabled(s, e) && t in s.tcb && s.active != Some(t) && !Pauses(s, e, t)
    requires s.tcb[t].state == Waiting || s.tcb[t].state == Queued
    ensures var s1 := Step(s, e);
      t in s1.tcb && (s1.active == Some(t) || s1.tcb[t].state == Waiting || s1.tcb[t].state == Queued)
  {
    NotReaped(s, e, t);
    StateDiagram(s, e, t);
  }

  /** Only suspended threads are reaped. */
  lemma NotReaped(s: State, e: Event, t: Tid)
    requires Inv(s) && Enabled(s, e) && t in s.tcb && s.tcb[t].state != Suspended
    ensures t in Step(s, e).tcb
  {
    if e.Reap? { ReapEffect(s, e.thread); } else { NobodyGoes(s, e); }
  }

  lemma {:induction false} NotifyAllKeys(s: State, vec: nat, slots: seq<Option<Tid>>)
    ensures s.tcb.Keys <= NotifyAll(s, vec, slots).tcb.Keys
    decreases |slots|
  {
    if slots != [] { NotifyAllKeys(NotifySlot(s, vec, slots[0]), vec, slots[1..]); }
  }

  lemma FireKeys(s: State, vec: nat)
    ensures s.tcb.Keys <= Fire(s, vec).tcb.Keys
  {
    if vec in s.routes { NotifyAllKeys(s, vec, s.routes[vec]); }
  }

  lemma NobodyGoes(s: State, e: Event)
    requires !e.Reap? && s.active.Some?
    ensures s.tcb.Keys <= Step(s, e).tcb.Keys
  {
    var t := s.active.value;
    match e
    case Interrupt(n) =>
      FireKeys(Enqueue(Unload(s), PAGEFAULT, t), FAULT_VECTOR + PAGEFAULT);
      FireKeys(Enqueue(Unload(s), MISCFAULT, t), FAULT_VECTOR + MISCFAULT);
    case Exit => FireKeys(Enqueue(WithState(s, t, Suspended), ZOMBIE, t), FAULT_VECTOR + ZOMBIE);
    case SetTap(i, v) => if i < 4 { FireKeys(Retapped(s, t, i, Narrow(v)), Narrow(v)); }
    case Reset(v) =>
      var j := FindTap(Rec(s, t).tap, v);
      if j < 4 { FireKeys(ClearTap(s, t, j), v); }
    case _ =>
  }

  lemma {:induction false} WaitersLive(s: State, es: seq<Event>, t: Tid)
    requires Inv(s) && Legal(s, es) && t in s.tcb
    requires s.active == Some(t) || s.tcb[t].state == Waiting || s.tcb[t].state == Queued
    ensures AliveUntilLoaded(s, es, t)
    decreases |es|
  {
    if s.active != Some(t) && es != [] && !Pauses(s, es[0], t) {
      StepKeeps(s, es[0]);
      WaiterStep(s, es[0], t);
      WaitersLive(Step(s, es[0]), es[1..], t);
    }
  }
}

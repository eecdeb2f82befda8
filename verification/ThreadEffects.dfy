/** What each step does, told without the functions that compute it: run queue, lists, records and routes
    after the step, in terms of those before. */
module ThreadEffects {
  import opened Base
  import opened Threads
  import opened ThreadInvariants
  import opened ThreadSteps
  import opened TapSteps

  // ---------------------------------------------------------------- firing a vector

  /** The waiting threads among the slots, in slot order. */
  function Waiters(s: State, slots: seq<Option<Tid>>): seq<Tid> {
    if slots == [] then []
    else
      var x := slots[|slots| - 1];
      Waiters(s, slots[..|slots| - 1]) + if x.Some? && Rec(s, x.value).state == Waiting then [x.value] else []
  }

  /** A thread that holds `vec`, before and after it fired: its first tap on the vector has the flag, and a
      sleeper is awake, queued unless it is suspended, with the vector as result. */
  ghost predicate FiredRecord(r: Tcb, r1: Tcb, vec: nat) {
    && (forall i :: 0 <= i < 4 ==> r1.tap[i].vec == r.tap[i].vec)
    && (forall i :: 0 <= i < 4 ==> (r1.tap[i].fired <==> r.tap[i].fired || i == FindTap(r.tap, vec)))
    && (r.state == Waiting ==> r1.state == Queued)
    && (r.state == SuspendedWaiting ==> r1.state == Suspended)
    && (!Sleeping(r) ==> r1.state == r.state)
    && r1.rax == if Sleeping(r) then vec else r.rax
  }

  /** `s1` is `s` after `vec` fired at the threads in the slots: the waiting ones go to the tail of the run queue
      in slot order, their records change as above, and nothing else does. */
  ghost predicate FiredAt(s: State, s1: State, vec: nat, slots: seq<Option<Tid>>) {
    && s1.runq == s.runq + Waiters(s, slots) && s1.tcb.Keys == s.tcb.Keys
    && s1.pending == s.pending && s1.routes == s.routes && s1.active == s.active
    && s1.dropped == s.dropped && s1.injected == s.injected
    && (forall t :: t in s.tcb && Some(t) in slots ==> FiredRecord(s.tcb[t], s1.tcb[t], vec))
    && (forall t :: t in s.tcb && Some(t) !in slots ==> s1.tcb[t] == s.tcb[t])
  }

  lemma FiredNobody(s: State, vec: nat)
    ensures FiredAt(s, s, vec, [])
  {
  }

  lemma NotifyRecord(s: State, vec: nat, t: Tid)
    requires t in s.tcb && Holds(s.tcb[t], vec)
    ensures var s1 := Notify(s, vec, t);
      && s1.tcb == s.tcb[t := s1.tcb[t]] && FiredRecord(s.tcb[t], s1.tcb[t], vec)
      && s1.runq == s.runq + (if s.tcb[t].state == Waiting then [t] else []) && s1.injected == s.injected
  {
  }

  lemma WaitersOneMore(s: State, slots: seq<Option<Tid>>, x: Option<Tid>)
    ensures Waiters(s, slots + [x]) ==
      Waiters(s, slots) + if x.Some? && Rec(s, x.value).state == Waiting then [x.value] else []
  {
    assert (slots + [x])[..|slots|] == slots;
  }

  lemma FiredOneMore(s: State, s1: State, vec: nat, slots: seq<Option<Tid>>, x: Option<Tid>)
    requires FiredAt(s, s1, vec, slots)
    requires x.Some? ==> x !in slots && x.value in s.tcb && Holds(s.tcb[x.value], vec)
    ensures FiredAt(s, NotifySlot(s1, vec, x), vec, slots + [x])
  {
    WaitersOneMore(s, slots, x);
    if x.Some? {
      assert s1.tcb[x.value] == s.tcb[x.value];
      NotifyRecord(s1, vec, x.value);
    }
  }

  /** Every slot names a live holder of `vec`, each at most once. */
  ghost predicate Holders(s: State, vec: nat, slots: seq<Option<Tid>>) {
    && (forall i :: 0 <= i < |slots| && slots[i].Some? ==> slots[i].value in s.tcb && Holds(s.tcb[slots[i].value], vec))
    && forall i, j :: 0 <= i < j < |slots| && slots[i].Some? ==> slots[i] != slots[j]
  }

  lemma {:induction false} FiredRest(s: State, s1: State, vec: nat, slots: seq<Option<Tid>>, rest: seq<Option<Tid>>)
    requires FiredAt(s, s1, vec, slots) && Holders(s, vec, slots + rest)
    ensures FiredAt(s, NotifyAll(s1, vec, rest), vec, slots + rest)
    decreases |rest|
  {
    if rest == [] {
      assert slots + rest == slots;
    } else {
      FiredNext(s, s1, vec, slots, rest);
      assert slots + [rest[0]] + rest[1..] == slots + rest;
      FiredRest(s, NotifySlot(s1, vec, rest[0]), vec, slots + [rest[0]], rest[1..]);
    }
  }

  lemma FiredNext(s: State, s1: State, vec: nat, slots: seq<Option<Tid>>, rest: seq<Option<Tid>>)
    requires FiredAt(s, s1, vec, slots) && Holders(s, vec, slots + rest) && rest != []
    ensures FiredAt(s, NotifySlot(s1, vec, rest[0]), vec, slots + [rest[0]])
  {
    assert (slots + rest)[|slots|] == rest[0];
    forall i | 0 <= i < |slots| ensures rest[0].Some? ==> slots[i] != rest[0] { assert (slots + rest)[i] == slots[i]; }
    FiredOneMore(s, s1, vec, slots, rest[0]);
  }

  lemma RouteHolders(s: State, vec: nat)
    requires Core(s) && vec in s.routes
    ensures Holders(s, vec, s.routes[vec])
  {
    assert RouteOk(s, vec);
    forall i | 0 <= i < 4 && s.routes[vec][i].Some?
      ensures s.routes[vec][i].value in s.tcb && Holds(s.tcb[s.routes[vec][i].value], vec)
    {
      SlotHolds(s, vec, i);
    }
  }

  /** Firing a vector, completely. */
  lemma FireEffect(s: State, vec: nat)
    requires Core(s) && vec in s.routes
    ensures FiredAt(s, Fire(s, vec), vec, s.routes[vec])
  {
    var r: seq<Option<Tid>> := s.routes[vec];
    assert [] + r == r;
    RouteHolders(s, vec);
    FiredNobody(s, vec);
    FiredRest(s, s, vec, [], r);
  }

  // ---------------------------------------------------------------- the scheduler

  /** Who stands in line when the scheduler is called. */
  function Line(s: State): seq<Tid> { s.runq + if s.active.Some? then [s.active.value] else [] }

  /** `s1` is `s` after the scheduler: the active thread stands last in line and the first of the line runs; with
      nobody in line idle does. */
  ghost predicate Scheduled(s: State, s1: State) {
    && s1.tcb.Keys == s.tcb.Keys && s1.pending == s.pending && s1.routes == s.routes && s1.dropped == s.dropped
    && if Line(s) == [] then
         s1.active == Some(IDLE) && s1.runq == [] && s1.tcb == s.tcb && s1.injected == s.injected + 1
       else
         && s1.active == Some(Line(s)[0]) && s1.runq == Line(s)[1..] && s1.injected == s.injected
         && forall t :: t in s.tcb ==> s1.tcb[t] == s.tcb[t].(state := StateInLine(s, t))
  }

  function StateInLine(s: State, t: Tid): RunState
    requires t in s.tcb && Line(s) != []
  {
    if t == Line(s)[0] then Running else if s.active == Some(t) then Queued else s.tcb[t].state
  }

  lemma ScheduleEffect(s: State)
    requires RunQueue(s) && (s.active.Some? ==> s.active.value in s.tcb)
    ensures Scheduled(s, Schedule(s))
  {
    assert s.runq != [] ==> s.runq[0] in s.runq;
    assert Requeue(s).runq == Line(s);
  }

  /** A timer tick or a plain yield calls the scheduler; an interrupt above the CPU's does nothing. */
  lemma TimerEffect(s: State, n: nat)
    requires Inv(s) && n >= 32
    ensures n == 32 ==> Scheduled(s, Step(s, Interrupt(n)))
    ensures n > 32 ==> Step(s, Interrupt(n)) == s
    ensures Scheduled(s, Step(s, Yield))
  {
    ScheduleEffect(s);
  }

  // ---------------------------------------------------------------- faults, exit, lists

  /** List of a CPU fault: 0 for a page fault, 1 for any other. */
  function FaultList(n: nat): (k: nat)
    ensures k < 2
  {
    if n == 14 then 0 else 1
  }

  /** `t` leaves the processor and stands first on list `k`. */
  function OnList(s: State, k: nat, t: Tid): State
    requires k < 3
  {
    s.(active := None, pending := s.pending[k := [t] + s.pending[k]])
  }

  /** Firing a vector with nobody active, and then the scheduler. */
  lemma ReportEffect(s: State, vec: nat)
    requires Core(s) && s.active.None? && vec in s.routes
    ensures FiredAt(s, Fire(s, vec), vec, s.routes[vec]) && Scheduled(Fire(s, vec), Schedule(Fire(s, vec)))
    ensures Core(Fire(s, vec))
  {
    FireEffect(s, vec);
    FireKeeps(s, vec);
    ScheduleEffect(Fire(s, vec));
  }

  lemma FaultIs(s: State, n: nat)
    requires s.active.Some? && n < 32
    ensures Step(s, Interrupt(n)) == Schedule(Fire(OnList(s, FaultList(n), s.active.value), 0x80 + FaultList(n)))
  {
    assert Enqueue(Unload(s), FaultList(n), s.active.value) == OnList(s, FaultList(n), s.active.value);
  }

  /** A CPU fault: the active thread leaves the processor for the front of its list, still RUNNING, that list's
      vector fires, and the scheduler loads another thread. */
  lemma FaultEffect(s: State, n: nat) returns (m: State)
    requires Inv(s) && s.active != Some(IDLE) && n < 32 && n != 8
    ensures var k := FaultList(n);
      && FiredAt(OnList(s, k, s.active.value), m, 0x80 + k, s.routes[0x80 + k])
      && Scheduled(m, Step(s, Interrupt(n)))
    ensures Core(m)
  {
    var t, k := s.active.value, FaultList(n);
    var e := OnList(s, k, t);
    FaultEnqueued(s, k);
    assert Enqueue(Unload(s), k, t) == e;
    m := Fire(e, 0x80 + k);
    ReportEffect(e, 0x80 + k);
    FaultIs(s, n);
  }

  function Suspend(s: State, t: Tid): State
    requires t in s.tcb
  {
    s.(tcb := s.tcb[t := s.tcb[t].(state := Suspended)])
  }

  lemma ExitCore(s: State)
    requires Inv(s) && s.active != Some(IDLE)
    ensures Core(OnList(Suspend(s, s.active.value), 2, s.active.value))
  {
    var t := s.active.value;
    StopKeeps(s);
    assert WithState(s, t, Suspended) == Suspend(s, t);
    var e := Enqueue(Suspend(s, t), ZOMBIE, t);
    UnloadKeeps(e);
    assert Unload(e) == OnList(Suspend(s, t), 2, t);
  }

  lemma ExitIs(s: State)
    requires s.active.Some? && s.active.value in s.tcb
    requires var x := ExitThread(s); s.active.value in x.tcb && x.tcb[s.active.value].state == Suspended
    ensures Step(s, Exit) == Schedule(Fire(OnList(Suspend(s, s.active.value), 2, s.active.value), 0x82))
  {
    var t := s.active.value;
    assert WithState(s, t, Suspended) == Suspend(s, t);
    var e := Enqueue(Suspend(s, t), ZOMBIE, t);
    UnloadFire(e, 0x82);
    assert Unload(e) == OnList(Suspend(s, t), 2, t);
  }

  lemma UnloadFire(s: State, vec: nat)
    ensures Unload(Fire(s, vec)) == Fire(Unload(s), vec)
  {
    if vec in s.routes { UnloadNotifyAll(s, vec, s.routes[vec]); }
  }

  lemma {:induction false} UnloadNotifyAll(s: State, vec: nat, slots: seq<Option<Tid>>)
    ensures Unload(NotifyAll(s, vec, slots)) == NotifyAll(Unload(s), vec, slots)
    decreases |slots|
  {
    if slots != [] {
      assert Unload(NotifySlot(s, vec, slots[0])) == NotifySlot(Unload(s), vec, slots[0]);
      UnloadNotifyAll(NotifySlot(s, vec, slots[0]), vec, slots[1..]);
    }
  }

  /** Exit: the active thread is suspended and leaves the processor for the front of the zombie list, whose vector
      fires, and the scheduler loads another thread. */
  lemma ExitEffect(s: State) returns (m: State)
    requires Inv(s) && s.active != Some(IDLE)
    ensures var t := s.active.value;
      && FiredAt(OnList(Suspend(s, t), 2, t), m, 0x82, s.routes[0x82])
      && Scheduled(m, Step(s, Exit))
    ensures Core(m)
  {
    var e := OnList(Suspend(s, s.active.value), 2, s.active.value);
    ExitCore(s);
    ExitThreadKeeps(s);
    ExitIs(s);
    m := Fire(e, 0x82);
    ReportEffect(e, 0x82);
  }

  /** Taking a thread off list `k` takes the first and leaves everything else as it is. */
  lemma GetFaultEffect(s: State, k: nat)
    ensures Step(s, GetFault(k)) ==
      if k < 3 && s.pending[k] != [] then s.(pending := s.pending[k := s.pending[k][1..]]) else s
  {
  }

  /** Which step changes which list, and how. */
  lemma ListsChange(s: State, e: Event)
    requires Inv(s) && Enabled(s, e)
    ensures var l, l1, t := s.pending, Step(s, e).pending, s.active.value;
      match e
      case Interrupt(n) => l1 == if n < 32 then l[FaultList(n) := [t] + l[FaultList(n)]] else l
      case Exit => l1 == l[2 := [t] + l[2]]
      case GetFault(k) => l1 == if k < 3 && l[k] != [] then l[k := l[k][1..]] else l
      case _ => l1 == l
  {
    match e
    case Interrupt(n) => if n < 32 { FaultLists(s, n); } else { OtherLists(s, e); }
    case Exit => ExitLists(s);
    case GetFault(_) =>
    case _ => OtherLists(s, e);
  }

  lemma FaultLists(s: State, n: nat)
    requires Inv(s) && s.active != Some(IDLE) && n < 32 && n != 8
    ensures var k := FaultList(n); Step(s, Interrupt(n)).pending == s.pending[k := [s.active.value] + s.pending[k]]
  {
    var _ := FaultEffect(s, n);
  }

  lemma ExitLists(s: State)
    requires Inv(s) && s.active != Some(IDLE)
    ensures Step(s, Exit).pending == s.pending[2 := [s.active.value] + s.pending[2]]
  {
    var _ := ExitEffect(s);
  }

  lemma OtherLists(s: State, e: Event)
    requires !e.Exit? && !e.GetFault? && (e.Interrupt? ==> e.ivect >= 32)
    ensures Step(s, e).pending == s.pending
  {
    match e
    case SetTap(_, _) => TapLists(s, e);
    case Reset(_) => TapLists(s, e);
    case Pause(x) => PauseLists(s, x);
    case Resume(x) => ResumeIs(s, x);
    case Create(ok, junk) => CreateIs(s, ok, junk);
    case Wait => WaitIs(s);
    case _ =>
  }

  lemma PauseLists(s: State, x: int)
    ensures Step(s, Pause(x)).pending == s.pending
  {
    PauseIs(s, x);
  }

  lemma TapLists(s: State, e: Event)
    requires e.SetTap? || e.Reset?
    ensures Step(s, e).pending == s.pending
  {
  }

  /** After a fault everyone routed on the list's vector is flagged; the faulting thread is RUNNING but neither
      loaded nor queued. */
  lemma FaultTold(s: State, n: nat)
    requires Inv(s) && s.active != Some(IDLE) && n < 32 && n != 8
    ensures var s1, t := Step(s, Interrupt(n)), s.active.value;
      && AllNotified(s1, 0x80 + FaultList(n))
      && t in s1.tcb && s1.tcb[t].state == Running && s1.active != Some(t) && t !in s1.runq
  {
    var t := s.active.value;
    FaultKeeps(s, FaultList(n));
    var m := FaultEffect(s, n);
    assert OnPending(Step(s, Interrupt(n)), t);
    FaultStateKept(s, n, m);
  }

  lemma FaultStateKept(s: State, n: nat, m: State)
    requires Inv(s) && s.active != Some(IDLE) && n < 32 && n != 8 && Inv(Step(s, Interrupt(n)))
    requires FiredAt(OnList(s, FaultList(n), s.active.value), m, 0x80 + FaultList(n), s.routes[0x80 + FaultList(n)])
    requires Scheduled(m, Step(s, Interrupt(n)))
    ensures var s1, t := Step(s, Interrupt(n)), s.active.value;
      t in s1.tcb && s1.tcb[t].state == Running && s1.active != Some(t) && t !in s1.runq
  {
    var t := s.active.value;
    assert m.tcb[t].state == Running;
    assert OnPending(Step(s, Interrupt(n)), t);
  }

  // ---------------------------------------------------------------- pause, resume, wait, create, reap

  function Paused(r: RunState): RunState { if r == Waiting || r == SuspendedWaiting then SuspendedWaiting else Suspended }

  /** `m` is `s` with `t` paused: out of the run queue, the others keeping their order. */
  ghost predicate PausedIn(s: State, m: State, t: Tid) {
    && t in s.tcb && m == s.(tcb := s.tcb[t := s.tcb[t].(state := Paused(s.tcb[t].state))], runq := m.runq)
    && if s.tcb[t].state == Queued then
         exists i :: 0 <= i < |s.runq| && s.runq[i] == t && m.runq == s.runq[..i] + s.runq[i + 1..]
       else m.runq == s.runq
  }

  /** What the scheduler is called on after a call: the active thread leaves the processor unless it still runs. */
  function Leaving(s: State): State {
    if s.active.Some? && Rec(s, s.active.value).state != Running then s.(active := None) else s
  }

  lemma LeavingEffect(s: State)
    requires RunQueue(s) && (s.active.Some? ==> s.active.value in s.tcb)
    ensures Scheduled(Leaving(s), YieldUnlessRunning(s))
  {
    ScheduleEffect(Leaving(s));
  }

  lemma {:induction false} RemoveOneAt(q: seq<Tid>, t: Tid) returns (i: nat)
    requires t in q
    ensures i < |q| && q[i] == t && RemoveOne(q, t) == q[..i] + q[i + 1..]
  {
    if q[0] == t {
      i := 0;
    } else {
      var j := RemoveOneAt(q[1..], t);
      i := j + 1;
    }
  }

  lemma PauseThreadEffect(s: State, t: Tid, x: int)
    requires Inv(s) && Target(s, x) == Some(t) && t in s.tcb && t != IDLE
    ensures PausedIn(s, PauseThread(s, x), t)
  {
    if s.tcb[t].state == Queued {
      assert t in s.runq;
      var i := RemoveOneAt(s.runq, t);
      assert PauseThread(s, x).runq == s.runq[..i] + s.runq[i + 1..];
    } else {
      assert s.tcb[t].state != Free;
      assert s.tcb[t := s.tcb[t]] == s.tcb;
    }
  }

  /** Pause: the target, if there is one, is stopped; then the scheduler runs. */
  lemma PauseEffect(s: State, x: int) returns (m: State)
    requires Inv(s) && s.active != Some(IDLE)
    ensures if Target(s, x).Some? then PausedIn(s, m, Target(s, x).value) else m == s
    ensures Scheduled(Leaving(m), Step(s, Pause(x))) && Core(Leaving(m)) && m.active == s.active
  {
    m := PauseMid(s, x);
    LeavingEffect(m);
    LeavingCore(m);
    PauseIs(s, x);
  }

  lemma LeavingCore(s: State)
    requires Core(s) && s.active != Some(IDLE)
    ensures Core(Leaving(s))
  {
    UnloadKeeps(s);
  }

  lemma PauseMid(s: State, x: int) returns (m: State)
    requires Inv(s) && s.active != Some(IDLE)
    ensures m == PauseThread(s, x) && Core(m) && m.active == s.active && m.active.Some? && m.active.value in m.tcb
    ensures if Target(s, x).Some? then PausedIn(s, m, Target(s, x).value) else m == s
  {
    m := PauseThread(s, x);
    TargetLive(s, x);
    if Target(s, x).Some? { PauseThreadEffect(s, Target(s, x).value, x); }
    PauseThreadKeeps(s, x);
  }

  lemma PauseIs(s: State, x: int)
    ensures Step(s, Pause(x)) == YieldUnlessRunning(PauseThread(s, x))
  {
  }

  /** `m` is `s` with `t` resumed: queued last if it is suspended, waiting again if it was suspended waiting. */
  ghost predicate ResumedIn(s: State, m: State, t: Tid) {
    t in s.tcb &&
    match s.tcb[t].state
    case Suspended => m == s.(tcb := s.tcb[t := s.tcb[t].(state := Queued)], runq := s.runq + [t])
    case SuspendedWaiting => m == s.(tcb := s.tcb[t := s.tcb[t].(state := Waiting)])
    case _ => m == s
  }

  lemma ResumeEffect(s: State, x: int) returns (m: State)
    requires Inv(s) && s.active != Some(IDLE) && !ResumesListed(s, x)
    ensures if Target(s, x).Some? then ResumedIn(s, m, Target(s, x).value) else m == s
    ensures Scheduled(m, Step(s, Resume(x))) && Core(m)
  {
    m := ResumeMid(s, x);
    ScheduleEffect(m);
    ResumeIs(s, x);
  }

  lemma ResumeMid(s: State, x: int) returns (m: State)
    requires Inv(s) && s.active != Some(IDLE) && !ResumesListed(s, x)
    ensures m == ResumeThread(s, x) && Core(m) && m.active.Some? && m.active.value in m.tcb
    ensures if Target(s, x).Some? then ResumedIn(s, m, Target(s, x).value) else m == s
  {
    m := ResumeThread(s, x);
    TargetLive(s, x);
    ResumeThreadKeeps(s, x);
    if Target(s, x).Some? { ResumeThreadEffect(s, Target(s, x).value, x); }
  }

  lemma ResumeThreadEffect(s: State, t: Tid, x: int)
    requires Target(s, x) == Some(t) && t in s.tcb
    ensures ResumedIn(s, ResumeThread(s, x), t)
    ensures ResumeThread(s, x).active == s.active && ResumeThread(s, x).tcb.Keys == s.tcb.Keys
  {
  }

  lemma ResumeIs(s: State, x: int)
    ensures Step(s, Resume(x)) == Schedule(ResumeThread(s, x))
  {
  }

  /** Wait: with a fired tap the thread only yields; without, it waits and leaves the processor. */
  lemma WaitEffect(s: State)
    requires Inv(s) && s.active != Some(IDLE)
    ensures var t := s.active.value;
      if AnyFired(s.tcb[t]) then Scheduled(s, Step(s, Wait))
      else Scheduled(s.(tcb := s.tcb[t := s.tcb[t].(state := Waiting)], active := None), Step(s, Wait))
  {
    WaitMid(s);
    LeavingEffect(WaitCall(s));
    WaitIs(s);
  }

  lemma WaitMid(s: State)
    requires Inv(s) && s.active != Some(IDLE)
    ensures var t, m := s.active.value, WaitCall(s);
      && RunQueue(m) && m.active == Some(t) && t in m.tcb
      && Leaving(m) == if AnyFired(s.tcb[t]) then s
                       else s.(tcb := s.tcb[t := s.tcb[t].(state := Waiting)], active := None)
  {
    WaitCallKeeps(s);
  }

  lemma WaitIs(s: State)
    ensures Step(s, Wait) == YieldUnlessRunning(WaitCall(s))
  {
  }

  /** Create: a suspended thread without taps under the lowest unused id, or none; then the scheduler runs. */
  lemma CreateEffect(s: State, ok: bool, junk: nat) returns (m: State, i: Tid)
    requires Inv(s)
    ensures (m == s && (!ok || forall k :: 1 <= k < TCB_LIMIT ==> k in s.tcb)) ||
      (ok && 1 <= i < TCB_LIMIT && i !in s.tcb && (forall k :: 1 <= k < i ==> k in s.tcb)
       && m == s.(tcb := s.tcb[i := Tcb(Suspended, NO_TAPS, junk)]))
    ensures Scheduled(m, Step(s, Create(ok, junk))) && Core(m)
  {
    i := LowestFree(s.tcb.Keys, 1);
    m := CreateThread(s, ok, junk);
    CreateThreadKeeps(s, ok, junk);
    ScheduleEffect(m);
    CreateIs(s, ok, junk);
  }

  lemma CreateIs(s: State, ok: bool, junk: nat)
    ensures Step(s, Create(ok, junk)) == Schedule(CreateThread(s, ok, junk))
  {
  }

  /** Reap: exactly a suspended target goes, and nothing else changes. */
  lemma ReapEffect(s: State, x: int)
    ensures var s1, id := Step(s, Reap(x)), Lookup(s, x);
      && s1.tcb == (if id.Some? && s.tcb[id.value].state == Suspended then s.tcb - {id.value} else s.tcb)
      && s1.active == s.active && s1.runq == s.runq && s1.pending == s.pending && s1.routes == s.routes
      && s1.injected == s.injected
  {
  }

  /** Thread ids: 32 bits, -1 for the calling thread, and never the idle TCB. */
  lemma TargetMeaning(s: State, t: Tid, x: int)
    requires Inv(s) && 0 < t < TCB_LIMIT
    ensures x % 0x1_0000_0000 == t ==> Lookup(s, x) == if t in s.tcb then Some(t) else None
    ensures x % 0x1_0000_0000 == 0 || x % 0x1_0000_0000 >= TCB_LIMIT ==> Lookup(s, x) == None
    ensures s.active == Some(t) ==> Target(s, -1) == Some(t)
    ensures x != -1 ==> Target(s, x) == Lookup(s, x)
  {
  }

  // ---------------------------------------------------------------- taps

  /** The list of `vec` has work, so that the vector fires again when it is reset. */
  predicate HasWork(s: State, vec: nat) { 0x80 <= vec <= 0x82 && s.pending[vec - 0x80] != [] }

  /** `s` with tap `j` of `t` holding `vec`, not fired. */
  function WithTap(s: State, t: Tid, j: nat, vec: nat): State
    requires t in s.tcb && j < 4
  {
    s.(tcb := s.tcb[t := s.tcb[t].(tap := s.tcb[t].tap[j := Tap(vec, false)])])
  }

  /** Reset: the caller's first tap on the vector is cleared, and while its list has work the vector fires again;
      without such a tap nothing happens. */
  lemma ResetEffect(s: State, vec: nat)
    requires Inv(s) && s.active != Some(IDLE)
    ensures var t, s1 := s.active.value, Step(s, Reset(vec));
      var j := FindTap(s.tcb[t].tap, vec);
      if j == 4 then s1 == s
      else if HasWork(s, vec) then FiredAt(WithTap(s, t, j, vec), s1, vec, s.routes[vec])
      else s1 == WithTap(s, t, j, vec)
  {
    var t := s.active.value;
    var j := FindTap(s.tcb[t].tap, vec);
    ResetIs(s, t, vec);
    if j < 4 && HasWork(s, vec) { ResetFires(s, t, vec, j); }
  }

  lemma ResetFires(s: State, t: Tid, vec: nat, j: nat)
    requires Inv(s) && t in s.tcb && t != IDLE && j == FindTap(s.tcb[t].tap, vec) < 4 && HasWork(s, vec)
    ensures vec in s.routes && FiredAt(WithTap(s, t, j, vec), Fire(WithTap(s, t, j, vec), vec), vec, s.routes[vec])
  {
    assert ClearTap(s, t, j) == WithTap(s, t, j, vec);
    ClearTapKeeps(s, t, vec);
    FireEffect(WithTap(s, t, j, vec), vec);
  }

  lemma ResetIs(s: State, t: Tid, vec: nat)
    requires s.active == Some(t) && t in s.tcb && (HasWork(s, vec) ==> vec in s.routes)
    ensures var j := FindTap(s.tcb[t].tap, vec);
      Step(s, Reset(vec)) ==
        if j == 4 then s else if HasWork(s, vec) then Fire(WithTap(s, t, j, vec), vec) else WithTap(s, t, j, vec)
  {
    var j := FindTap(s.tcb[t].tap, vec);
    if j < 4 { assert ClearTap(s, t, j) == WithTap(s, t, j, vec); }
  }

  /** The route without `t`. */
  function Cleared(r: Route, t: Tid): Route {
    [if r[0] == Some(t) then None else r[0], if r[1] == Some(t) then None else r[1],
     if r[2] == Some(t) then None else r[2], if r[3] == Some(t) then None else r[3]]
  }

  /** The route with `t` in the first free slot, if there is one. */
  function Filled(r: Route, t: Tid): Route {
    if r[0].None? then r[0 := Some(t)] else if r[1].None? then r[1 := Some(t)]
    else if r[2].None? then r[2 := Some(t)] else if r[3].None? then r[3 := Some(t)] else r
  }

  /** `b` is `s` with tap `index` of `t` replaced: `t` leaves the route of the old vector and takes the first free
      slot of the new one's. */
  ghost predicate Retaps(s: State, b: State, t: Tid, index: nat, vec: nat)
    requires t in s.tcb && index < 4
  {
    && b.tcb == WithTap(s, t, index, vec).tcb && b.routes.Keys == s.routes.Keys
    && b.runq == s.runq && b.pending == s.pending && b.active == s.active && b.injected == s.injected
    && forall v :: v in s.routes ==>
         var r := if v == s.tcb[t].tap[index].vec then Cleared(s.routes[v], t) else s.routes[v];
         b.routes[v] == if v == vec then Filled(r, t) else r
  }

  lemma ClearedIs(r: Route, t: Tid)
    requires forall i, j :: 0 <= i < j < 4 && r[i].Some? ==> r[i] != r[j]
    ensures Cleared(r, t) == var i := FindSlot(r, Some(t)); if i == 4 then r else r[i := None]
  {
  }

  lemma FilledIs(r: Route, t: Tid)
    ensures Filled(r, t) == var i := FindSlot(r, None); if i == 4 then r else r[i := Some(t)]
  {
  }

  lemma RetapsRoute(s: State, t: Tid, index: nat, vec: nat, v: nat)
    requires Routing(s) && t in s.tcb && index < 4 && v in s.routes
    ensures var b := Retapped(s, t, index, vec);
      var r := if v == s.tcb[t].tap[index].vec then Cleared(s.routes[v], t) else s.routes[v];
      v in b.routes && b.routes[v] == if v == vec then Filled(r, t) else r
  {
    assert RouteOk(s, v);
    ClearedIs(s.routes[v], t);
    FilledIs(s.routes[v], t);
    FilledIs(Cleared(s.routes[v], t), t);
  }

  lemma RetappedEffect(s: State, t: Tid, index: nat, vec: nat)
    requires Routing(s) && t in s.tcb && index < 4
    ensures Retaps(s, Retapped(s, t, index, vec), t, index, vec)
  {
    RetappedTcb(s, t, index, vec);
    var b := Retapped(s, t, index, vec);
    assert b.tcb == WithTap(s, t, index, vec).tcb;
    forall v | v in s.routes
      ensures var r := if v == s.tcb[t].tap[index].vec then Cleared(s.routes[v], t) else s.routes[v];
        b.routes[v] == if v == vec then Filled(r, t) else r
    {
      RetapsRoute(s, t, index, vec, v);
    }
  }

  /** Set tap: the tap is replaced, and while the list of the new vector has work that vector fires; with a bad
      index or vector nothing happens. */
  lemma SetTapEffect(s: State, index: nat, v: nat) returns (b: State)
    requires Inv(s) && s.active != Some(IDLE) && !TapsTwice(s, index, v % 0x1_0000)
    ensures var t, vec, s1 := s.active.value, v % 0x1_0000, Step(s, SetTap(index, v));
      if index >= 4 || vec >= 0x4000 then s1 == s
      else
        && Retaps(s, b, t, index, vec)
        && if HasWork(s, vec) then FiredAt(b, s1, vec, b.routes[vec]) else s1 == b
  {
    var t, vec := s.active.value, v % 0x1_0000;
    b := s;
    SetTapIs(s, t, index, v, vec);
    if index < 4 && vec < 0x4000 {
      b := Retapped(s, t, index, vec);
      RetappedEffect(s, t, index, vec);
      if HasWork(s, vec) {
        RetappedCore(s, t, index, vec);
        FireEffect(b, vec);
      }
    }
  }

  lemma SetTapIs(s: State, t: Tid, index: nat, v: nat, vec: nat)
    requires s.active == Some(t) && t in s.tcb && vec == v % 0x1_0000 && (HasWork(s, vec) ==> vec in s.routes)
    ensures Step(s, SetTap(index, v)) ==
      if index >= 4 || vec >= 0x4000 then s
      else if HasWork(s, vec) then Fire(Retapped(s, t, index, vec), vec) else Retapped(s, t, index, vec)
  {
    if index < 4 { RetappedTcb(s, t, index, vec); }
  }

  /** While its list has work, a vector that is reset fires at its caller exactly if that has a slot. */
  lemma ResetFlag(s: State, vec: nat)
    requires Inv(s) && s.active != Some(IDLE) && HasWork(s, vec) && Holds(s.tcb[s.active.value], vec)
    ensures var t := s.active.value; var s1 := Step(s, Reset(vec));
      t in s1.tcb && (s1.tcb[t].tap[FindTap(s.tcb[t].tap, vec)].fired <==> Some(t) in s.routes[vec])
  {
    var t := s.active.value;
    ResetEffect(s, vec);
    SameFind(s.tcb[t], WithTap(s, t, FindTap(s.tcb[t].tap, vec), vec).tcb[t], vec);
  }

  /** A wait after the reset of the only fired tap, with no work on its list, puts the caller to sleep. */
  lemma ResetThenWait(s: State, vec: nat)
    requires Inv(s) && s.active != Some(IDLE) && !HasWork(s, vec) && Holds(s.tcb[s.active.value], vec)
    requires var tap := s.tcb[s.active.value].tap; forall i :: 0 <= i < 4 && i != FindTap(tap, vec) ==> !tap[i].fired
    ensures var t, s2 := s.active.value, Step(Step(s, Reset(vec)), Wait);
      t in s2.tcb && s2.tcb[t].state == Waiting && s2.active != Some(t)
  {
    var t := s.active.value;
    ResetEffect(s, vec);
    ResetKeeps(s, vec);
    WaitSleeps(WithTap(s, t, FindTap(s.tcb[t].tap, vec), vec), t);
  }

  lemma WaitSleeps(s: State, t: Tid)
    requires Inv(s) && s.active == Some(t) && t != IDLE && !AnyFired(s.tcb[t])
    ensures var s1 := Step(s, Wait); t in s1.tcb && s1.tcb[t].state == Waiting && s1.active != Some(t)
  {
    WaitEffect(s);
    assert t !in s.runq;
  }
}

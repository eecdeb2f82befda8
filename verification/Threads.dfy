/** The thread lifecycle as a state machine over values: the run queue and the three
    fault/zombie lists are sequences here; `KernelMemory` implements them with `next` links. */

module Base {
  datatype Option<+T> = None | Some(value: T)

  ghost predicate NoDup<T>(q: seq<T>) {
    forall i, j :: 0 <= i < j < |q| ==> q[i] != q[j]
  }
}

module Threads {
  import opened Base

  /** A TCB is named by its thread id; the static idle TCB has id 0 and is not in the table. */
  type Tid = nat

  const IDLE: Tid := 0
  const TCB_LIMIT := 65536

  /** Vectors of the pagefault, miscfault and zombie lists are FAULT_VECTOR + 0, 1, 2. */
  const FAULT_VECTOR := 0x80
  const PAGEFAULT := 0
  const MISCFAULT := 1
  const ZOMBIE := 2

  datatype RunState = Free | SuspendedWaiting | Suspended | Waiting | Queued | Running

  /** A 16-bit tap word: a 14-bit vector and the fired flag in bit 15. Bit 14 is never set. */
  datatype Tap = Tap(vec: nat, fired: bool) {
    function Word(): nat { vec + if fired then 0x8000 else 0 }
  }

  type Taps = s: seq<Tap> | |s| == 4 witness [Tap(0, false), Tap(0, false), Tap(0, false), Tap(0, false)]

  const NO_TAPS: Taps := [Tap(0, false), Tap(0, false), Tap(0, false), Tap(0, false)]

  datatype Tcb = Tcb(state: RunState, tap: Taps, rax: nat)

  type Route = s: seq<Option<Tid>> | |s| == 4 witness [None, None, None, None]
  type Lists = s: seq<seq<Tid>> | |s| == 3 witness [[], [], []]

  /** `dropped` and `injected` are history: which taps found their route full, and how often
      the idle-injection branch was taken. */
  datatype State = State(
    tcb: map<Tid, Tcb>,
    active: Option<Tid>,
    runq: seq<Tid>,
    pending: Lists,
    routes: map<nat, Route>,
    dropped: set<(Tid, nat)>,
    injected: nat)

  /** API calls with their trailing yield, and hardware interrupts by vector number. */
  datatype Event =
    | Interrupt(ivect: nat)
    | Yield
    | Create(ok: bool, junk: nat)
    | Pause(thread: int)
    | Resume(thread: int)
    | Exit
    | Reap(thread: int)
    | SetTap(index: nat, vec: nat)
    | Reset(vec: nat)
    | Wait
    | GetFault(list: nat)

  // ---------------------------------------------------------------- primitives

  function Rec(s: State, t: Tid): Tcb {
    if t in s.tcb then s.tcb[t] else Tcb(Free, NO_TAPS, 0)
  }

  function WithState(s: State, t: Tid, r: RunState): State {
    s.(tcb := s.tcb[t := Rec(s, t).(state := r)])
  }

  /** Index of the first tap holding `vec`, or 4. */
  function FindTap(tap: Taps, vec: nat): (j: nat)
    ensures j <= 4
    ensures j < 4 ==> tap[j].vec == vec
    ensures forall i :: 0 <= i < j ==> tap[i].vec != vec
  {
    if tap[0].vec == vec then 0 else if tap[1].vec == vec then 1
    else if tap[2].vec == vec then 2 else if tap[3].vec == vec then 3 else 4
  }

  /** Index of the first slot equal to `x`, or 4. */
  function FindSlot(r: Route, x: Option<Tid>): (i: nat)
    ensures i <= 4
    ensures i < 4 ==> r[i] == x
    ensures forall k :: 0 <= k < i ==> r[k] != x
  {
    if r[0] == x then 0 else if r[1] == x then 1 else if r[2] == x then 2 else if r[3] == x then 3 else 4
  }

  function FirstFired(tap: Taps): (j: nat)
    ensures j <= 4
    ensures j < 4 ==> tap[j].fired
    ensures forall i :: 0 <= i < j ==> !tap[i].fired
  {
    if tap[0].fired then 0 else if tap[1].fired then 1 else if tap[2].fired then 2
    else if tap[3].fired then 3 else 4
  }

  function Push(s: State, t: Tid): State { s.(runq := s.runq + [t]) }

  function RemoveOne(q: seq<Tid>, t: Tid): (r: seq<Tid>)
  {
    if q == [] then [] else if q[0] == t then q[1..] else [q[0]] + RemoveOne(q[1..], t)
  }

  function Enqueue(s: State, k: nat, t: Tid): State
    requires k < 3
  {
    s.(pending := s.pending[k := [t] + s.pending[k]])
  }

  function Dequeue(s: State, k: nat): State
    requires k < 3
  {
    if s.pending[k] == [] then s else s.(pending := s.pending[k := s.pending[k][1..]])
  }

  function Unload(s: State): State { s.(active := None) }

  /** First half of `scheduler_schedule`: the active thread, if any, goes to the tail. */
  function Requeue(s: State): (s1: State)
    ensures s1.routes == s.routes && s1.dropped == s.dropped
  {
    match s.active
    case Some(t) => Push(WithState(Unload(s), t, Queued), t)
    case None => s
  }

  /** Second half: load the head, or inject the idle TCB. */
  function LoadNext(s: State): (s1: State)
    ensures s1.routes == s.routes && s1.dropped == s.dropped
  {
    if s.runq != [] then
      WithState(s, s.runq[0], Running).(active := Some(s.runq[0]), runq := s.runq[1..])
    else
      s.(active := Some(IDLE), injected := s.injected + 1)
  }

  function Schedule(s: State): (s1: State)
    ensures s1.routes == s.routes && s1.dropped == s.dropped
  { LoadNext(Requeue(s)) }

  /** What firing `vec` does to one routed thread. */
  function Notify(s: State, vec: nat, t: Tid): (s1: State)
    ensures s1.routes == s.routes && s1.dropped == s.dropped && s1.pending == s.pending && s1.active == s.active
  {
    var r := Rec(s, t);
    var j := FindTap(r.tap, vec);
    if j == 4 then s
    else
      var tap := r.tap[j := r.tap[j].(fired := true)];
      match r.state
      case Waiting => Push(s.(tcb := s.tcb[t := Tcb(Queued, tap, vec)]), t)
      case SuspendedWaiting => s.(tcb := s.tcb[t := Tcb(Suspended, tap, vec)])
      case _ => s.(tcb := s.tcb[t := r.(tap := tap)])
  }

  function NotifySlot(s: State, vec: nat, x: Option<Tid>): (s1: State)
    ensures s1.routes == s.routes && s1.dropped == s.dropped && s1.pending == s.pending && s1.active == s.active
  {
    if x.Some? then Notify(s, vec, x.value) else s
  }

  function NotifyAll(s: State, vec: nat, slots: seq<Option<Tid>>): (s1: State)
    ensures s1.routes == s.routes && s1.dropped == s.dropped && s1.pending == s.pending && s1.active == s.active
    decreases |slots|
  {
    if slots == [] then s else NotifyAll(NotifySlot(s, vec, slots[0]), vec, slots[1..])
  }

  function Fire(s: State, vec: nat): (s1: State)
    ensures s1.routes == s.routes && s1.dropped == s.dropped && s1.pending == s.pending && s1.active == s.active
  {
    if vec in s.routes then NotifyAll(s, vec, s.routes[vec]) else s
  }

  /** `interrupt_vector_reset`: the pinion page re-fires while its list has work. */
  function VectorReset(s: State, vec: nat): (s1: State)
    ensures s1.routes == s.routes && s1.dropped == s.dropped
  {
    if vec in s.routes && FAULT_VECTOR <= vec < FAULT_VECTOR + 3 && s.pending[vec - FAULT_VECTOR] != []
    then Fire(s, vec) else s
  }

  function RemoveRoute(s: State, t: Tid, vec: nat): State {
    if vec !in s.routes then s
    else
      var i := FindSlot(s.routes[vec], Some(t));
      if i == 4 then s else s.(routes := s.routes[vec := s.routes[vec][i := None]])
  }

  function AddRoute(s: State, t: Tid, vec: nat): State {
    if vec !in s.routes then s
    else
      var i := FindSlot(s.routes[vec], None);
      if i == 4 then s.(dropped := s.dropped + {(t, vec)})
      else s.(routes := s.routes[vec := s.routes[vec][i := Some(t)]])
  }

  // ---------------------------------------------------------------- API calls

  function LowestFree(used: set<Tid>, from: nat): (i: nat)
    requires from <= TCB_LIMIT
    ensures from <= i <= TCB_LIMIT
    ensures i < TCB_LIMIT ==> i !in used
    ensures forall k :: from <= k < i ==> k in used
    decreases TCB_LIMIT - from
  {
    if from == TCB_LIMIT || from !in used then from else LowestFree(used, from + 1)
  }

  function CreateThread(s: State, ok: bool, junk: nat): (s1: State)
    ensures s1.routes == s.routes && s1.dropped == s.dropped
  {
    var i := LowestFree(s.tcb.Keys, 1);
    if !ok || i == TCB_LIMIT then s else s.(tcb := s.tcb[i := Tcb(Suspended, NO_TAPS, junk)])
  }

  /** `tcb_get` on a 32-bit id. */
  function Lookup(s: State, thread: int): Option<Tid> {
    var id := thread % 0x1_0000_0000;
    if 0 < id < TCB_LIMIT && id in s.tcb then Some(id) else None
  }

  function Target(s: State, thread: int): Option<Tid> {
    if thread == -1 && s.active.Some? then Lookup(s, s.active.value) else Lookup(s, thread)
  }

  function PauseThread(s: State, thread: int): (s1: State)
    ensures s1.routes == s.routes && s1.dropped == s.dropped
  {
    match Target(s, thread)
    case None => s
    case Some(t) =>
      match s.tcb[t].state
      case Waiting => WithState(s, t, SuspendedWaiting)
      case Queued => WithState(s.(runq := RemoveOne(s.runq, t)), t, Suspended)
      case Running => WithState(s, t, Suspended)
      case _ => s
  }

  function ResumeThread(s: State, thread: int): (s1: State)
    ensures s1.routes == s.routes && s1.dropped == s.dropped
  {
    match Target(s, thread)
    case None => s
    case Some(t) =>
      match s.tcb[t].state
      case Suspended => WithState(Push(s, t), t, Queued)
      case SuspendedWaiting => WithState(s, t, Waiting)
      case _ => s
  }

  /** `t` is gone, and the history entries of its taps with it. */
  function Without(s: State, t: Tid): (s1: State)
    ensures s1.routes == s.routes
  {
    s.(tcb := s.tcb - {t}, dropped := set p | p in s.dropped && p.0 != t)
  }

  function ReapThread(s: State, thread: int): (s1: State)
    ensures s1.routes == s.routes
  {
    match Lookup(s, thread)
    case None => s
    case Some(t) => if s.tcb[t].state == Suspended then Without(s, t) else s
  }

  function ExitThread(s: State): (s1: State)
    ensures s1.routes == s.routes && s1.dropped == s.dropped
  {
    match s.active
    case None => s
    case Some(t) => Fire(Enqueue(WithState(s, t, Suspended), ZOMBIE, t), FAULT_VECTOR + ZOMBIE)
  }

  function ReplaceTap(s: State, t: Tid, index: nat, vec: nat): State
    requires index < 4
  {
    var r := Rec(s, t);
    s.(tcb := s.tcb[t := r.(tap := r.tap[index := Tap(vec, false)])], dropped := s.dropped - {(t, r.tap[index].vec)})
  }

  /** The old vector is passed to route removal without its fired flag. */
  function DropOldTap(s: State, t: Tid, index: nat): State
    requires index < 4
  {
    var prev := Rec(s, t).tap[index].vec;
    if prev != 0 then RemoveRoute(s, t, prev) else s
  }

  /** `set_tap` has edited tap and routes but not yet reset the vector. */
  function Retapped(s: State, t: Tid, index: nat, vec: nat): State
    requires index < 4
  {
    AddRoute(ReplaceTap(DropOldTap(s, t, index), t, index, vec), t, vec)
  }

  /** A tap word has 16 bits; the vector argument may be wider. */
  function Narrow(vec: nat): nat { vec % 0x1_0000 }

  function SetTapCall(s: State, index: nat, vec: nat): State {
    if index >= 4 || vec >= 0x4000 || s.active.None? then s
    else VectorReset(Retapped(s, s.active.value, index, vec), vec)
  }

  function ClearTap(s: State, t: Tid, j: nat): State
    requires j < 4
  {
    var r := Rec(s, t);
    s.(tcb := s.tcb[t := r.(tap := r.tap[j := r.tap[j].(fired := false)])])
  }

  function ResetCall(s: State, vec: nat): (s1: State)
    ensures s1.routes == s.routes && s1.dropped == s.dropped
  {
    match s.active
    case None => s
    case Some(t) =>
      var j := FindTap(Rec(s, t).tap, vec);
      if j == 4 then s else VectorReset(ClearTap(s, t, j), vec)
  }

  function WaitCall(s: State): (s1: State)
    ensures s1.routes == s.routes && s1.dropped == s.dropped
  {
    match s.active
    case None => s
    case Some(t) => if FirstFired(Rec(s, t).tap) < 4 then s else WithState(s, t, Waiting)
  }

  /** The trailing `int 0xFF` with rdi = 0. */
  function YieldUnlessRunning(s: State): (s1: State)
    ensures s1.routes == s.routes && s1.dropped == s.dropped
  {
    if s.active.Some? && Rec(s, s.active.value).state != Running then Schedule(Unload(s)) else Schedule(s)
  }

  function FaultStep(s: State, k: nat): (s1: State)
    requires k < 3
    ensures s1.routes == s.routes && s1.dropped == s.dropped
  {
    match s.active
    case None => s
    case Some(t) => Schedule(Fire(Enqueue(Unload(s), k, t), FAULT_VECTOR + k))
  }

  function Step(s: State, e: Event): State {
    match e
    case Interrupt(n) =>
      if n == 32 then Schedule(s)
      else if n == 14 then FaultStep(s, PAGEFAULT)
      else if n < 32 then FaultStep(s, MISCFAULT)
      else s
    case Yield => Schedule(s)
    case Create(ok, junk) => Schedule(CreateThread(s, ok, junk))
    case Pause(x) => YieldUnlessRunning(PauseThread(s, x))
    case Resume(x) => Schedule(ResumeThread(s, x))
    case Exit => YieldUnlessRunning(ExitThread(s))
    case Reap(x) => ReapThread(s, x)
    case SetTap(i, v) => SetTapCall(s, i, Narrow(v))
    case Reset(v) => ResetCall(s, v)
    case Wait => YieldUnlessRunning(WaitCall(s))
    case GetFault(k) => if k < 3 then Dequeue(s, k) else s
  }

  /** Whether the step calls `scheduler_schedule`. */
  predicate Schedules(e: Event) {
    match e
    case Interrupt(n) => n <= 32
    case Reap(_) => false
    case SetTap(_, _) => false
    case Reset(_) => false
    case GetFault(_) => false
    case _ => true
  }

  // ---------------------------------------------------------------- client discipline

  predicate OnPending(s: State, t: Tid) { t in s.pending[0] || t in s.pending[1] || t in s.pending[2] }

  predicate Untapped(r: Tcb) { forall j :: 0 <= j < 4 ==> r.tap[j].vec == 0 }

  /** A route slot names `t`. */
  ghost predicate Routed(s: State, t: Tid) {
    exists v, i :: v in s.routes && 0 <= i < 4 && s.routes[v][i] == Some(t)
  }

  /** Vectors of the two pages that `init` adds, 0x0080 and 0x0100; no other page is ever added. */
  predicate Installed(vec: nat) { vec / 128 == 1 || vec / 128 == 2 }

  /** No tap but `index` holds `vec`, if it is installed. */
  predicate Fresh(r: Tcb, index: nat, vec: nat) {
    Installed(vec) ==> forall j :: 0 <= j < 4 && j != index ==> r.tap[j].vec != vec
  }

  /** A resume whose target is suspended while still on a fault or zombie list. */
  predicate ResumesListed(s: State, thread: int) {
    var x := Target(s, thread);
    x.Some? && Rec(s, x.value).state == Suspended && OnPending(s, x.value)
  }

  /** A reap whose target is suspended while a list or a route slot still names it. */
  ghost predicate ReapsNamed(s: State, thread: int) {
    var x := Lookup(s, thread);
    x.Some? && Rec(s, x.value).state == Suspended && (OnPending(s, x.value) || Routed(s, x.value))
  }

  /** A valid `set_tap` on an installed vector that another tap of the thread holds. */
  predicate TapsTwice(s: State, index: nat, vec: nat)
    requires s.active.Some?
  {
    index < 4 && vec < 0x4000 && !Fresh(Rec(s, s.active.value), index, vec)
  }

  /** The guards: what the kernel expects of its clients and of the hardware. A client meets them that
      leaves listed threads alone, reaps only threads without taps and never taps a vector twice. */
  ghost predicate Enabled(s: State, e: Event) {
    && s.active.Some?
    && (!(e.Interrupt? && e.ivect >= 32) ==> s.active.value != IDLE)
    && match e
       case Interrupt(n) => n != 8 && n != 0x100
       case Resume(x) => !ResumesListed(s, x)
       case Reap(x) => !ReapsNamed(s, x)
       case SetTap(i, v) => !TapsTwice(s, i, Narrow(v))
       case _ => true
  }

  /** State after `init`: pages 1 and 2 installed, thread 1 loaded. */
  function Initial(junk: nat): State {
    State(map[IDLE := Tcb(Free, NO_TAPS, 0), 1 := Tcb(Running, NO_TAPS, junk)], Some(1), [], [[], [], []],
          map v: nat | 0x80 <= v < 0x180 && Installed(v) :: [None, None, None, None], {}, 0)
  }

  function Run(s: State, es: seq<Event>): State
    decreases |es|
  {
    if es == [] then s else Run(Step(s, es[0]), es[1..])
  }

  ghost predicate Legal(s: State, es: seq<Event>)
    decreases |es|
  {
    es == [] || (Enabled(s, es[0]) && Legal(Step(s, es[0]), es[1..]))
  }
}

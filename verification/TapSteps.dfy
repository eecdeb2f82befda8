/** Setting and resetting taps keeps the invariant; with the other calls this gives the step theorem. */
module TapSteps {
  import opened Base
  import opened Threads
  import opened ThreadInvariants
  import opened ThreadSteps

  // ---------------------------------------------------------------- reset

  /** Only `t`'s taps change, and none becomes fired. */
  ghost predicate OnlyTaps(s: State, s1: State, t: Tid) {
    && t in s.tcb && s1.tcb.Keys == s.tcb.Keys && s1.runq == s.runq && s1.pending == s.pending
    && s1.active == s.active && s1.injected == s.injected && s1.tcb[t].state == s.tcb[t].state
    && (forall u :: u in s.tcb && u != t ==> s1.tcb[u] == s.tcb[u])
    && (AnyFired(s1.tcb[t]) ==> AnyFired(s.tcb[t]))
  }

  lemma OnlyTapsKeeps(s: State, s1: State, t: Tid)
    requires Core(s) && Routing(s1) && OnlyTaps(s, s1, t) && t != IDLE
    ensures Core(s1)
  {
  }

  lemma ClearTapKeeps(s: State, t: Tid, vec: nat)
    requires Inv(s) && t in s.tcb && t != IDLE && Holds(s.tcb[t], vec)
    ensures var s1 := ClearTap(s, t, FindTap(s.tcb[t].tap, vec));
      Core(s1) && NotifiedExcept(s1, vec) && OnlyTaps(s, s1, t)
  {
    var j := FindTap(s.tcb[t].tap, vec);
    var s1 := ClearTap(s, t, j);
    RoutingFrame(s, s1);
    OnlyTapsKeeps(s, s1, t);
    forall v, x | v != vec && SlotNotified(s, v, x) ensures SlotNotified(s1, v, x) {
      if x.Some? { SameFind(s.tcb[x.value], s1.tcb[x.value], v); }
    }
  }

  /** A call that edited only the active thread's taps ends by resetting the vector. */
  lemma FinishReset(s: State, s1: State, vec: nat)
    requires Loaded(s) && s.active.value != IDLE && OnlyTaps(s, s1, s.active.value)
    requires Core(s1) && NotifiedExcept(s1, vec)
    ensures Inv(VectorReset(s1, vec))
  {
    VectorResetKeeps(s1, vec);
    LoadedFrame(s, s1, VectorReset(s1, vec));
  }

  lemma ResetKeeps(s: State, vec: nat)
    requires Inv(s) && s.active != Some(IDLE)
    ensures Inv(ResetCall(s, vec))
  {
    var t := s.active.value;
    var j := FindTap(s.tcb[t].tap, vec);
    if j < 4 {
      ClearTapKeeps(s, t, vec);
      FinishReset(s, ClearTap(s, t, j), vec);
    }
  }

  lemma LoadedFrame(s: State, s1: State, s2: State)
    requires Loaded(s) && AwakeUntouched(s1, s2) && s1.active == s.active && s1.pending == s.pending
    requires s.active.value in s1.tcb && s1.tcb[s.active.value].state == s.tcb[s.active.value].state
    requires s.active.value == IDLE ==> IDLE in s1.tcb && s1.tcb[IDLE].state == s.tcb[IDLE].state
    ensures Loaded(s2)
  {
  }

  // ---------------------------------------------------------------- set_tap: routes

  lemma FindSlotClear(r: Route, t: Tid, u: Tid)
    requires forall i, j :: 0 <= i < j < 4 && r[i].Some? ==> r[i] != r[j]
    requires FindSlot(r, Some(t)) < 4
    ensures var r1 := r[FindSlot(r, Some(t)) := None];
      && FindSlot(r1, Some(t)) == 4
      && (u != t ==> (FindSlot(r1, Some(u)) == 4 <==> FindSlot(r, Some(u)) == 4))
  {
  }

  /** After the old route is dropped, `t` is nowhere in the route of its old vector; nothing else moved. */
  lemma DropOldTapRoutes(s: State, t: Tid, index: nat, v: nat)
    requires Routing(s) && t in s.tcb && index < 4 && v in s.routes
    ensures var s1 := DropOldTap(s, t, index);
      && s1.routes.Keys == s.routes.Keys
      && RouteOk(s1, v)
      && (v == s.tcb[t].tap[index].vec ==> FindSlot(s1.routes[v], Some(t)) == 4)
      && (v != s.tcb[t].tap[index].vec ==> s1.routes[v] == s.routes[v])
      && (forall u :: u != t ==> (FindSlot(s1.routes[v], Some(u)) == 4 <==> FindSlot(s.routes[v], Some(u)) == 4))
  {
    assert RouteOk(s, v);
    var s1 := DropOldTap(s, t, index);
    forall i | 0 <= i < 4 ensures SlotOk(s1, v, s1.routes[v][i]) {
      assert SlotOk(s, v, s.routes[v][i]);
    }
    if FindSlot(s.routes[v], Some(t)) < 4 {
      forall u | u != t
        ensures FindSlot(s.routes[v][FindSlot(s.routes[v], Some(t)) := None], Some(u)) == 4 <==>
                FindSlot(s.routes[v], Some(u)) == 4
      {
        FindSlotClear(s.routes[v], t, u);
      }
    }
  }

  /** A thread that does not hold `v` is not in its route. */
  lemma NotHeldNotRouted(s: State, t: Tid, v: nat)
    requires Routing(s) && t in s.tcb && v in s.routes && !Holds(s.tcb[t], v)
    ensures FindSlot(s.routes[v], Some(t)) == 4 && (t, v) !in s.dropped
  {
  }

  /** Which vectors the thread holds once tap `index` is replaced. */
  lemma ReplacedHolds(r: Tcb, index: nat, vec: nat, v: nat)
    requires index < 4 && TapsDistinct(r) && Fresh(r, index, vec) && Installed(v)
    ensures var r1 := r.(tap := r.tap[index := Tap(vec, false)]);
      && TapsDistinct(r1)
      && (Holds(r1, v) <==> v == vec || (v != r.tap[index].vec && Holds(r, v)))
      && (v != vec && HasFired(r, v) && v != r.tap[index].vec ==> HasFired(r1, v))
      && (v == vec && v != r.tap[index].vec ==> !Holds(r, v))
  {
  }

  /** Routing, except that `t`'s tap on `vec` is neither routed nor recorded as dropped yet. */
  ghost predicate RoutingExcept(s: State, t: Tid, vec: nat) {
    && (forall u :: u in s.tcb ==> TapsDistinct(s.tcb[u]))
    && (forall v :: v in s.routes ==> RouteOk(s, v))
    && (forall u, v :: u in s.tcb && v in s.routes && (u != t || v != vec) ==> TapRouted(s, u, v))
    && (vec in s.routes ==> FindSlot(s.routes[vec], Some(t)) == 4 && (t, vec) !in s.dropped)
    && (forall p :: p in s.dropped ==> p.0 in s.tcb && p.1 in s.routes)
    && (forall v :: v in s.routes ==> Installed(v))
    && 0x80 in s.routes && 0x81 in s.routes && 0x82 in s.routes
    && t in s.tcb && t != IDLE && Holds(s.tcb[t], vec)
  }

  lemma ReplaceRouteOk(s: State, t: Tid, index: nat, vec: nat, v: nat)
    requires Routing(s) && t in s.tcb && index < 4 && v in s.routes && Fresh(s.tcb[t], index, vec)
    ensures RouteOk(ReplaceTap(DropOldTap(s, t, index), t, index, vec), v)
  {
    DropOldTapRoutes(s, t, index, v);
    var s1 := DropOldTap(s, t, index);
    var s2 := ReplaceTap(s1, t, index, vec);
    ReplacedHolds(s.tcb[t], index, vec, v);
    forall i | 0 <= i < 4 ensures SlotOk(s2, v, s2.routes[v][i]) {
      assert SlotOk(s1, v, s1.routes[v][i]);
    }
  }

  lemma ReplaceTapRouted(s: State, t: Tid, index: nat, vec: nat, u: Tid, v: nat)
    requires Routing(s) && t in s.tcb && index < 4 && v in s.routes && Fresh(s.tcb[t], index, vec)
    requires u in s.tcb
    ensures var s2 := ReplaceTap(DropOldTap(s, t, index), t, index, vec);
      && (u != t || v != vec ==> TapRouted(s2, u, v))
      && (v == vec ==> FindSlot(s2.routes[v], Some(t)) == 4 && (t, v) !in s2.dropped)
  {
    DropOldTapRoutes(s, t, index, v);
    assert TapRouted(s, u, v);
    ReplacedHolds(s.tcb[t], index, vec, v);
    if !Holds(s.tcb[t], v) { NotHeldNotRouted(s, t, v); }
  }

  lemma ReplaceTapsDistinct(s: State, t: Tid, index: nat, vec: nat)
    requires Routing(s) && t in s.tcb && index < 4 && Fresh(s.tcb[t], index, vec)
    ensures var s2 := ReplaceTap(DropOldTap(s, t, index), t, index, vec);
      && Holds(s2.tcb[t], vec)
      && forall u :: u in s2.tcb ==> TapsDistinct(s2.tcb[u])
  {
  }

  lemma ReplaceKeys(s: State, t: Tid, index: nat, vec: nat)
    requires t in s.tcb && index < 4
    ensures var s2 := ReplaceTap(DropOldTap(s, t, index), t, index, vec);
      && s2.routes.Keys == s.routes.Keys && s2.tcb.Keys == s.tcb.Keys && s2.dropped <= s.dropped
  {
  }

  lemma ReplaceRouting(s: State, t: Tid, index: nat, vec: nat)
    requires Routing(s) && t in s.tcb && t != IDLE && index < 4 && Fresh(s.tcb[t], index, vec)
    ensures RoutingExcept(ReplaceTap(DropOldTap(s, t, index), t, index, vec), t, vec)
  {
    ReplaceKeys(s, t, index, vec);
    ReplaceTapsDistinct(s, t, index, vec);
    forall v | v in s.routes
      ensures RouteOk(ReplaceTap(DropOldTap(s, t, index), t, index, vec), v)
    {
      ReplaceRouteOk(s, t, index, vec, v);
    }
    forall u, v | u in s.tcb && v in s.routes
      ensures var s2 := ReplaceTap(DropOldTap(s, t, index), t, index, vec);
        (u != t || v != vec ==> TapRouted(s2, u, v)) && (v == vec ==> FindSlot(s2.routes[v], Some(t)) == 4 && (t, v) !in s2.dropped)
    {
      ReplaceTapRouted(s, t, index, vec, u, v);
    }
  }

  lemma AddRouteOk(s: State, t: Tid, vec: nat, v: nat)
    requires RoutingExcept(s, t, vec) && v in s.routes
    ensures RouteOk(AddRoute(s, t, vec), v)
  {
    var s1 := AddRoute(s, t, vec);
    assert RouteOk(s, v);
    forall k | 0 <= k < 4 ensures SlotOk(s1, v, s1.routes[v][k]) {
      assert SlotOk(s, v, s.routes[v][k]);
    }
  }

  lemma AddTapRouted(s: State, t: Tid, vec: nat, u: Tid, v: nat)
    requires t in s.tcb && Holds(s.tcb[t], vec) && u in s.tcb && v in s.routes
    requires vec in s.routes ==> FindSlot(s.routes[vec], Some(t)) == 4 && (t, vec) !in s.dropped
    requires u != t || v != vec ==> TapRouted(s, u, v)
    ensures TapRouted(AddRoute(s, t, vec), u, v)
  {
  }

  lemma AddRouteRouting(s: State, t: Tid, vec: nat)
    requires RoutingExcept(s, t, vec)
    ensures Routing(AddRoute(s, t, vec))
  {
    var s1 := AddRoute(s, t, vec);
    forall v | v in s1.routes ensures RouteOk(s1, v) { AddRouteOk(s, t, vec, v); }
    forall u, v | u in s1.tcb && v in s1.routes ensures TapRouted(s1, u, v) { AddTapRouted(s, t, vec, u, v); }
  }

  // ---------------------------------------------------------------- set_tap: the whole call

  lemma RetappedTcb(s: State, t: Tid, index: nat, vec: nat)
    requires t in s.tcb && index < 4
    ensures var s1 := Retapped(s, t, index, vec);
      && OnlyTaps(s, s1, t) && s1.routes.Keys == s.routes.Keys
      && s1.tcb[t].tap == s.tcb[t].tap[index := Tap(vec, false)]
  {
  }

  lemma RetappedCore(s: State, t: Tid, index: nat, vec: nat)
    requires Core(s) && t in s.tcb && t != IDLE && index < 4 && Fresh(s.tcb[t], index, vec)
    ensures Core(Retapped(s, t, index, vec))
  {
    RetappedTcb(s, t, index, vec);
    ReplaceRouting(s, t, index, vec);
    AddRouteRouting(ReplaceTap(DropOldTap(s, t, index), t, index, vec), t, vec);
    OnlyTapsKeeps(s, Retapped(s, t, index, vec), t);
  }

  lemma RetappedRoutes(s: State, t: Tid, index: nat, vec: nat, v: nat)
    requires t in s.tcb && index < 4 && v in s.routes && v != vec
    ensures var s1 := Retapped(s, t, index, vec);
      v in s1.routes && s1.routes[v] == DropOldTap(s, t, index).routes[v]
  {
  }

  /** A thread whose tap on `v` was replaced is gone from `v`'s route; the others keep their flags. */
  lemma RetappedNotified(s: State, t: Tid, index: nat, vec: nat, v: nat)
    requires Core(s) && t in s.tcb && index < 4 && Fresh(s.tcb[t], index, vec)
    requires v in s.routes && v != vec && AllNotified(s, v)
    ensures AllNotified(Retapped(s, t, index, vec), v)
  {
    var s1 := Retapped(s, t, index, vec);
    RetappedRoutes(s, t, index, vec, v);
    RetappedTcb(s, t, index, vec);
    DropOldTapRoutes(s, t, index, v);
    ReplacedHolds(s.tcb[t], index, vec, v);
    forall i | 0 <= i < 4 ensures SlotNotified(s1, v, s1.routes[v][i]) {
      assert SlotNotified(s, v, s.routes[v][i]);
    }
  }

  lemma RetappedNotifiedExcept(s: State, t: Tid, index: nat, vec: nat)
    requires Core(s) && Notified(s) && t in s.tcb && index < 4 && Fresh(s.tcb[t], index, vec)
    ensures NotifiedExcept(Retapped(s, t, index, vec), vec)
  {
    RetappedTcb(s, t, index, vec);
    if s.pending[0] != [] && vec != 0x80 { RetappedNotified(s, t, index, vec, 0x80); }
    if s.pending[1] != [] && vec != 0x81 { RetappedNotified(s, t, index, vec, 0x81); }
    if s.pending[2] != [] && vec != 0x82 { RetappedNotified(s, t, index, vec, 0x82); }
  }

  lemma RetappedResetKeeps(s: State, t: Tid, index: nat, vec: nat)
    requires Inv(s) && s.active == Some(t) && t != IDLE && index < 4 && Fresh(s.tcb[t], index, vec)
    ensures Inv(VectorReset(Retapped(s, t, index, vec), vec))
  {
    RetappedCore(s, t, index, vec);
    RetappedNotifiedExcept(s, t, index, vec);
    RetappedTcb(s, t, index, vec);
    FinishReset(s, Retapped(s, t, index, vec), vec);
  }

  lemma SetTapKeeps(s: State, index: nat, vec: nat)
    requires Inv(s) && s.active != Some(IDLE) && !TapsTwice(s, index, vec)
    ensures Inv(SetTapCall(s, index, vec))
  {
    if index < 4 && vec < 0x4000 {
      RetappedResetKeeps(s, s.active.value, index, vec);
    }
  }

  // ---------------------------------------------------------------- the step theorem

  /** Every guarded step keeps the invariant. */
  lemma StepKeeps(s: State, e: Event)
    requires Inv(s) && Enabled(s, e)
    ensures Inv(Step(s, e))
  {
    match e
    case Interrupt(n) =>
      if n == 32 { ScheduleKeeps(s); }
      else if n == 14 { FaultKeeps(s, PAGEFAULT); }
      else if n < 32 { FaultKeeps(s, MISCFAULT); }
    case Yield => ScheduleKeeps(s);
    case Create(ok, junk) =>
      CreateThreadKeeps(s, ok, junk);
      ScheduleKeeps(CreateThread(s, ok, junk));
    case Pause(x) => PauseKeeps(s, x);
    case Resume(x) => ResumeKeeps(s, x);
    case Exit => ExitKeeps(s);
    case Reap(x) => ReapKeeps(s, x);
    case SetTap(i, v) => SetTapKeeps(s, i, Narrow(v));
    case Reset(v) => ResetKeeps(s, v);
    case Wait => WaitKeeps(s);
    case GetFault(k) => if k < 3 { GetFaultKeeps(s, k); }
  }

  lemma InitialRouting(junk: nat)
    ensures Routing(Initial(junk))
  {
    var s := Initial(junk);
    assert forall v :: v in s.routes <==> 0x80 <= v < 0x180 && Installed(v);
    assert Installed(0x80) && Installed(0x81) && Installed(0x82);
  }

  lemma InitialInv(junk: nat)
    ensures Inv(Initial(junk))
  {
    InitialRouting(junk);
  }

  lemma {:induction false} RunKeeps(s: State, es: seq<Event>)
    requires Inv(s) && Legal(s, es)
    ensures Inv(Run(s, es))
    decreases |es|
  {
    if es != [] {
      StepKeeps(s, es[0]);
      RunKeeps(Step(s, es[0]), es[1..]);
    }
  }
}

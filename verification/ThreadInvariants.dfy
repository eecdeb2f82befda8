/** What every step of the thread state machine keeps. */
module ThreadInvariants {
  import opened Base
  import opened Threads

  predicate Sleeping(r: Tcb) { r.state == Waiting || r.state == SuspendedWaiting }

  predicate AnyFired(r: Tcb) { exists j :: 0 <= j < 4 && r.tap[j].fired }

  predicate Holds(r: Tcb, vec: nat) { FindTap(r.tap, vec) < 4 }

  predicate HasFired(r: Tcb, vec: nat) { Holds(r, vec) && r.tap[FindTap(r.tap, vec)].fired }

  // ---------------------------------------------------------------- the invariant

  ghost predicate RunQueue(s: State) {
    && NoDup(s.runq)
    && (forall t :: t in s.runq <==> t in s.tcb && s.tcb[t].state == Queued)
  }

  predicate Parked(r: Tcb) { r.state == Running || r.state == Suspended }

  ghost predicate Pending(s: State) {
    && NoDup(s.pending[0]) && NoDup(s.pending[1]) && NoDup(s.pending[2])
    && (forall t :: OnPending(s, t) ==> t in s.tcb && t != IDLE && Parked(s.tcb[t]))
    && (forall t :: t in s.pending[0] ==> t !in s.pending[1] && t !in s.pending[2])
    && (forall t :: t in s.pending[1] ==> t !in s.pending[2])
  }

  /** No installed vector is in two taps. */
  predicate TapsDistinct(r: Tcb) {
    forall i, j :: 0 <= i < j < 4 && Installed(r.tap[i].vec) ==> r.tap[i].vec != r.tap[j].vec
  }

  ghost predicate SlotOk(s: State, vec: nat, x: Option<Tid>) {
    x.Some? ==> x.value in s.tcb && x.value != IDLE && Holds(s.tcb[x.value], vec)
  }

  /** Each routed thread holds the vector in a tap and occupies one slot. */
  ghost predicate RouteOk(s: State, vec: nat)
    requires vec in s.routes
  {
    var r := s.routes[vec];
    && (forall i :: 0 <= i < 4 ==> SlotOk(s, vec, r[i]))
    && (forall i, j :: 0 <= i < j < 4 && r[i].Some? ==> r[i] != r[j])
  }

  /** A tap on an installed vector is routed, unless it was recorded as dropped. */
  ghost predicate TapRouted(s: State, t: Tid, vec: nat)
    requires t in s.tcb && vec in s.routes
  {
    if Holds(s.tcb[t], vec) then (t, vec) in s.dropped <==> FindSlot(s.routes[vec], Some(t)) == 4
    else (t, vec) !in s.dropped
  }

  ghost predicate Routing(s: State) {
    && (forall t :: t in s.tcb ==> TapsDistinct(s.tcb[t]))
    && (forall v :: v in s.routes ==> RouteOk(s, v))
    && (forall t, v :: t in s.tcb && v in s.routes ==> TapRouted(s, t, v))
    && (forall p :: p in s.dropped ==> p.0 in s.tcb && p.1 in s.routes)
    && (forall v :: v in s.routes ==> Installed(v))
    && 0x80 in s.routes && 0x81 in s.routes && 0x82 in s.routes
  }

  ghost predicate NoFiredSleeper(s: State) {
    forall t :: t in s.tcb && Sleeping(s.tcb[t]) ==> !AnyFired(s.tcb[t])
  }

  predicate SlotNotified(s: State, vec: nat, x: Option<Tid>) {
    x.Some? ==> x.value in s.tcb && HasFired(s.tcb[x.value], vec)
  }

  /** Everyone routed on `vec` has its fired flag set. */
  ghost predicate AllNotified(s: State, vec: nat) {
    vec in s.routes ==> forall i :: 0 <= i < 4 ==> SlotNotified(s, vec, s.routes[vec][i])
  }

  ghost predicate Notified(s: State) {
    && (s.pending[0] != [] ==> AllNotified(s, 0x80))
    && (s.pending[1] != [] ==> AllNotified(s, 0x81))
    && (s.pending[2] != [] ==> AllNotified(s, 0x82))
  }

  ghost predicate Idle(s: State) {
    && IDLE in s.tcb && Untapped(s.tcb[IDLE]) && s.injected <= 1
    && (s.tcb[IDLE].state == Queued || s.tcb[IDLE].state == Running || s.tcb[IDLE].state == Free)
    && (s.injected == 0 ==> s.active != Some(IDLE) && s.tcb[IDLE].state == Free)
    && (s.injected == 1 ==> s.active == Some(IDLE) || IDLE in s.runq)
    && (forall t :: t in s.tcb ==> t < TCB_LIMIT && (s.tcb[t].state == Free ==> t == IDLE))
  }

  ghost predicate Loaded(s: State) {
    && s.active.Some? && s.active.value in s.tcb && !OnPending(s, s.active.value)
    && (s.tcb[s.active.value].state == Running || (s.active.value == IDLE && s.tcb[IDLE].state == Free))
  }

  /** Everything except the active slot and the level-triggered flags; holds inside a step as well. */
  ghost predicate Core(s: State) { RunQueue(s) && Pending(s) && Routing(s) && NoFiredSleeper(s) && Idle(s) }

  ghost predicate Inv(s: State) { Core(s) && Notified(s) && Loaded(s) }

  // ---------------------------------------------------------------- frames

  /** Same threads, routes and tap vectors: all that routing looks at. */
  ghost predicate SameVecs(s: State, s1: State) {
    && s1.tcb.Keys == s.tcb.Keys && s1.routes == s.routes && s1.dropped == s.dropped
    && (forall t :: t in s.tcb ==> SameTapVecs(s.tcb[t], s1.tcb[t]))
  }

  predicate SameTapVecs(r: Tcb, r1: Tcb) { forall j :: 0 <= j < 4 ==> r1.tap[j].vec == r.tap[j].vec }

  lemma SameFind(r: Tcb, r1: Tcb, vec: nat)
    requires SameTapVecs(r, r1)
    ensures FindTap(r.tap, vec) == FindTap(r1.tap, vec)
  {
  }

  lemma RoutingFrame(s: State, s1: State)
    requires Routing(s) && SameVecs(s, s1)
    ensures Routing(s1)
  {
    forall t | t in s1.tcb ensures TapsDistinct(s1.tcb[t]) {
      assert TapsDistinct(s.tcb[t]) && SameTapVecs(s.tcb[t], s1.tcb[t]);
    }
    forall v | v in s1.routes ensures RouteOk(s1, v) {
      assert RouteOk(s, v);
      forall i | 0 <= i < 4 ensures SlotOk(s1, v, s1.routes[v][i]) {
        assert SlotOk(s, v, s.routes[v][i]);
        if s.routes[v][i].Some? { SameFind(s.tcb[s.routes[v][i].value], s1.tcb[s.routes[v][i].value], v); }
      }
    }
    forall t, v | t in s1.tcb && v in s1.routes ensures TapRouted(s1, t, v) {
      assert TapRouted(s, t, v);
      SameFind(s.tcb[t], s1.tcb[t], v);
    }
  }

  /** Lists, active slot and the states of all threads awake are as they were. */
  ghost predicate AwakeUntouched(s: State, s1: State) {
    && s1.tcb.Keys == s.tcb.Keys && s1.pending == s.pending && s1.active == s.active && s1.injected == s.injected
    && |s.runq| <= |s1.runq| && s1.runq[..|s.runq|] == s.runq
    && (forall u :: u in s.tcb && !Sleeping(s.tcb[u]) ==> s1.tcb[u].state == s.tcb[u].state)
    && (forall u :: u in s.tcb && Sleeping(s.tcb[u]) ==> s1.tcb[u].state != Free)
  }

  lemma PendingFrame(s: State, s1: State)
    requires Pending(s) && AwakeUntouched(s, s1)
    ensures Pending(s1)
  {
    forall t | OnPending(s1, t) ensures t in s1.tcb && t != IDLE && Parked(s1.tcb[t]) {
      assert OnPending(s, t);
    }
  }

  lemma IdleFrame(s: State, s1: State)
    requires Idle(s) && AwakeUntouched(s, s1) && SameVecs(s, s1) && RunQueue(s) && RunQueue(s1)
    ensures Idle(s1)
  {
    assert SameTapVecs(s.tcb[IDLE], s1.tcb[IDLE]);
  }

  // ---------------------------------------------------------------- firing

  lemma NotifyVecs(s: State, vec: nat, t: Tid)
    requires t in s.tcb
    ensures SameVecs(s, Notify(s, vec, t))
  {
  }

  lemma NotifyAwake(s: State, vec: nat, t: Tid)
    requires t in s.tcb
    ensures AwakeUntouched(s, Notify(s, vec, t))
  {
  }

  lemma NotifyRunQueue(s: State, vec: nat, t: Tid)
    requires RunQueue(s) && t in s.tcb
    ensures RunQueue(Notify(s, vec, t))
  {
  }

  lemma NotifySleepers(s: State, vec: nat, t: Tid)
    requires NoFiredSleeper(s) && t in s.tcb
    ensures NoFiredSleeper(Notify(s, vec, t))
  {
  }

  /** Flags are only set, never cleared, and `t`'s flag for `vec` is set. */
  lemma NotifyFlags(s: State, vec: nat, t: Tid, u: Tid, v: nat)
    requires t in s.tcb && u in s.tcb
    ensures HasFired(s.tcb[u], v) || (u == t && v == vec && Holds(s.tcb[t], vec)) ==>
              HasFired(Notify(s, vec, t).tcb[u], v)
  {
    NotifyVecs(s, vec, t);
    assert SameTapVecs(s.tcb[u], Notify(s, vec, t).tcb[u]);
    SameFind(s.tcb[u], Notify(s, vec, t).tcb[u], v);
  }

  lemma NotifyCore(s: State, vec: nat, t: Tid)
    requires Core(s) && t in s.tcb && t != IDLE
    ensures Core(Notify(s, vec, t))
  {
    NotifyVecs(s, vec, t);
    NotifyAwake(s, vec, t);
    NotifyRunQueue(s, vec, t);
    NotifySleepers(s, vec, t);
    RoutingFrame(s, Notify(s, vec, t));
    PendingFrame(s, Notify(s, vec, t));
    IdleFrame(s, Notify(s, vec, t));
  }

  /** Fired flags only go up. */
  ghost predicate FlagsKept(s: State, s1: State) {
    forall u, v :: u in s.tcb && u in s1.tcb && HasFired(s.tcb[u], v) ==> HasFired(s1.tcb[u], v)
  }

  /** All that one or more notifications may do. */
  ghost predicate Notifies(s: State, s1: State) {
    SameVecs(s, s1) && AwakeUntouched(s, s1) && FlagsKept(s, s1)
  }

  lemma NotifyNotifies(s: State, vec: nat, t: Tid)
    requires t in s.tcb
    ensures Notifies(s, Notify(s, vec, t))
    ensures Holds(s.tcb[t], vec) ==> HasFired(Notify(s, vec, t).tcb[t], vec)
  {
    NotifyVecs(s, vec, t);
    NotifyAwake(s, vec, t);
    forall u, v: nat | u in s.tcb
      ensures HasFired(s.tcb[u], v) || (u == t && v == vec && Holds(s.tcb[t], vec)) ==>
                HasFired(Notify(s, vec, t).tcb[u], v)
    {
      NotifyFlags(s, vec, t, u, v);
    }
  }

  lemma NotifiesTransitive(a: State, b: State, c: State)
    requires Notifies(a, b) && Notifies(b, c)
    ensures Notifies(a, c)
  {
    SameVecsTransitive(a, b, c);
    AwakeTransitive(a, b, c);
  }

  ghost predicate NotifiedUpTo(s1: State, vec: nat, r: Route, n: nat)
    requires n <= 4
  {
    forall i :: 0 <= i < n ==> SlotNotified(s1, vec, r[i])
  }

  lemma NotifiedOneMore(s1: State, s2: State, vec: nat, r: Route, n: nat)
    requires n < 4 && NotifiedUpTo(s1, vec, r, n) && s2.tcb.Keys == s1.tcb.Keys && FlagsKept(s1, s2)
    requires SlotNotified(s2, vec, r[n])
    ensures NotifiedUpTo(s2, vec, r, n + 1)
  {
    forall i | 0 <= i < n ensures SlotNotified(s2, vec, r[i]) {
      assert SlotNotified(s1, vec, r[i]);
    }
  }

  lemma SlotHolds(s: State, vec: nat, i: nat)
    requires Routing(s) && vec in s.routes && i < 4
    ensures SlotOk(s, vec, s.routes[vec][i])
  {
    assert RouteOk(s, vec);
  }

  lemma NotifySlotKeeps(s: State, s1: State, vec: nat, n: nat)
    requires Core(s1) && Notifies(s, s1) && vec in s.routes && n < 4
    requires NotifiedUpTo(s1, vec, s.routes[vec], n)
    ensures var s2 := NotifySlot(s1, vec, s.routes[vec][n]);
      Core(s2) && Notifies(s, s2) && NotifiedUpTo(s2, vec, s.routes[vec], n + 1)
  {
    var x := s.routes[vec][n];
    var s2 := NotifySlot(s1, vec, x);
    if x.Some? {
      SlotHolds(s1, vec, n);
      NotifyCore(s1, vec, x.value);
      NotifyNotifies(s1, vec, x.value);
    } else {
      NotifiesNothing(s1);
    }
    NotifiesTransitive(s, s1, s2);
    NotifiedOneMore(s1, s2, vec, s.routes[vec], n);
  }

  lemma NotifiesNothing(s: State)
    ensures Notifies(s, s)
  {
  }

  lemma {:induction false} NotifyAllKeeps(s: State, s1: State, vec: nat, n: nat)
    requires Core(s1) && Notifies(s, s1) && vec in s.routes && n <= 4
    requires NotifiedUpTo(s1, vec, s.routes[vec], n)
    ensures var s2 := NotifyAll(s1, vec, s.routes[vec][n..]);
      Core(s2) && Notifies(s, s2) && NotifiedUpTo(s2, vec, s.routes[vec], 4)
    decreases 4 - n
  {
    var r := s.routes[vec];
    if n < 4 {
      assert r[n..][0] == r[n] && r[n..][1..] == r[n + 1..];
      NotifySlotKeeps(s, s1, vec, n);
      NotifyAllKeeps(s, NotifySlot(s1, vec, r[n]), vec, n + 1);
    }
  }

  lemma SameVecsTransitive(a: State, b: State, c: State)
    requires SameVecs(a, b) && SameVecs(b, c)
    ensures SameVecs(a, c)
  {
    forall t | t in a.tcb ensures SameTapVecs(a.tcb[t], c.tcb[t]) {
      assert SameTapVecs(a.tcb[t], b.tcb[t]) && SameTapVecs(b.tcb[t], c.tcb[t]);
    }
  }

  lemma AwakeTransitive(a: State, b: State, c: State)
    requires AwakeUntouched(a, b) && AwakeUntouched(b, c)
    ensures AwakeUntouched(a, c)
  {
    assert c.runq[..|a.runq|] == c.runq[..|b.runq|][..|a.runq|];
  }

  /** Firing keeps the core invariant, wakes only sleepers, and leaves nobody routed unnotified. */
  lemma FireKeeps(s: State, vec: nat)
    requires Core(s)
    ensures var s1 := Fire(s, vec);
      Core(s1) && Notifies(s, s1) && AllNotified(s1, vec)
  {
    NotifiesNothing(s);
    if vec in s.routes {
      assert s.routes[vec][0..] == s.routes[vec];
      NotifyAllKeeps(s, s, vec, 0);
    }
  }
}

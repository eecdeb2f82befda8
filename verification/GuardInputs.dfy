/** Runs that lead to the calls the guards exclude. */
module GuardInputs {
  import opened Base
  import opened Threads
  import opened ThreadInvariants
  import opened ThreadSteps
  import opened TapSteps
  import opened ThreadGuards

  // ---------------------------------------------------------------- a second thread

  /** Thread 1 runs alone. */
  ghost predicate Alone(s: State) {
    && s.active == Some(1) && s.runq == [] && s.pending == [[], [], []]
    && s.tcb.Keys == {IDLE, 1} && s.tcb[1].state == Running
  }

  /** Thread 2 has just been started and runs; thread 1, with taps `tap`, is queued. */
  ghost predicate Started(s: State, tap: Taps) {
    && s.active == Some(2) && s.runq == [1] && s.pending == [[], [], []]
    && s.tcb.Keys == {IDLE, 1, 2} && s.tcb[1].state == Queued && s.tcb[1].tap == tap
    && s.tcb[2].state == Running && s.tcb[2].tap == NO_TAPS
  }

  /** Thread 1 creates thread 2 and resumes it. */
  const START: seq<Event> := [Create(true, 0), Resume(2)]

  lemma CreateSecond(s: State)
    requires Alone(s)
    ensures var s1 := Step(s, Create(true, 0));
      && Enabled(s, Create(true, 0)) && s1.routes == s.routes
      && s1.active == Some(1) && s1.runq == [] && s1.pending == s.pending && s1.tcb.Keys == {IDLE, 1, 2}
      && s1.tcb[1] == s.tcb[1] && s1.tcb[2].state == Suspended && s1.tcb[2].tap == NO_TAPS
  {
    assert LowestFree(s.tcb.Keys, 1) == 2;
    var c := CreateThread(s, true, 0);
    assert c.runq == [];
    assert Requeue(c).runq == [1];
  }

  lemma ResumeSecond(s: State)
    requires s.active == Some(1) && s.runq == [] && s.pending == [[], [], []] && s.tcb.Keys == {IDLE, 1, 2}
    requires s.tcb[1].state == Running && s.tcb[2].state == Suspended && s.tcb[2].tap == NO_TAPS
    ensures Enabled(s, Resume(2)) && Started(Step(s, Resume(2)), s.tcb[1].tap) && Step(s, Resume(2)).routes == s.routes
  {
    assert Target(s, 2) == Some(2);
    var r := ResumeThread(s, 2);
    assert r.runq == [2] && r.tcb == s.tcb[2 := s.tcb[2].(state := Queued)];
    var q := Requeue(r);
    assert q.runq == [2, 1] && q.tcb == r.tcb[1 := r.tcb[1].(state := Queued)];
    assert [2, 1][1..] == [1];
  }

  lemma StartSecond(s: State)
    requires Alone(s)
    ensures Legal(s, START) && Started(Run(s, START), s.tcb[1].tap) && Run(s, START).routes == s.routes
  {
    CreateSecond(s);
    ResumeSecond(Step(s, Create(true, 0)));
    assert START == [Create(true, 0), Resume(2)];
    LegalTwo(s, Create(true, 0), Resume(2));
  }

  lemma LegalTwo(s: State, a: Event, b: Event)
    requires Enabled(s, a) && Enabled(Step(s, a), b)
    ensures Legal(s, [a, b]) && Run(s, [a, b]) == Step(Step(s, a), b)
  {
    LegalOne(Step(s, a), b);
    assert [a, b][1..] == [b];
    assert Run(s, [a, b]) == Run(Step(s, a), [b]);
  }

  lemma {:induction false} RunAppend(s: State, es: seq<Event>, fs: seq<Event>)
    requires Legal(s, es) && Legal(Run(s, es), fs)
    ensures Legal(s, es + fs) && Run(s, es + fs) == Run(Run(s, es), fs)
    decreases |es|
  {
    if es == [] {
      assert es + fs == fs;
    } else {
      assert (es + fs)[1..] == es[1..] + fs;
      RunAppend(Step(s, es[0]), es[1..], fs);
    }
  }

  lemma LegalOne(s: State, a: Event)
    requires Enabled(s, a)
    ensures Legal(s, [a]) && Run(s, [a]) == Step(s, a)
  {
    assert [a][1..] == [];
  }

  // ---------------------------------------------------------------- resume

  lemma NobodyRouted(s: State, vec: nat)
    requires vec in s.routes && s.routes[vec] == [None, None, None, None]
    ensures Fire(s, vec) == s
  {
    NotifyNobody(s, vec, s.routes[vec]);
  }

  lemma {:induction false} NotifyNobody(s: State, vec: nat, slots: seq<Option<Tid>>)
    requires forall i :: 0 <= i < |slots| ==> slots[i].None?
    ensures NotifyAll(s, vec, slots) == s
    decreases |slots|
  {
    if slots != [] { NotifyNobody(s, vec, slots[1..]); }
  }

  lemma ExitSecond(s: State, tap: Taps)
    requires Started(s, tap) && FAULT_VECTOR + ZOMBIE in s.routes
    requires s.routes[FAULT_VECTOR + ZOMBIE] == [None, None, None, None]
    ensures Enabled(s, Exit) && Step(s, Exit).active == Some(1) && ResumesListed(Step(s, Exit), 2)
  {
    var e := Enqueue(WithState(s, 2, Suspended), ZOMBIE, 2);
    NobodyRouted(e, FAULT_VECTOR + ZOMBIE);
    assert ExitThread(s) == e && e.pending[ZOMBIE] == [2];
    var s1 := Step(s, Exit);
    assert s1.pending[ZOMBIE] == [2] && s1.tcb[2].state == Suspended && s1.tcb.Keys == s.tcb.Keys;
    assert Target(s1, 2) == Some(2);
  }

  /** Thread 1 starts thread 2, which exits; thread 1 resumes it, and the invariant is lost. */
  lemma ResumeInput()
    ensures var s := Run(Initial(0), START + [Exit]);
      && Legal(Initial(0), START + [Exit]) && s.active == Some(1)
      && ResumesListed(s, 2) && Inv(s) && !Inv(Step(s, Resume(2)))
  {
    var s0 := Initial(0);
    StartSecond(s0);
    var s2 := Run(s0, START);
    ExitSecond(s2, NO_TAPS);
    LegalOne(s2, Exit);
    RunAppend(s0, START, [Exit]);
    InitialInv(0);
    RunKeeps(s0, START + [Exit]);
    ResumeGuardExact(Run(s0, START + [Exit]), 2);
  }

  // ---------------------------------------------------------------- reap

  /** A first tap on `vec`. */
  ghost predicate Tapped(s: State, vec: nat) {
    && Alone(s) && s.tcb[1].tap == NO_TAPS[0 := Tap(vec, false)]
    && vec in s.routes && s.routes[vec] == [Some(1), None, None, None]
    && FAULT_VECTOR + ZOMBIE in s.routes
  }

  lemma FirstTap(vec: nat)
    requires vec == 0x80 || vec == 0x90
    ensures Enabled(Initial(0), SetTap(0, vec)) && Tapped(Step(Initial(0), SetTap(0, vec)), vec)
  {
    var s := Initial(0);
    assert Installed(vec) && vec in s.routes && Installed(0x82);
    assert DropOldTap(s, 1, 0) == s;
    assert Step(s, SetTap(0, vec)) == Retapped(s, 1, 0, vec);
  }

  lemma PauseFirst(s: State, tap: Taps)
    requires Started(s, tap)
    ensures var s1 := Step(s, Pause(1));
      && Enabled(s, Pause(1)) && s1.active == Some(2) && s1.tcb.Keys == s.tcb.Keys
      && s1.tcb[1].state == Suspended && s1.routes == s.routes && Lookup(s1, 1) == Some(1)
  {
    assert Target(s, 1) == Some(1);
    var p := PauseThread(s, 1);
    assert p.runq == [] && p.tcb[2].state == Running;
    assert Requeue(p).runq == [2];
  }

  const TO_REAP: seq<Event> := [SetTap(0, 0x90)] + START + [Pause(1)]

  lemma ReapRun()
    ensures var s := Run(Initial(0), TO_REAP);
      && Legal(Initial(0), TO_REAP) && s.active == Some(2) && Lookup(s, 1) == Some(1)
      && s.tcb[1].state == Suspended && 0x90 in s.routes && s.routes[0x90][0] == Some(1)
  {
    var s0 := Initial(0);
    FirstTap(0x90);
    LegalOne(s0, SetTap(0, 0x90));
    var s1 := Step(s0, SetTap(0, 0x90));
    StartSecond(s1);
    RunAppend(s0, [SetTap(0, 0x90)], START);
    var s2 := Run(s1, START);
    PauseFirst(s2, s1.tcb[1].tap);
    LegalOne(s2, Pause(1));
    RunAppend(s0, [SetTap(0, 0x90)] + START, [Pause(1)]);
  }

  lemma ReapRoutedInput(s: State)
    requires Inv(s) && Lookup(s, 1) == Some(1) && s.tcb[1].state == Suspended
    requires 0x90 in s.routes && s.routes[0x90][0] == Some(1)
    ensures Routed(s, 1) && !Inv(ReapThread(s, 1))
  {
    assert Routed(s, 1);
    ReapGuardExact(s, 1);
  }

  /** Thread 1 taps a vector and starts thread 2, which pauses and reaps thread 1 while its route stands. */
  lemma ReapInput()
    ensures var s := Run(Initial(0), TO_REAP);
      && Legal(Initial(0), TO_REAP) && s.active == Some(2) && Lookup(s, 1) == Some(1)
      && s.tcb[1].state == Suspended && Routed(s, 1) && Inv(s) && !Inv(ReapThread(s, 1))
  {
    ReapRun();
    RunInv(TO_REAP);
    ReapRoutedInput(Run(Initial(0), TO_REAP));
  }

  lemma RunInv(es: seq<Event>)
    requires Legal(Initial(0), es)
    ensures Inv(Run(Initial(0), es))
  {
    InitialInv(0);
    RunKeeps(Initial(0), es);
  }

  // ---------------------------------------------------------------- set_tap

  /** A second tap on the same vector puts the thread into two slots of the route. */
  lemma SetTapInput()
    ensures var s := Run(Initial(0), [SetTap(0, 0x90)]);
      && Legal(Initial(0), [SetTap(0, 0x90)]) && s.active == Some(1)
      && Step(s, SetTap(1, 0x90)).routes[0x90] == [Some(1), Some(1), None, None]
  {
    FirstTap(0x90);
    LegalOne(Initial(0), SetTap(0, 0x90));
    var s := Step(Initial(0), SetTap(0, 0x90));
    assert DropOldTap(s, 1, 1) == s;
    assert Step(s, SetTap(1, 0x90)) == Retapped(s, 1, 1, 0x90);
  }

  lemma FaultSecond(s: State, tap: Taps)
    requires Started(s, tap) && tap == NO_TAPS[0 := Tap(0x80, false)]
    requires 0x80 in s.routes && s.routes[0x80] == [Some(1), None, None, None]
    ensures var s1 := Step(s, Interrupt(14));
      && Enabled(s, Interrupt(14)) && s1.active == Some(1) && 1 in s1.tcb && s1.tcb[1].tap[0] == Tap(0x80, true)
  {
    var e := Enqueue(Unload(s), PAGEFAULT, 2);
    var f := Notify(e, 0x80, 1);
    NotifyNobody(f, 0x80, e.routes[0x80][1..]);
    assert Fire(e, 0x80) == f;
  }

  /** Thread 1 taps the page-fault vector, thread 2 faults, and thread 1 replaces the tap that fired. */
  lemma StaleWordInput()
    ensures var es := [SetTap(0, 0x80)] + START + [Interrupt(14)];
      var s := Run(Initial(0), es);
      Legal(Initial(0), es) && s.active == Some(1) && Enabled(s, SetTap(0, 0)) && PassesStaleWord(s, 0)
  {
    var s0 := Initial(0);
    FirstTap(0x80);
    LegalOne(s0, SetTap(0, 0x80));
    var s1 := Step(s0, SetTap(0, 0x80));
    FaultedRun(s1);
    RunAppend(s0, [SetTap(0, 0x80)], START + [Interrupt(14)]);
    assert [SetTap(0, 0x80)] + (START + [Interrupt(14)]) == [SetTap(0, 0x80)] + START + [Interrupt(14)];
    FiredPasses(Run(s1, START + [Interrupt(14)]));
  }

  lemma FaultedRun(s: State)
    requires Tapped(s, 0x80)
    ensures var s1 := Run(s, START + [Interrupt(14)]);
      && Legal(s, START + [Interrupt(14)])
      && s1.active == Some(1) && 1 in s1.tcb && s1.tcb[1].tap[0] == Tap(0x80, true)
  {
    StartSecond(s);
    var s2 := Run(s, START);
    FaultSecond(s2, s.tcb[1].tap);
    LegalOne(s2, Interrupt(14));
    RunAppend(s, START, [Interrupt(14)]);
  }

  lemma FiredPasses(s: State)
    requires s.active == Some(1) && 1 in s.tcb && s.tcb[1].tap[0] == Tap(0x80, true)
    ensures Enabled(s, SetTap(0, 0)) && PassesStaleWord(s, 0)
  {
  }
}

/** `pmm_alloc` under its spinlock, on any number of processors, one memory access a step. */
module Spinlock {
  const PAGE: nat := 0x1000

  /** Where a processor is: outside; at the plain read of the lock byte; at the compare-exchange with
      al = 0; at the read of the bump pointer; at its write; at the release. */
  datatype Pc = Outside | Spin | Exchange | Load | Store(seen: nat) | Release

  /** `given` records the non-null results in the order they were produced. */
  datatype State = State(lock: nat, base: nat, limit: nat, offset: nat, procs: seq<Pc>, given: seq<nat>)

  /** The next step of processor `p`. */
  function Step(s: State, p: nat): State
    requires p < |s.procs|
  {
    match s.procs[p]
    case Outside => s.(procs := s.procs[p := Spin])
    case Spin => if s.lock != 0 then s else s.(procs := s.procs[p := Exchange])
    case Exchange =>
      if s.lock == 0 then s.(lock := 1, procs := s.procs[p := Load]) else s.(procs := s.procs[p := Spin])
    case Load =>
      if s.base == s.limit then s.(procs := s.procs[p := Release]) else s.(procs := s.procs[p := Store(s.base)])
    case Store(b) =>
      s.(base := b + PAGE, given := s.given + [b + s.offset], procs := s.procs[p := Release])
    case Release => s.(lock := 0, procs := s.procs[p := Outside])
  }

  predicate Inside(pc: Pc) { pc.Load? || pc.Store? || pc.Release? }

  function Run(s: State, schedule: seq<nat>): State
    requires forall i :: 0 <= i < |schedule| ==> schedule[i] < |s.procs|
    ensures |Run(s, schedule).procs| == |s.procs|
    decreases |schedule|
  {
    if schedule == [] then s else Run(Step(s, schedule[0]), schedule[1..])
  }

  /** All processors outside, nothing given out yet. */
  predicate Initial(s: State) {
    s.lock == 0 && s.given == [] && forall p :: 0 <= p < |s.procs| ==> s.procs[p] == Outside
  }

  predicate Exclusive(s: State) {
    forall p, q :: 0 <= p < q < |s.procs| ==> !(Inside(s.procs[p]) && Inside(s.procs[q]))
  }

  predicate LockHeld(s: State) {
    (s.lock == 0 || s.lock == 1) && forall p :: 0 <= p < |s.procs| && Inside(s.procs[p]) ==> s.lock == 1
  }

  /** A processor about to write the bump pointer has read its current value. */
  predicate Fresh(s: State) {
    forall p :: 0 <= p < |s.procs| && s.procs[p].Store? ==> s.procs[p].seen == s.base && s.base != s.limit
  }

  /** The results so far are consecutive pages ending at the bump pointer. */
  predicate Consecutive(s: State, start: nat) {
    && s.base == start + |s.given| * PAGE
    && forall i :: 0 <= i < |s.given| ==> s.given[i] == start + s.offset + i * PAGE
  }

  /** A pool that is a whole number of pages is never overrun. */
  predicate Bounded(s: State, start: nat) {
    start <= s.limit && (s.limit - start) % PAGE == 0 ==> s.base <= s.limit
  }

  predicate Inv(s: State, start: nat) {
    Exclusive(s) && LockHeld(s) && Fresh(s) && Consecutive(s, start) && Bounded(s, start)
  }

  lemma StepKeeps(s: State, p: nat, start: nat)
    requires Inv(s, start) && p < |s.procs|
    ensures Inv(Step(s, p), start)
  {
  }

  lemma {:induction false} RunKeeps(s: State, schedule: seq<nat>, start: nat)
    requires Inv(s, start) && forall i :: 0 <= i < |schedule| ==> schedule[i] < |s.procs|
    ensures Inv(Run(s, schedule), start)
    ensures Run(s, schedule).limit == s.limit && Run(s, schedule).offset == s.offset
    decreases |schedule|
  {
    if schedule != [] {
      StepKeeps(s, schedule[0], start);
      RunKeeps(Step(s, schedule[0]), schedule[1..], start);
    }
  }

  /** For every interleaving: at most one processor between acquire and release, and the non-null
      results form one contiguous ascending range of distinct pages. */
  lemma MutualExclusion(s: State, schedule: seq<nat>)
    requires Initial(s) && forall i :: 0 <= i < |schedule| ==> schedule[i] < |s.procs|
    ensures var t := Run(s, schedule);
      && (forall p, q :: 0 <= p < q < |t.procs| ==> !(Inside(t.procs[p]) && Inside(t.procs[q])))
      && (forall i :: 0 <= i < |t.given| ==> t.given[i] == s.base + s.offset + i * PAGE)
      && (forall i, j :: 0 <= i < j < |t.given| ==> t.given[i] < t.given[j])
      && (s.base <= s.limit && (s.limit - s.base) % PAGE == 0 ==> s.base + |t.given| * PAGE <= s.limit)
  {
    RunKeeps(s, schedule, s.base);
  }

  // ---------------------------------------------------------------- the end of the pool

  predicate Schedule(s: State, schedule: seq<nat>) { forall i :: 0 <= i < |schedule| ==> schedule[i] < |s.procs| }

  lemma {:induction false} RunAppend(s: State, a: seq<nat>, b: seq<nat>)
    requires Schedule(s, a) && Schedule(s, b)
    ensures Run(s, a + b) == Run(Run(s, a), b)
    decreases |a|
  {
    if a == [] {
      assert a + b == b;
    } else {
      assert (a + b)[1..] == a[1..] + b;
      RunAppend(Step(s, a[0]), a[1..], b);
    }
  }

  /** Processor 0 alone, six steps: one call of `pmm_alloc`. */
  const LAP: seq<nat> := [0, 0, 0, 0, 0, 0]

  /** Processor 0 is outside and nobody holds the lock. */
  predicate Ready(s: State) { s.lock == 0 && |s.procs| > 0 && s.procs[0] == Outside }

  lemma LapAllocates(s: State)
    requires Ready(s) && s.base != s.limit
    ensures var t := Run(s, LAP); Ready(t) && t.base == s.base + PAGE && t.limit == s.limit && |t.procs| == |s.procs|
  {
    var s3 := Step(Step(Step(s, 0), 0), 0);
    assert s3.procs[0] == Load && s3.lock == 1 && s3.base == s.base && s3.limit == s.limit;
    var s6 := Step(Step(Step(s3, 0), 0), 0);
    assert Ready(s6) && s6.base == s.base + PAGE;
    ThreeSteps(s);
    ThreeSteps(s3);
    assert LAP == [0, 0, 0] + [0, 0, 0];
    RunAppend(s, [0, 0, 0], [0, 0, 0]);
  }

  lemma ThreeSteps(s: State)
    requires |s.procs| > 0
    ensures Run(s, [0, 0, 0]) == Step(Step(Step(s, 0), 0), 0)
  {
    assert [0, 0, 0][1..] == [0, 0] && [0, 0][1..] == [0];
    assert Run(Step(s, 0), [0, 0]) == Run(Step(Step(s, 0), 0), [0]);
  }

  function Laps(n: nat): (schedule: seq<nat>)
    ensures forall i :: 0 <= i < |schedule| ==> schedule[i] == 0
  {
    if n == 0 then [] else LAP + Laps(n - 1)
  }

  /** From a pointer that can never meet the limit, `n` calls move it `n` pages on. */
  lemma {:induction false} LapsPassLimit(s: State, n: nat)
    requires Ready(s) && (s.base > s.limit || (s.limit - s.base) % PAGE != 0)
    ensures Run(s, Laps(n)).base == s.base + n * PAGE
    decreases n
  {
    if n > 0 {
      LapAllocates(s);
      RunAppend(s, LAP, Laps(n - 1));
      LapsPassLimit(Run(s, LAP), n - 1);
    }
  }

  /** In no interleaving does the bump pointer pass its limit, exactly when it starts at or below the limit
      and a whole number of pages away from it: the test is for equality. */
  lemma NeverPassesLimit(s: State)
    requires Initial(s) && |s.procs| > 0
    ensures (forall schedule :: Schedule(s, schedule) ==> Run(s, schedule).base <= s.limit) <==>
      s.base <= s.limit && (s.limit - s.base) % PAGE == 0
  {
    if s.base <= s.limit && (s.limit - s.base) % PAGE == 0 {
      forall schedule | Schedule(s, schedule) ensures Run(s, schedule).base <= s.limit {
        RunKeeps(s, schedule, s.base);
      }
    } else {
      LapsPassLimit(s, s.limit + 1);
      assert Schedule(s, Laps(s.limit + 1));
    }
  }
}

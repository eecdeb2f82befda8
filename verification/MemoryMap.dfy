/** `pmm_init`: splitting the boot memory map at the cutoff between kernel and client memory. */
module MemoryMap {
  const CHUNK: nat := 0x80_0000

  /** Entries the arrays `pmm_map_low_space[7]` and `pmm_map_high_space[17]` have room for. */
  const LOW_CAPACITY: nat := 3
  const HIGH_CAPACITY: nat := 8

  /** Entries the loops of `pmm_init` are bounded by. */
  const LOW_BOUND: nat := 6
  const HIGH_BOUND: nat := 16

  datatype Region = Region(base: nat, size: nat)

  function Limit(r: Region): nat { r.base + r.size }

  /** Sorted and disjoint, as the boot loader leaves it. */
  predicate Sorted(m: seq<Region>) {
    forall i, j :: 0 <= i < j < |m| ==> Limit(m[i]) <= m[j].base
  }

  function Total(m: seq<Region>): nat {
    if m == [] then 0 else Total(m[..|m| - 1]) + m[|m| - 1].size
  }

  /** `init_mmap`: the running sum. */
  method SumTotal(m: seq<Region>) returns (total: nat)
    ensures total == Total(m)
  {
    total := 0;
    for i := 0 to |m|
      invariant total == Total(m[..i])
    {
      assert m[..i + 1][..i] == m[..i];
      total := total + m[i].size;
    }
    assert m[..|m|] == m;
  }

  // ---------------------------------------------------------------- the cutoff

  /** `-(-(total / 256) & (-1 << 23))` in 64-bit arithmetic. */
  function CutoffBits(total: bv64): bv64 { -(-(total / 256) & 0xFFFF_FFFF_FF80_0000) }

  function Cutoff(total: nat): nat { (total / 256 + CHUNK - 1) / CHUNK * CHUNK }

  /** The cutoff is the least multiple of 8 MiB at or above a 256th of all memory. */
  lemma CutoffIsLeast(total: nat)
    ensures var c := Cutoff(total);
      c % CHUNK == 0 && c >= total / 256 && forall d :: d % CHUNK == 0 && d >= total / 256 ==> d >= c
  {
  }

  lemma CutoffBelowTotal(total: nat)
    requires total > CHUNK
    ensures Cutoff(total) < total
  {
  }

  /** The bit expression rounds up to a multiple of 2^23 without skipping one. */
  lemma CutoffBitsRoundUp(total: bv64)
    ensures CutoffBits(total) & 0x7F_FFFF == 0 && CutoffBits(total) - total / 256 < 0x80_0000
  {
  }

  const TWO64: nat := 0x1_0000_0000_0000_0000

  function Neg64(x: nat): nat
    requires x < TWO64
  {
    (TWO64 - x) % TWO64
  }

  /** `x & (-1 << 23)`: the low 23 bits cleared. */
  function ClearLow(x: nat): nat { x - x % CHUNK }

  /** For every 64-bit total the expression of the source is the cutoff. */
  lemma CutoffExpression(total: nat)
    requires total < TWO64
    ensures Neg64(ClearLow(Neg64(total / 256))) == Cutoff(total)
  {
    RoundUpByNegation(total / 256);
  }

  lemma RoundUpByNegation(q: nat)
    requires q < 0x100_0000_0000_0000
    ensures Neg64(ClearLow(Neg64(q))) == (q + CHUNK - 1) / CHUNK * CHUNK
  {
    if q > 0 {
      var k := (q + CHUNK - 1) / CHUNK;
      assert k * CHUNK - CHUNK < q <= k * CHUNK;
      assert Neg64(q) == (0x200_0000_0000 - k) * CHUNK + (k * CHUNK - q);
      assert ClearLow(Neg64(q)) == (0x200_0000_0000 - k) * CHUNK;
    }
  }

  // ---------------------------------------------------------------- what the split means

  predicate In(r: Region, x: nat) { r.base <= x < Limit(r) }

  ghost predicate Covers(m: seq<Region>, x: nat) { exists i :: 0 <= i < |m| && In(m[i], x) }

  predicate IsLowCount(m: seq<Region>, c: nat, k: nat) {
    k <= |m| && (forall i :: 0 <= i < k ==> m[i].base < c) && (k < |m| ==> m[k].base >= c)
  }

  /** Number of leading entries that start below `c`. */
  function LowCount(m: seq<Region>, c: nat): (k: nat)
    ensures IsLowCount(m, c, k)
  {
    if m == [] || m[0].base >= c then 0 else 1 + LowCount(m[1..], c)
  }

  function Below(r: Region, c: nat): Region {
    if Limit(r) <= c then r else if r.base < c then Region(r.base, c - r.base) else Region(r.base, 0)
  }

  function Above(r: Region, c: nat): Region {
    if r.base >= c then r else if Limit(r) > c then Region(c, Limit(r) - c) else Region(c, 0)
  }

  function LowPart(m: seq<Region>, c: nat): (l: seq<Region>)
    ensures |l| == LowCount(m, c) && forall i :: 0 <= i < |l| ==> l[i] == Below(m[i], c)
  {
    seq(LowCount(m, c), i requires 0 <= i < LowCount(m, c) => Below(m[i], c))
  }

  predicate Straddles(m: seq<Region>, c: nat) { LowCount(m, c) > 0 && Limit(m[LowCount(m, c) - 1]) > c }

  /** Index of the first entry with something at or above the cutoff. */
  function HighStart(m: seq<Region>, c: nat): (j: nat)
    ensures j <= |m|
  {
    if Straddles(m, c) then LowCount(m, c) - 1 else LowCount(m, c)
  }

  /** What lies at or above the cutoff in the entries from `j` on. */
  function AboveFrom(m: seq<Region>, c: nat, j: nat): (h: seq<Region>)
    requires j <= |m|
    ensures |h| == |m| - j && forall i :: 0 <= i < |h| ==> h[i] == Above(m[j + i], c)
  {
    seq(|m| - j, i requires 0 <= i < |m| - j => Above(m[j + i], c))
  }

  /** The entry straddling the cutoff, if any, leads the high part. */
  function HighPart(m: seq<Region>, c: nat): seq<Region> { AboveFrom(m, c, HighStart(m, c)) }

  lemma BeforeHighStart(m: seq<Region>, c: nat)
    requires Sorted(m)
    ensures forall n :: 0 <= n < HighStart(m, c) ==> Limit(m[n]) <= c
  {
  }

  lemma HighStarts(m: seq<Region>, c: nat, i: nat)
    requires Sorted(m) && LowCount(m, c) <= i < |m|
    ensures m[i].base >= c
  {
  }

  /** The two parts lie on their own sides of the cutoff. */
  lemma Sides(m: seq<Region>, c: nat)
    ensures forall i :: 0 <= i < |LowPart(m, c)| ==> Limit(LowPart(m, c)[i]) <= c
    ensures forall i :: 0 <= i < |HighPart(m, c)| ==> HighPart(m, c)[i].base >= c
  {
  }

  /** Each address of the map is in exactly the part on its side; no address is lost or added. */
  lemma Coverage(m: seq<Region>, c: nat, x: nat)
    requires Sorted(m)
    ensures Covers(LowPart(m, c), x) <==> Covers(m, x) && x < c
    ensures Covers(HighPart(m, c), x) <==> Covers(m, x) && x >= c
  {
    LowCoverage(m, c, x);
    BeforeHighStart(m, c);
    HighCoverage(m, c, HighStart(m, c), x);
  }

  lemma LowCoverage(m: seq<Region>, c: nat, x: nat)
    requires Sorted(m)
    ensures Covers(LowPart(m, c), x) <==> Covers(m, x) && x < c
  {
  }

  lemma HighCoverage(m: seq<Region>, c: nat, j: nat, x: nat)
    requires j <= |m| && forall n :: 0 <= n < j ==> Limit(m[n]) <= c
    ensures Covers(AboveFrom(m, c, j), x) <==> Covers(m, x) && x >= c
  {
    var h := AboveFrom(m, c, j);
    if Covers(h, x) {
      var i :| 0 <= i < |h| && In(h[i], x);
      assert In(m[j + i], x);
    }
    if Covers(m, x) && x >= c {
      var i :| 0 <= i < |m| && In(m[i], x);
      assert In(h[i - j], x);
    }
  }

  lemma {:induction false} TotalConcat(a: seq<Region>, b: seq<Region>)
    ensures Total(a + b) == Total(a) + Total(b)
  {
    if b == [] {
      assert a + b == a;
    } else {
      assert (a + b)[..|a + b| - 1] == a + b[..|b| - 1];
      TotalConcat(a, b[..|b| - 1]);
    }
  }

  lemma {:induction false} TotalBounded(m: seq<Region>, c: nat)
    requires Sorted(m) && forall i :: 0 <= i < |m| ==> Limit(m[i]) <= c
    ensures Total(m) <= c
  {
    if m != [] {
      var last := m[|m| - 1];
      TotalBounded(m[..|m| - 1], last.base);
    }
  }

  function BelowAll(m: seq<Region>, c: nat): (s: seq<Region>)
    ensures |s| == |m| && forall i :: 0 <= i < |m| ==> s[i] == Below(m[i], c)
  {
    seq(|m|, i requires 0 <= i < |m| => Below(m[i], c))
  }

  lemma {:induction false} TotalSplit(m: seq<Region>, c: nat)
    ensures Total(m) == Total(BelowAll(m, c)) + Total(AboveFrom(m, c, 0))
  {
    if m != [] {
      var n := |m| - 1;
      TotalSplit(m[..n], c);
      assert BelowAll(m, c)[..n] == BelowAll(m[..n], c);
      assert AboveFrom(m, c, 0)[..n] == AboveFrom(m[..n], c, 0);
    }
  }

  lemma {:induction false} TotalZero(a: seq<Region>)
    requires forall i :: 0 <= i < |a| ==> a[i].size == 0
    ensures Total(a) == 0
  {
    if a != [] { TotalZero(a[..|a| - 1]); }
  }

  lemma LowTotal(m: seq<Region>, c: nat)
    requires Sorted(m)
    ensures Total(LowPart(m, c)) == Total(BelowAll(m, c))
  {
    var all, l := BelowAll(m, c), LowPart(m, c);
    forall i | LowCount(m, c) <= i < |m| ensures all[i].size == 0 { HighStarts(m, c, i); }
    assert all == l + all[|l|..];
    TotalConcat(l, all[|l|..]);
    TotalZero(all[|l|..]);
  }

  lemma HighTotal(m: seq<Region>, c: nat, j: nat)
    requires j <= |m| && forall n :: 0 <= n < j ==> Limit(m[n]) <= c
    ensures Total(AboveFrom(m, c, j)) == Total(AboveFrom(m, c, 0))
  {
    var all := AboveFrom(m, c, 0);
    var lead := all[..j];
    forall i | 0 <= i < |lead| ensures lead[i].size == 0 { assert lead[i] == Above(m[i], c); }
    TotalZero(lead);
    TotalConcat(lead, AboveFrom(m, c, j));
    assert all == lead + AboveFrom(m, c, j);
  }

  /** No byte is lost or counted twice. */
  lemma SizesAddUp(m: seq<Region>, c: nat)
    requires Sorted(m)
    ensures Total(LowPart(m, c)) + Total(HighPart(m, c)) == Total(m)
  {
    LowTotal(m, c);
    BeforeHighStart(m, c);
    HighTotal(m, c, HighStart(m, c));
    TotalSplit(m, c);
  }

  // ---------------------------------------------------------------- overruns

  function Min(a: nat, b: nat): nat { if a <= b then a else b }

  /** Entries the loops write. */
  function LowWrites(m: seq<Region>, c: nat): nat { Min(LowCount(m, c), LOW_BOUND) }

  function HighWrites(m: seq<Region>, c: nat): nat { Min(|m| - Min(HighStart(m, c), LOW_BOUND), HIGH_BOUND) }

  /** The second loop starts behind what the first one left. */
  lemma NextStart(m: seq<Region>, c: nat, i: nat, j: nat)
    requires var k := LowCount(m, c);
      i == (if 0 < k <= LOW_BOUND && Limit(m[k - 1]) > c then 1 else 0) && j == LowWrites(m, c) - i
    ensures i + j <= |m| && j == Min(HighStart(m, c), LOW_BOUND)
    ensures LowCount(m, c) <= LOW_BOUND ==> i == (if Straddles(m, c) then 1 else 0) && j == HighStart(m, c)
  {
  }

  /** Behind an entry across the cutoff, the high part is the map itself. */
  lemma HighEntries(m: seq<Region>, c: nat)
    requires Sorted(m)
    ensures var j, h := HighStart(m, c), HighPart(m, c);
      |h| == |m| - j && forall n :: (if Straddles(m, c) then 1 else 0) <= n < |h| ==> h[n] == m[j + n]
  {
    var j, h := HighStart(m, c), HighPart(m, c);
    forall n | (if Straddles(m, c) then 1 else 0) <= n < |h| ensures h[n] == m[j + n] { HighStarts(m, c, j + n); }
  }

  /** The entry has something at or above `c`. */
  predicate Reaches(r: Region, c: nat) { r.base >= c || Limit(r) > c }

  lemma StartsReach(m: seq<Region>, c: nat, i: nat)
    requires Sorted(m) && i < |m|
    ensures Reaches(m[i], c) <==> HighStart(m, c) <= i
  {
    BeforeHighStart(m, c);
    if HighStart(m, c) <= i && LowCount(m, c) <= i { HighStarts(m, c, i); }
  }

  /** The loops write past the three low entries exactly when the fourth entry of the map starts below the
      cutoff, and past the eight high entries exactly when the ninth entry from the end reaches it or the
      map has more than fourteen entries. */
  lemma OverrunExactly(m: seq<Region>, c: nat)
    requires Sorted(m)
    ensures LowWrites(m, c) > LOW_CAPACITY <==> |m| > 3 && m[3].base < c
    ensures HighWrites(m, c) > HIGH_CAPACITY <==> |m| > 8 && (Reaches(m[|m| - 9], c) || |m| > 14)
  {
    if |m| > 3 && LowCount(m, c) <= 3 { HighStarts(m, c, 3); }
    if |m| > 8 { StartsReach(m, c, |m| - 9); }
  }

  /** Four small regions at the bottom of 4 GiB: an ordinary map that overruns the low array. */
  lemma OverrunInput()
    ensures var m := [Region(0, 0x1000), Region(0x2000, 0x1000), Region(0x4000, 0x1000), Region(0x6000, 0x1000),
                      Region(0x10_0000, 0x1_0000_0000)];
      Sorted(m) && Total(m) > CHUNK && LowWrites(m, Cutoff(Total(m))) > LOW_CAPACITY
  {
    var m := [Region(0, 0x1000), Region(0x2000, 0x1000), Region(0x4000, 0x1000), Region(0x6000, 0x1000),
              Region(0x10_0000, 0x1_0000_0000)];
    TotalConcat(m[..4], [m[4]]);
    assert m == m[..4] + [m[4]] && Total([m[4]]) == Total([]) + 0x1_0000_0000;
    OverrunExactly(m, Cutoff(Total(m)));
  }

  // ---------------------------------------------------------------- the maps in place

  /** `low` and `high` are the two arrays with the memory behind them, up to where the loops can reach:
      the arrays themselves end at LOW_CAPACITY and HIGH_CAPACITY. */
  class Maps {
    var cutoff: nat
    var lowCount: nat
    var highCount: nat
    const low: array<Region>
    const high: array<Region>

    /** How many leading entries have been written. */
    ghost var lowTop: nat
    ghost var highTop: nat

    ghost predicate Valid()
      reads this
    {
      low != high && low.Length >= LOW_BOUND && high.Length > HIGH_BOUND && highCount <= HIGH_BOUND
    }

    /** Static storage, zero-filled; what lies behind it is `lowRest` and `highRest`. */
    constructor (lowRest: seq<Region>, highRest: seq<Region>)
      requires |lowRest| >= LOW_BOUND - LOW_CAPACITY && |highRest| > HIGH_BOUND - HIGH_CAPACITY
      ensures Valid() && fresh(low) && fresh(high) && lowCount == highCount == lowTop == highTop == 0
      ensures low[..] == seq(LOW_CAPACITY, _ => Region(0, 0)) + lowRest
      ensures high[..] == seq(HIGH_CAPACITY, _ => Region(0, 0)) + highRest
    {
      var l, h := seq(LOW_CAPACITY, _ => Region(0, 0)) + lowRest, seq(HIGH_CAPACITY, _ => Region(0, 0)) + highRest;
      cutoff, lowCount, highCount, lowTop, highTop := 0, 0, 0, 0, 0;
      low := new Region[|l|](i requires 0 <= i < |l| => l[i]);
      high := new Region[|h|](i requires 0 <= i < |h| => h[i]);
    }

    /** The loop that fills the low map; it always leaves by a break. `k` entries start below the cutoff,
        but no more than six are looked at. Returns the indices the next loop starts from. */
    method FillLow(m: seq<Region>, ghost k: nat) returns (i: nat, j: nat)
      requires Valid() && lowTop == highTop == 0 && Sorted(m) && IsLowCount(m, cutoff, k)
      requires exists n :: 0 <= n < |m| && Limit(m[n]) > cutoff
      modifies this`lowCount, this`lowTop, this`highTop, low, high
      ensures lowCount == lowTop == Min(k, LOW_BOUND)
      ensures forall n :: 0 <= n < lowTop ==> low[n] == Below(m[n], cutoff)
      ensures forall n :: lowTop <= n < low.Length ==> low[n] == old(low[n])
      ensures i == highTop == (if 0 < k <= LOW_BOUND && Limit(m[k - 1]) > cutoff then 1 else 0) && j == lowCount - i
      ensures i == 1 ==> high[0] == Above(m[j], cutoff)
      ensures forall n :: i <= n < high.Length ==> high[n] == old(high[n])
    {
      i, j := 0, 0;
      ghost var broke := false;
      while i < |m|
        invariant 0 <= i <= Min(k, LOW_BOUND) && j == 0 && !broke && lowTop == i && highTop == 0
        invariant forall n :: 0 <= n < i ==> Limit(m[n]) <= cutoff && low[n] == m[n]
        invariant forall n :: i <= n < low.Length ==> low[n] == old(low[n])
        invariant forall n :: 0 <= n < high.Length ==> high[n] == old(high[n])
      {
        if i >= LOW_BOUND {
          lowCount := i;
          j, i, broke := i, 0, true;
          break;
        }
        assert i + 1 < |m| ==> Limit(m[i]) <= m[i + 1].base;
        if m[i].base < cutoff {
          lowTop := i + 1;
          if Limit(m[i]) <= cutoff {
            low[i] := Region(m[i].base, m[i].size);
          } else {
            low[i] := Region(m[i].base, cutoff - m[i].base);
            high[0], highTop := Region(cutoff, m[i].size + m[i].base - cutoff), 1;
            lowCount := i + 1;
            j, i, broke := i, 1, true;
            break;
          }
        } else {
          lowCount := i;
          j, i, broke := i, 0, true;
          break;
        }
        i := i + 1;
      }
      assert broke;
    }

    /** The loop that fills the high map from entry `i0 + j` on, at most sixteen. */
    method FillHigh(m: seq<Region>, i0: nat, j: nat)
      requires Valid() && i0 <= 1 && i0 + j <= |m| && highTop == i0
      modifies this`highCount, this`highTop, high
      ensures highCount == highTop == Min(|m| - j, HIGH_BOUND)
      ensures forall n :: i0 <= n < highCount ==> high[n] == m[j + n]
      ensures forall n :: 0 <= n < high.Length && (n < i0 || n >= highCount) ==> high[n] == old(high[n])
    {
      var i := i0;
      while i + j < |m| && i < HIGH_BOUND
        invariant i0 <= i <= Min(|m| - j, HIGH_BOUND) && highTop == i
        invariant forall n :: i0 <= n < i ==> high[n] == m[j + n]
        invariant forall n :: 0 <= n < high.Length && (n < i0 || n >= i) ==> high[n] == old(high[n])
      {
        high[i], highTop := Region(m[i + j].base, m[i + j].size), i + 1;
        i := i + 1;
      }
      highCount := i;
    }

    /** The split of `pmm_init`, for a map totalling more than 8 MiB. With at most 6 low and 16 high entries
        the two maps are exactly the two parts. The writes stay inside the arrays exactly when at most three
        entries start below the cutoff and at most eight go to the high map. */
    method Init(m: seq<Region>, total: nat)
      requires Valid() && lowTop == highTop == 0 && Sorted(m) && CHUNK < total == Total(m) < TWO64
      modifies this, low, high
      ensures Valid() && cutoff == Cutoff(total)
      ensures LowCount(m, cutoff) <= LOW_BOUND ==> IsSeq(low, lowCount, LowPart(m, cutoff))
      ensures LowCount(m, cutoff) <= LOW_BOUND && |HighPart(m, cutoff)| <= HIGH_BOUND ==>
        IsSeq(high, highCount, HighPart(m, cutoff))
      ensures lowTop == LowWrites(m, cutoff) && highTop == highCount == HighWrites(m, cutoff)
      ensures forall i :: lowTop <= i < low.Length ==> low[i] == old(low[i])
      ensures forall i :: highTop <= i < high.Length ==> high[i] == old(high[i])
    {
      CutoffBelowTotal(total);
      CutoffExpression(total);
      cutoff := Neg64(ClearLow(Neg64(total / 256)));
      SomethingAbove(m, cutoff);
      Split(m);
    }

    /** The two loops. */
    method Split(m: seq<Region>)
      requires Valid() && lowTop == highTop == 0 && Sorted(m) && exists n :: 0 <= n < |m| && Limit(m[n]) > cutoff
      modifies this`lowCount, this`lowTop, this`highCount, this`highTop, low, high
      ensures Valid()
      ensures LowCount(m, cutoff) <= LOW_BOUND ==> IsSeq(low, lowCount, LowPart(m, cutoff))
      ensures LowCount(m, cutoff) <= LOW_BOUND && |HighPart(m, cutoff)| <= HIGH_BOUND ==>
        IsSeq(high, highCount, HighPart(m, cutoff))
      ensures lowTop == LowWrites(m, cutoff) && highTop == highCount == HighWrites(m, cutoff)
      ensures forall i :: lowTop <= i < low.Length ==> low[i] == old(low[i])
      ensures forall i :: highTop <= i < high.Length ==> high[i] == old(high[i])
    {
      var i, j := FillLow(m, LowCount(m, cutoff));
      NextStart(m, cutoff, i, j);
      LowDone(m);
      FillHigh(m, i, j);
      HighDone(m, i, j);
    }

    lemma LowDone(m: seq<Region>)
      requires lowCount == LowWrites(m, cutoff) <= low.Length
      requires forall n :: 0 <= n < lowCount ==> low[n] == Below(m[n], cutoff)
      ensures LowCount(m, cutoff) <= LOW_BOUND ==> IsSeq(low, lowCount, LowPart(m, cutoff))
    {
    }

    lemma HighDone(m: seq<Region>, i: nat, j: nat)
      requires Sorted(m) && j == Min(HighStart(m, cutoff), LOW_BOUND) && highCount == Min(|m| - j, HIGH_BOUND) <= high.Length
      requires LowCount(m, cutoff) <= LOW_BOUND ==> i == (if Straddles(m, cutoff) then 1 else 0)
      requires (i == 1 && highCount > 0 ==> high[0] == Above(m[j], cutoff)) && forall n :: i <= n < highCount ==> high[n] == m[j + n]
      ensures LowCount(m, cutoff) <= LOW_BOUND && |HighPart(m, cutoff)| <= HIGH_BOUND ==>
        IsSeq(high, highCount, HighPart(m, cutoff))
    {
      if LowCount(m, cutoff) <= LOW_BOUND && |m| - j <= HIGH_BOUND { HighIsPart(m, i, j); }
    }

    lemma HighIsPart(m: seq<Region>, i: nat, j: nat)
      requires Sorted(m) && j == HighStart(m, cutoff) && i == if Straddles(m, cutoff) then 1 else 0
      requires highCount == |m| - j <= high.Length
      requires i == 1 && highCount > 0 ==> high[0] == Above(m[j], cutoff)
      requires forall n :: i <= n < highCount ==> high[n] == m[j + n]
      ensures IsSeq(high, highCount, HighPart(m, cutoff))
    {
      HighEntries(m, cutoff);
    }

    /** `pmm_get_high_memory_map`: an index equal to the count is let through. */
    method GetHigh(index: nat) returns (ok: bool, r: Region)
      requires Valid()
      ensures ok <==> index <= highCount
      ensures ok ==> r == high[index]
    {
      if index > highCount {
        return false, Region(0, 0);
      }
      return true, high[index];
    }

    /** `memory_map_read`: base and limit of a region, and zeros past the end. As the check above is off by
        one, that holds for the first index past the end exactly when the entry there is zero: so it is, from
        static storage, unless the array is full. */
    method Read(index: nat) returns (base: nat, limit: nat)
      requires Valid()
      ensures index < highCount ==> base == high[index].base && limit == Limit(high[index])
      ensures index >= highCount ==> (base == limit == 0 <==> index > highCount || high[index] == Region(0, 0))
    {
      var ok, r := GetHigh(index);
      if !ok {
        return 0, 0;
      }
      return r.base, r.base + r.size;
    }
  }

  /** From static storage: when nothing overran the high array, a read past the end gives zeros exactly unless
      the array is full, the index is the one behind it, and the memory there is not zero. */
  method ReadAfterInit(m: seq<Region>, total: nat, lowRest: seq<Region>, highRest: seq<Region>, index: nat)
    returns (base: nat, limit: nat)
    requires |lowRest| >= LOW_BOUND - LOW_CAPACITY && |highRest| > HIGH_BOUND - HIGH_CAPACITY
    requires Sorted(m) && CHUNK < total == Total(m) < TWO64
    requires LowCount(m, Cutoff(total)) <= LOW_BOUND && |HighPart(m, Cutoff(total))| <= HIGH_CAPACITY
    ensures var h := HighPart(m, Cutoff(total));
      if index < |h| then base == h[index].base && limit == Limit(h[index])
      else base == limit == 0 <==> |h| < HIGH_CAPACITY || index > |h| || highRest[0] == Region(0, 0)
  {
    var maps := new Maps(lowRest, highRest);
    maps.Init(m, total);
    base, limit := maps.Read(index);
  }

  /** The first `n` entries of the array are `s`. */
  ghost predicate IsSeq(a: array<Region>, n: nat, s: seq<Region>)
    reads a
  {
    n == |s| && n <= a.Length && forall i :: 0 <= i < n ==> a[i] == s[i]
  }

  lemma SomethingAbove(m: seq<Region>, c: nat)
    requires Sorted(m) && Total(m) > c
    ensures exists n :: 0 <= n < |m| && Limit(m[n]) > c
  {
    if forall n :: 0 <= n < |m| ==> Limit(m[n]) <= c { TotalBounded(m, c); }
  }
}

/** Hexadecimal printing in `log.c` and reading in `config.c`. */
module Hex {
  import opened Base

  const TWO64: nat := 0x1_0000_0000_0000_0000

  const DIGITS: string := "0123456789ABCDEF"

  function DigitValue(c: char): Option<nat> {
    if '0' <= c <= '9' then Some((c - '0') as nat)
    else if 'a' <= c <= 'f' then Some((c - 'a') as nat + 10)
    else if 'A' <= c <= 'F' then Some((c - 'A') as nat + 10)
    else None
  }

  predicate IsHex(s: string) { forall i :: 0 <= i < |s| ==> DigitValue(s[i]).Some? }

  /** The number a hexadecimal string denotes, without bound. */
  function Value(s: string): nat
    requires IsHex(s)
  {
    if s == [] then 0 else 16 * Value(s[..|s| - 1]) + DigitValue(s[|s| - 1]).value
  }

  function Pow16(n: nat): (r: nat)
    ensures r > 0
  {
    if n == 0 then 1 else 16 * Pow16(n - 1)
  }

  lemma DigitsInvert(d: nat)
    requires d < 16
    ensures |DIGITS| == 16 && DigitValue(DIGITS[d]) == Some(d)
  {
  }

  /** Digit `i` of the sixteen, highest first. */
  function DigitAt(p: nat, i: nat): char
    requires i < 16
  {
    DIGITS[(p / Pow16(15 - i)) % 16]
  }

  /** `logputp`; the output device is the sequence of characters sent to it. */
  method LogPutP(p: nat) returns (out: string)
    requires p < TWO64
    ensures |out| == 16 && forall i :: 0 <= i < 16 ==> out[i] == DigitAt(p, i)
  {
    out := [];
    for i := 0 to 16
      invariant |out| == i && forall k :: 0 <= k < i ==> out[k] == DigitAt(p, k)
    {
      out := out + [DIGITS[(p / Pow16(15 - i)) % 16]];
    }
  }

  lemma ValueAppend(s: string, c: char)
    requires IsHex(s) && DigitValue(c).Some?
    ensures IsHex(s + [c]) && Value(s + [c]) == 16 * Value(s) + DigitValue(c).value
  {
  }

  /** `q[k]` is what is left of a number without its last `k` digits, and `out` prints the digits. */
  predicate Printed(q: seq<nat>, out: string) {
    && |q| == 17 && |out| == 16 && q[16] == 0
    && forall k :: 0 <= k < 16 ==> q[k] / 16 == q[k + 1] && out[15 - k] == DIGITS[q[k] % 16]
  }

  lemma {:induction false} PrefixValue(q: seq<nat>, out: string, n: nat)
    requires Printed(q, out) && n <= 16
    ensures IsHex(out[..n]) && Value(out[..n]) == q[16 - n]
  {
    if n > 0 {
      PrefixValue(q, out, n - 1);
      var k := 16 - n;
      assert q[k] / 16 == q[k + 1] && out[15 - k] == DIGITS[q[k] % 16];
      NextDigit(out[..n - 1], out[n - 1], q[k]);
      assert out[..n] == out[..n - 1] + [out[n - 1]];
    }
  }

  /** Behind the digits of `e / 16` the last digit of `e`. */
  lemma NextDigit(s: string, c: char, e: nat)
    requires IsHex(s) && Value(s) == e / 16 && c == DIGITS[e % 16]
    ensures IsHex(s + [c]) && Value(s + [c]) == e
  {
    DigitsInvert(e % 16);
    ValueAppend(s, c);
  }

  /** What `logputp` prints denotes the number printed, so `config_read_as_ptr` gives it back. */
  lemma PrintedReadsBack(p: nat, out: string)
    requires p < TWO64 && |out| == 16 && forall i :: 0 <= i < 16 ==> out[i] == DigitAt(p, i)
    ensures IsHex(out) && Value(out) % TWO64 == p
  {
    PrintedValue(p, out, Quotients(p, 17));
    BelowLimit(p);
  }

  lemma BelowLimit(p: nat)
    requires p < TWO64
    ensures p % TWO64 == p
  {
  }

  lemma PrintedValue(p: nat, out: string, q: seq<nat>)
    requires p < TWO64 && |out| == 16 && forall i :: 0 <= i < 16 ==> out[i] == DigitAt(p, i)
    requires |q| == 17 && forall k :: 0 <= k < 17 ==> q[k] == Quotient(p, k)
    ensures IsHex(out) && Value(out) == p
  {
    QuotientsPrinted(p, out, q);
    FirstQuotient(p);
    PrefixValue(q, out, 16);
    assert out[..16] == out;
  }

  lemma FirstQuotient(p: nat)
    ensures Quotient(p, 0) == p
  {
  }

  lemma QuotientsPrinted(p: nat, out: string, q: seq<nat>)
    requires p < TWO64 && |out| == 16 && forall i :: 0 <= i < 16 ==> out[i] == DigitAt(p, i)
    requires |q| == 17 && forall k :: 0 <= k < 17 ==> q[k] == Quotient(p, k)
    ensures Printed(q, out)
  {
    TopQuotient(p);
    forall k | 0 <= k < 16 ensures q[k] / 16 == q[k + 1] && out[15 - k] == DIGITS[q[k] % 16] {
      QuotientStep(p, k, q[k], q[k + 1]);
      assert out[15 - k] == DigitAt(p, 15 - k);
    }
  }

  lemma QuotientStep(p: nat, k: nat, e: nat, f: nat)
    requires e == Quotient(p, k) && f == Quotient(p, k + 1)
    ensures e / 16 == f
  {
    DropDigit(p, k);
  }

  function Div(p: nat, m: nat): nat
    requires m > 0
  {
    p / m
  }

  function Quotient(p: nat, k: nat): nat { Div(p, Pow16(k)) }

  function Quotients(p: nat, n: nat): (q: seq<nat>)
    ensures |q| == n && forall k :: 0 <= k < n ==> q[k] == Quotient(p, k)
  {
    seq(n, k requires 0 <= k < n => Quotient(p, k))
  }

  lemma TopQuotient(p: nat)
    requires p < TWO64
    ensures Quotient(p, 16) == 0
  {
    TopPower();
  }

  lemma TopPower()
    ensures Pow16(16) == TWO64
  {
    assert Pow16(4) == 0x1_0000;
    assert Pow16(8) == 0x1_0000_0000;
    assert Pow16(12) == 0x1_0000_0000_0000;
  }

  lemma DivUnique(p: nat, m: nat, q: nat, r: nat)
    requires m > 0 && p == m * q + r && r < m
    ensures p / m == q
  {
    var e := p / m;
    assert e < q ==> m * (e + 1) <= m * q;
    assert e > q ==> m * (q + 1) <= m * e;
  }

  lemma Regroup(a: nat, q: nat, r: nat)
    ensures a * (16 * q + r) == (16 * a) * q + a * r
  {
  }

  lemma AtMost(a: nat, d: nat, r: nat)
    requires d < 16 && r < a
    ensures a * d + r < 16 * a
  {
  }

  lemma DropDigitAt(p: nat, a: nat)
    requires a > 0
    ensures p / a == 16 * (p / (16 * a)) + p / a % 16
  {
    var e, r := p / a, p % a;
    var q, d := e / 16, e % 16;
    Regroup(a, q, d);
    assert 16 * q + d == e && p == a * e + r;
    AtMost(a, d, r);
    DivUnique(p, 16 * a, q, a * d + r);
  }

  lemma DropDigit(p: nat, n: nat)
    ensures p / Pow16(n) == 16 * (p / Pow16(n + 1)) + p / Pow16(n) % 16
  {
    DropDigitAt(p, Pow16(n));
  }

  /** The value part of `config_read_as_ptr`: shift in digits modulo 2^64, or give up. */
  method ReadAsPtr(value: Option<string>, sentinel: nat) returns (r: nat)
    ensures value.None? ==> r == sentinel
    ensures value.Some? ==> r == if IsHex(value.value) then Value(value.value) % TWO64 else sentinel
  {
    if value.None? {
      return sentinel;
    }
    var s := value.value;
    r := 0;
    for i := 0 to |s|
      invariant IsHex(s[..i]) && r == Value(s[..i]) % TWO64
    {
      assert s[..i + 1][..i] == s[..i];
      var d := DigitValue(s[i]);
      if d.None? {
        return sentinel;
      }
      ShiftIn(Value(s[..i]), d.value);
      r := r * 16 % TWO64 + d.value;
    }
    assert s[..|s|] == s;
  }

  lemma ModSplit(q: nat, x: nat)
    requires x < TWO64
    ensures (q * TWO64 + x) % TWO64 == x
  {
  }

  lemma ShiftIn(v: nat, d: nat)
    requires d < 16
    ensures (16 * v + d) % TWO64 == v % TWO64 * 16 % TWO64 + d
  {
    var q, r := v / TWO64, v % TWO64;
    var a, b := r / 0x1000_0000_0000_0000, r % 0x1000_0000_0000_0000;
    assert r * 16 == a * TWO64 + 16 * b;
    assert 16 * v + d == (16 * q + a) * TWO64 + (16 * b + d);
    ModSplit(a, 16 * b);
    ModSplit(16 * q + a, 16 * b + d);
  }
}

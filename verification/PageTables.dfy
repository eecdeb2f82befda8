/** Long-mode page tables: a four-level radix tree in physical memory. The entry format follows
    section 5.3 of the AMD64 Architecture Programmer's Manual, Volume 2. */
module PageWords {
  const PF_PRES: bv64 := 0x1
  const PF_WRITE: bv64 := 0x2
  const PF_USER: bv64 := 0x4
  const PF_PWT: bv64 := 0x8
  const PF_PCD: bv64 := 0x10
  const PF_ACCS: bv64 := 0x20
  const PF_DIRTY: bv64 := 0x40
  const PF_LARGE: bv64 := 0x80
  const PF_GLOBL: bv64 := 0x100
  const PF_VALID: bv64 := 0x200
  const PF_NREAD: bv64 := 0x400
  const PF_NX: bv64 := 0x8000_0000_0000_0000
  const PF_BITS: bv64 := 0x8000_0000_0000_0FFF

  const TWO63: nat := 0x8000_0000_0000_0000
  const TWO64: nat := 0x1_0000_0000_0000_0000

  /** A 64-bit word split into its PF_BITS part and the rest: `frame` is the value of bits 12..62. */
  datatype Word = Word(frame: nat, flags: bv64)

  const ZERO: Word := Word(0, 0)

  predicate Pres(w: Word) { w.flags & PF_PRES != 0 }

  predicate Large(w: Word) { w.flags & PF_LARGE != 0 }

  /** Bitwise or of two naturals. */
  function BitOr(a: nat, b: nat): nat
    decreases a
  {
    if a == 0 then b else if b == 0 then a
    else (if a % 2 == 1 || b % 2 == 1 then 1 else 0) + 2 * BitOr(a / 2, b / 2)
  }

  /** `x | y` on split words. */
  function Or(x: Word, y: Word): Word { Word(BitOr(x.frame, y.frame), x.flags | y.flags) }

  /** A page-aligned 64-bit number as a word: bit 63 falls into the flag part. */
  function AlignedWord(x: nat): Word
    requires x < TWO64 && x % 0x1000 == 0
  {
    Word(x % TWO63, if x >= TWO63 then PF_NX else 0)
  }

  function FlagWord(f: bv64): Word { Word(0, f) }

  /** Table index of address `a` at level `l`: nine bits from bit 12 + 9(l-1). */
  function Span(l: nat): (n: nat)
    requires 1 <= l <= 4
    ensures n > 0
  {
    if l == 1 then 0x1000 else if l == 2 then 0x20_0000 else if l == 3 then 0x4000_0000 else 0x80_0000_0000
  }

  function Idx(a: nat, l: nat): (i: nat)
    requires 1 <= l <= 4
    ensures i < 512
  {
    (a / Span(l)) % 512
  }

  /** Bits 12..47 of an address: the page it lies in. */
  function PageOf(a: nat): nat { (a / 0x1000) % 0x10_0000_0000 }

  predicate SameIdx(a: nat, b: nat, l: nat)
    requires l <= 4
  {
    l == 0 || (Idx(a, l) == Idx(b, l) && SameIdx(a, b, l - 1))
  }

  lemma PageDigits(a: nat)
    ensures PageOf(a) == Idx(a, 1) + 512 * Idx(a, 2) + 262144 * Idx(a, 3) + 134217728 * Idx(a, 4)
  {
    var p := a / 0x1000;
    assert a / 0x20_0000 == p / 512;
    assert a / 0x4000_0000 == p / 262144;
    assert a / 0x80_0000_0000 == p / 134217728;
    assert p / 262144 == p / 512 / 512;
    assert p / 134217728 == p / 262144 / 512;
    assert p / 0x10_0000_0000 == p / 134217728 / 512;
  }

  /** Two addresses use the same entry at every level exactly when they agree on bits 12..47. */
  lemma SamePageSameIdx(a: nat, b: nat)
    ensures SameIdx(a, b, 4) <==> PageOf(a) == PageOf(b)
  {
    PageDigits(a);
    PageDigits(b);
    assert SameIdx(a, b, 4) <==>
      Idx(a, 1) == Idx(b, 1) && Idx(a, 2) == Idx(b, 2) && Idx(a, 3) == Idx(b, 3) && Idx(a, 4) == Idx(b, 4) by {
      assert SameIdx(a, b, 3) <==> Idx(a, 3) == Idx(b, 3) && SameIdx(a, b, 2);
      assert SameIdx(a, b, 2) <==> Idx(a, 2) == Idx(b, 2) && SameIdx(a, b, 1);
      assert SameIdx(a, b, 1) <==> Idx(a, 1) == Idx(b, 1) && SameIdx(a, b, 0);
    }
  }
}

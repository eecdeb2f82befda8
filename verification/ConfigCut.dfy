/** A configuration file that ends in the middle of a line: what is left in the index, told from the text. */
module ConfigCut {
  import opened Base
  import opened ConfigText
  import opened ConfigRoundTrip
  import opened ConfigMemory
  import opened ConfigLookup

  /** An entry whose property pointer a search would follow to nowhere. */
  predicate NullProperty(item: Item) { item.section.Some? && item.property.None? }

  // ---------------------------------------------------------------- one line

  /** The scan from `i`, with `n` entries taken before, leaves a section without a property. */
  predicate LeavesNull(s: string, i: nat, n: nat)
    requires Terminated(s) && i < |s| && n < INDEX_SIZE
    decreases |s| - i
  {
    match ParseAt(s, i)
    case Skip(next) => LeavesNull(s, next, n)
    case Stop(item, _) => NullProperty(item)
    case Found(_, next) => n + 1 < INDEX_SIZE && LeavesNull(s, next, n + 1)
  }

  lemma {:induction false} LeavesNullIs(s: string, i: nat, n: nat)
    requires Terminated(s) && i < |s| && n < INDEX_SIZE
    ensures LeavesNull(s, i, n) <==> NullProperty(ParseFrom(s, i, n).item)
    decreases |s| - i
  {
    match ParseAt(s, i)
    case Skip(next) =>
      StepSkip(s, i, n);
      LeavesNullIs(s, next, n);
    case Stop(_, _) => StepStop(s, i, n);
    case Found(_, next) =>
      StepFound(s, i, n);
      if n + 1 < INDEX_SIZE { LeavesNullIs(s, next, n + 1); }
  }

  lemma EndLeavesNothing(s: string, i: nat, n: nat)
    requires Terminated(s) && i == |s| - 1 && n < INDEX_SIZE
    ensures !LeavesNull(s, i, n)
  {
  }

  /** The first `k` characters of the line end in the gap behind its section. */
  predicate EndsInGap(l: Source, k: nat) {
    l.Entry? && |l.lead| + |l.section| < k <= |l.lead| + |l.section| + |l.gap1|
  }

  /** From `i` to `end` stand the beginnings of the pieces of an entry line, which would meet at `a` to `e`;
      the text ends at `end`. */
  ghost predicate CutRuns(s: string, i: nat, a: nat, b: nat, c: nat, d: nat, e: nat, end: nat) {
    && i <= a < b < c < d < e && i <= end && |s| == end + 1 && s[end] == NUL
    && forall j :: i <= j < end ==>
         && ((j < a || b <= j < c || d <= j < e) ==> Is(Blank, s[j]))
         && ((a <= j < b || c <= j < d) ==> Is(Word, s[j]))
         && (e <= j ==> Is(Rest, s[j])) && (j == e ==> !Is(Blank, s[j]))
  }

  lemma CutInSection(s: string, i: nat, a: nat, b: nat, c: nat, d: nat, e: nat, end: nat)
    requires CutRuns(s, i, a, b, c, d, e, end) && end <= b
    ensures ParseTriple(s, i) == Stop(NO_ITEM, {})
  {
    if end <= a {
      SpanIs(s, i, Blank, end);
    } else {
      SpanIs(s, i, Blank, a);
      SpanIs(s, a, Word, end);
    }
  }

  lemma CutBehindSection(s: string, i: nat, a: nat, b: nat, c: nat, d: nat, e: nat, end: nat)
    requires CutRuns(s, i, a, b, c, d, e, end) && b < end
    ensures ParseTriple(s, i) == ParseProperty(s, Range(a, b))
  {
    SpanIs(s, i, Blank, a);
    SpanIs(s, a, Word, b);
    SectionTaken(s, i, a, b);
  }

  lemma CutInProperty(s: string, i: nat, a: nat, b: nat, c: nat, d: nat, e: nat, end: nat)
    requires CutRuns(s, i, a, b, c, d, e, end) && b < end <= d
    ensures var l := ParseProperty(s, Range(a, b)); l.Stop? && (NullProperty(l.item) <==> end <= c)
  {
    if end <= c {
      SpanIs(s, b + 1, Blank, end);
    } else {
      SpanIs(s, b + 1, Blank, c);
      SpanIs(s, c, Word, end);
    }
  }

  lemma CutInValue(s: string, i: nat, a: nat, b: nat, c: nat, d: nat, e: nat, end: nat)
    requires CutRuns(s, i, a, b, c, d, e, end) && d < end
    ensures var l := ParseProperty(s, Range(a, b)); l.Stop? && !NullProperty(l.item)
  {
    SpanIs(s, b + 1, Blank, c);
    SpanIs(s, c, Word, d);
    PropertyTaken(s, Range(a, b), c, d);
    if end <= e {
      SpanIs(s, d + 1, Blank, end);
    } else {
      SpanIs(s, d + 1, Blank, e);
      SpanIs(s, e, Rest, end);
    }
  }

  lemma CutRunsParse(s: string, i: nat, a: nat, b: nat, c: nat, d: nat, e: nat, end: nat)
    requires CutRuns(s, i, a, b, c, d, e, end)
    ensures var l := ParseTriple(s, i); l.Stop? && (NullProperty(l.item) <==> b < end <= c)
  {
    if end <= b {
      CutInSection(s, i, a, b, c, d, e, end);
    } else {
      CutBehindSection(s, i, a, b, c, d, e, end);
      if end <= d { CutInProperty(s, i, a, b, c, d, e, end); } else { CutInValue(s, i, a, b, c, d, e, end); }
    }
  }

  /** The first `k` characters of `x` stand at `i`. */
  predicate Follows(s: string, i: nat, x: string, k: nat) {
    k <= |x| && i + k < |s| && forall j :: 0 <= j < k ==> s[i + j] == x[j]
  }

  /** Which kind of character stands at `j` of an entry line. */
  lemma EntryChar(l: Source, j: nat)
    requires l.Entry? && WellFormed(l) && j + 1 < |PrintLine(l)|
    ensures var a := |l.lead|; var b := a + |l.section|; var c := b + |l.gap1|; var d := c + |l.property|;
      var e := d + |l.gap2|; var x := PrintLine(l)[j];
      && ((j < a || b <= j < c || d <= j < e) ==> Is(Blank, x))
      && ((a <= j < b || c <= j < d) ==> Is(Word, x))
      && (e <= j ==> Is(Rest, x)) && (j == e ==> !Is(Blank, x))
  {
    var t2 := l.gap2 + (l.value + "\n");
    var t1 := l.gap1 + (l.property + t2);
    assert PrintLine(l) == l.lead + (l.section + t1);
  }

  lemma EntryCut(s: string, l: Source, i: nat, k: nat)
    requires Terminated(s) && l.Entry? && WellFormed(l) && k < |PrintLine(l)|
    requires Follows(s, i, PrintLine(l), k) && i + k == |s| - 1
    ensures var a := i + |l.lead|; var b := a + |l.section|; var c := b + |l.gap1|; var d := c + |l.property|;
      CutRuns(s, i, a, b, c, d, d + |l.gap2|, i + k)
  {
    var a := i + |l.lead|;
    var b := a + |l.section|;
    var c := b + |l.gap1|;
    var d := c + |l.property|;
    var e := d + |l.gap2|;
    forall j | i <= j < i + k
      ensures (j < a || b <= j < c || d <= j < e) ==> Is(Blank, s[j])
      ensures (a <= j < b || c <= j < d) ==> Is(Word, s[j])
      ensures (e <= j ==> Is(Rest, s[j])) && (j == e ==> !Is(Blank, s[j]))
    {
      assert s[i + (j - i)] == PrintLine(l)[j - i];
      EntryChar(l, j - i);
    }
  }

  /** The scan of a line cut off after `k` characters. */
  lemma CutEntry(s: string, l: Source, i: nat, k: nat)
    requires Terminated(s) && l.Entry? && WellFormed(l) && 0 < k < |PrintLine(l)|
    requires Follows(s, i, PrintLine(l), k) && i + k == |s| - 1
    ensures var p := ParseAt(s, i); p.Stop? && (NullProperty(p.item) <==> EndsInGap(l, k))
  {
    var a := i + |l.lead|;
    var b := a + |l.section|;
    var c := b + |l.gap1|;
    EntryCut(s, l, i, k);
    CutRunsParse(s, i, a, b, c, c + |l.property|, c + |l.property| + |l.gap2|, i + k);
    EntryStart(s, l, i, k);
  }

  lemma EntryStart(s: string, l: Source, i: nat, k: nat)
    requires Terminated(s) && l.Entry? && WellFormed(l) && 0 < k < |PrintLine(l)|
    requires Follows(s, i, PrintLine(l), k) && i + k == |s| - 1
    ensures ParseAt(s, i) == ParseTriple(s, i)
  {
    assert s[i + 0] == PrintLine(l)[0];
    EntryChar(l, 0);
    if l.lead == [] { assert PrintLine(l)[0] == l.section[0]; }
  }

  lemma CutComment(s: string, l: Source, i: nat, k: nat)
    requires Terminated(s) && l.Comment? && WellFormed(l) && 0 < k < |PrintLine(l)|
    requires Follows(s, i, PrintLine(l), k) && i + k == |s| - 1
    ensures ParseAt(s, i) == Skip(i + k)
  {
    assert s[i + 0] == PrintLine(l)[0] == '#';
    forall j | i <= j < i + k ensures Is(Rest, s[j]) {
      assert s[i + (j - i)] == PrintLine(l)[j - i];
      if j > i { assert PrintLine(l)[j - i] == l.text[j - i - 1]; }
    }
    SpanIs(s, i, Rest, i + k);
  }

  /** Whatever was taken before, the scan from `i` leaves a null property exactly in the gap. */
  ghost predicate CutTells(s: string, l: Source, i: nat, k: nat)
    requires Terminated(s) && i < |s|
  {
    forall n | 0 <= n < INDEX_SIZE :: LeavesNull(s, i, n) <==> EndsInGap(l, k)
  }

  lemma CutLine(s: string, l: Source, i: nat, k: nat)
    requires Terminated(s) && WellFormed(l) && !l.Blanks? && k < |PrintLine(l)|
    requires Follows(s, i, PrintLine(l), k) && i + k == |s| - 1
    ensures CutTells(s, l, i, k)
  {
    forall n | 0 <= n < INDEX_SIZE ensures LeavesNull(s, i, n) <==> EndsInGap(l, k) {
      if k == 0 {
        EndLeavesNothing(s, i, n);
        assert l.Entry? ==> l.section != [];
      } else if l.Entry? {
        CutEntry(s, l, i, k);
      } else {
        CutComment(s, l, i, k);
        EndLeavesNothing(s, i + k, n);
      }
    }
  }

  // ---------------------------------------------------------------- the file

  predicate NoBlanks(ls: seq<Source>) { forall k :: 0 <= k < |ls| ==> !ls[k].Blanks? }

  function LineLength(l: Source): nat {
    match l
    case Comment(text) => |text| + 2
    case Empty => 1
    case Blanks(text) => |text| + 1
    case Entry(lead, section, gap1, property, gap2, value) =>
      |lead| + |section| + |gap1| + |property| + |gap2| + |value| + 1
  }

  lemma LengthOfLine(l: Source)
    ensures |PrintLine(l)| == LineLength(l) > 0
  {
  }

  /** With `n` entries before: the text of `ls`, cut off after `c` characters, ends in the gap behind a section
      and before the 64th entry. */
  predicate CutInGap(ls: seq<Source>, c: nat, n: nat) {
    ls != [] && n < INDEX_SIZE
    && if c < LineLength(ls[0]) then EndsInGap(ls[0], c)
       else CutInGap(ls[1..], c - LineLength(ls[0]), if ls[0].Entry? then n + 1 else n)
  }

  /** The text of `ls` stands at `i`, cut off after `c` characters. */
  predicate CutAt(s: string, i: nat, ls: seq<Source>, c: nat) {
    && Terminated(s) && AllWellFormed(ls) && NoBlanks(ls) && c <= |PrintAll(ls)|
    && Follows(s, i, PrintAll(ls), c) && i + c == |s| - 1
  }

  lemma TailWellFormed(ls: seq<Source>)
    requires AllWellFormed(ls) && NoBlanks(ls) && ls != []
    ensures AllWellFormed(ls[1..]) && NoBlanks(ls[1..])
  {
  }

  lemma CutText(s: string, i: nat, x: string, y: string, c: nat)
    requires Follows(s, i, x + y, c)
    ensures if c < |x| then Follows(s, i, x, c) else At(s, i, x) && Follows(s, i + |x|, y, c - |x|)
  {
    forall j | 0 <= j < |x| && j < c ensures s[i + j] == x[j] { assert s[i + j] == (x + y)[j]; }
    if c >= |x| {
      assert s[i..i + |x|] == x;
      forall j | 0 <= j < c - |x| ensures s[i + |x| + j] == y[j] { assert s[i + (|x| + j)] == (x + y)[|x| + j]; }
    }
  }

  function After(l: Source, n: nat): nat { if l.Entry? then n + 1 else n }

  /** What the scan from `i` leaves is decided by the scan from `next`, behind the whole line `l`. */
  ghost predicate Passes(s: string, i: nat, l: Source, next: nat)
    requires Terminated(s) && i < |s| && next < |s|
  {
    forall n | 0 <= n < INDEX_SIZE :: LeavesNull(s, i, n) <==> After(l, n) < INDEX_SIZE && LeavesNull(s, next, After(l, n))
  }

  /** The whole line `l` stands from `i` to `next`. */
  ghost predicate WholeAt(s: string, i: nat, l: Source, next: nat)
    requires Terminated(s) && i < |s| && next < |s|
  {
    next == i + LineLength(l) && Passes(s, i, l, next)
  }

  /** `at[k]` is where line `k` starts; the lines before the last start are whole, and the cut follows it. */
  ghost predicate CutStarts(s: string, at: seq<nat>, ls: seq<Source>)
    requires Terminated(s)
  {
    && 1 <= |at| <= |ls| + 1
    && (forall k :: 0 <= k < |at| ==> at[k] < |s|)
    && (forall k :: 0 <= k < |at| - 1 ==> WholeAt(s, at[k], ls[k], at[k + 1]))
    && LastStart(s, at[|at| - 1], ls, |at| - 1)
  }

  /** The cut follows the start `i` of line `k`, or of nothing. */
  ghost predicate LastStart(s: string, i: nat, ls: seq<Source>, k: nat)
    requires Terminated(s) && i < |s| && k <= |ls|
  {
    if k == |ls| then i == |s| - 1
    else |s| - 1 - i < LineLength(ls[k]) && CutTells(s, ls[k], i, |s| - 1 - i)
  }

  lemma {:induction false} FindCut(s: string, i: nat, ls: seq<Source>, c: nat) returns (at: seq<nat>)
    requires CutAt(s, i, ls, c)
    ensures CutStarts(s, at, ls) && at[0] == i
    decreases |ls|
  {
    at := [i];
    if ls != [] {
      var whole, next := CutFirst(s, i, ls, c);
      if whole {
        var rest := FindCut(s, next, ls[1..], c - LineLength(ls[0]));
        at := [i] + rest;
        CutStartsCons(s, i, rest, ls);
      }
    }
  }

  lemma CutStartsCons(s: string, i: nat, rest: seq<nat>, ls: seq<Source>)
    requires Terminated(s) && ls != [] && CutStarts(s, rest, ls[1..]) && i < |s| && WholeAt(s, i, ls[0], rest[0])
    ensures CutStarts(s, [i] + rest, ls)
  {
    var at := [i] + rest;
    forall k | 0 <= k < |at| - 1 ensures WholeAt(s, at[k], ls[k], at[k + 1]) {
      if k > 0 { assert WholeAt(s, rest[k - 1], ls[1..][k - 1], rest[k]); }
    }
    assert LastStart(s, at[|at| - 1], ls, |at| - 1) by { assert LastStart(s, rest[|rest| - 1], ls[1..], |rest| - 1); }
  }

  lemma CutFirst(s: string, i: nat, ls: seq<Source>, c: nat) returns (whole: bool, next: nat)
    requires CutAt(s, i, ls, c) && ls != []
    ensures i < |s|
    ensures !whole ==> c < LineLength(ls[0]) && CutTells(s, ls[0], i, c)
    ensures whole ==> c >= LineLength(ls[0]) && next == i + LineLength(ls[0])
    ensures whole ==> next < |s| && Passes(s, i, ls[0], next) && CutAt(s, next, ls[1..], c - LineLength(ls[0]))
  {
    TailWellFormed(ls);
    whole, next := CutEnd(s, i, ls[0], PrintLine(ls[0]), PrintAll(ls[1..]), c);
  }

  lemma CutEnd(s: string, i: nat, l: Source, line: string, rest: string, c: nat) returns (whole: bool, next: nat)
    requires Terminated(s) && WellFormed(l) && !l.Blanks? && line == PrintLine(l)
    requires Follows(s, i, line + rest, c) && i + c == |s| - 1
    ensures !whole ==> c < LineLength(l) && CutTells(s, l, i, c)
    ensures whole ==> c >= LineLength(l) && next == i + LineLength(l) && next < |s| && Passes(s, i, l, next)
    ensures whole ==> Follows(s, next, rest, c - LineLength(l))
  {
    LengthOfLine(l);
    CutText(s, i, line, rest, c);
    whole, next := c >= |line|, i + |line|;
    if whole {
      assert Passes(s, i, l, next) by { WholeLine(s, i, l, line); }
    } else {
      assert CutTells(s, l, i, c) by { CutLine(s, l, i, c); }
    }
  }

  lemma WholeLine(s: string, i: nat, l: Source, line: string)
    requires Terminated(s) && WellFormed(l) && !l.Blanks? && line == PrintLine(l) && At(s, i, line) && i + |line| < |s|
    ensures Passes(s, i, l, i + |line|)
  {
    LineParses(s, l, i);
    TakesPasses(s, i, l, i + |line|);
  }

  lemma TakesPasses(s: string, i: nat, l: Source, next: nat)
    requires Terminated(s) && i < |s| && next < |s| && !l.Blanks? && Takes(s, i, l, next)
    ensures Passes(s, i, l, next)
  {
    forall n | 0 <= n < INDEX_SIZE
      ensures LeavesNull(s, i, n) <==> After(l, n) < INDEX_SIZE && LeavesNull(s, next, After(l, n))
    {
      AfterLine(s, i, l, n, next);
    }
  }

  lemma AfterLine(s: string, i: nat, l: Source, n: nat, next: nat)
    requires Terminated(s) && i < |s| && next < |s| && n < INDEX_SIZE && !l.Blanks? && Takes(s, i, l, next)
    ensures LeavesNull(s, i, n) <==> After(l, n) < INDEX_SIZE && LeavesNull(s, next, After(l, n))
  {
  }

  /** `f(i, n)` tells what the scan from `i` leaves with `n` entries before; nothing else is known of it. */
  ghost predicate Decided(f: (nat, nat) -> bool, at: seq<nat>, ls: seq<Source>, end: nat) {
    && 1 <= |at| <= |ls| + 1 && (forall k :: 0 <= k < |at| ==> at[k] <= end)
    && (forall k :: 0 <= k < |at| - 1 ==> at[k + 1] == at[k] + LineLength(ls[k]))
    && (forall k, n :: 0 <= k < |at| - 1 && 0 <= n < INDEX_SIZE ==>
         (f(at[k], n) <==> After(ls[k], n) < INDEX_SIZE && f(at[k + 1], After(ls[k], n))))
    && var m := |at| - 1;
       && (m < |ls| ==> end - at[m] < LineLength(ls[m]))
       && forall n :: 0 <= n < INDEX_SIZE ==> (f(at[m], n) <==> m < |ls| && EndsInGap(ls[m], end - at[m]))
  }

  lemma {:induction false} CutLines(f: (nat, nat) -> bool, at: seq<nat>, ls: seq<Source>, end: nat, k: nat, n: nat)
    requires Decided(f, at, ls, end) && k < |at| && n < INDEX_SIZE
    ensures f(at[k], n) <==> CutInGap(ls[k..], end - at[k], n)
    decreases |at| - k
  {
    if k < |at| - 1 {
      assert ls[k..][0] == ls[k] && ls[k..][1..] == ls[k + 1..];
      var m := After(ls[k], n);
      assert f(at[k], n) <==> m < INDEX_SIZE && f(at[k + 1], m);
      assert at[k + 1] == at[k] + LineLength(ls[k]);
      if m < INDEX_SIZE { CutLines(f, at, ls, end, k + 1, m); }
    }
  }

  lemma CutDecided(s: string, at: seq<nat>, ls: seq<Source>, f: (nat, nat) -> bool)
    requires Terminated(s) && CutStarts(s, at, ls)
    requires forall i, n :: 0 <= i < |s| && 0 <= n < INDEX_SIZE ==> f(i, n) == LeavesNull(s, i, n)
    ensures Decided(f, at, ls, |s| - 1)
  {
    forall k, n | 0 <= k < |at| - 1 && 0 <= n < INDEX_SIZE
      ensures f(at[k], n) <==> After(ls[k], n) < INDEX_SIZE && f(at[k + 1], After(ls[k], n))
    {
      assert WholeAt(s, at[k], ls[k], at[k + 1]);
    }
    forall k | 0 <= k < |at| - 1 ensures at[k + 1] == at[k] + LineLength(ls[k]) {
      assert WholeAt(s, at[k], ls[k], at[k + 1]);
    }
    var m := |at| - 1;
    forall n | 0 <= n < INDEX_SIZE ensures f(at[m], n) <==> m < |ls| && EndsInGap(ls[m], |s| - 1 - at[m]) {
      if m == |ls| { EndLeavesNothing(s, at[m], n); }
    }
  }

  /** The parse of a prefix of a printed file leaves a section without a property exactly when the cut falls
      into the gap behind a section. */
  lemma CutLeaves(ls: seq<Source>, c: nat, s: string)
    requires AllWellFormed(ls) && NoBlanks(ls) && c <= |PrintAll(ls)| && s == PrintAll(ls)[..c] + [NUL]
    ensures NullProperty(ParseFrom(s, 0, 0).item) <==> CutInGap(ls, c, 0)
  {
    var at := FindCut(s, 0, ls, c);
    var f := (i: nat, n: nat) => i < |s| && n < INDEX_SIZE && LeavesNull(s, i, n);
    CutDecided(s, at, ls, f);
    assert ls[0..] == ls;
    CutLines(f, at, ls, c, 0, 0);
    LeavesNullIs(s, 0, 0);
  }

  /** For every prefix of a printed file: all keys of the index left by the parse are set, so that no search
      follows a null pointer, exactly unless the cut falls into the gap behind a section. */
  lemma CutFile(ls: seq<Source>, c: nat, b: string, s: string, index: seq<Item>)
    requires AllWellFormed(ls) && NoBlanks(ls) && c <= |PrintAll(ls)| && s == PrintAll(ls)[..c] + [NUL]
    requires |b| == |s| && Indexed(index, ParseFrom(s, 0, 0))
    ensures (exists n: nat :: Readable(b, index, n)) <==> !CutInGap(ls, c, 0)
  {
    CutLeaves(ls, c, s);
    IndexReadable(b, s, index);
  }

  // ---------------------------------------------------------------- an input

  const CUT_TEXT: string := "A \0"

  lemma CutTextParses(s: string)
    requires s == CUT_TEXT
    ensures ParseFrom(s, 0, 0) == Parsed([], Item(Some(0), None, None), {1})
  {
    SpanIs(s, 0, Blank, 0);
    SpanIs(s, 0, Word, 1);
    SectionTaken(s, 0, 0, 1);
    SpanIs(s, 2, Blank, 2);
    StepStop(s, 0, 0);
  }

  /** A file that ends behind its first section: every lookup in that section stops at a null property. */
  lemma NullPropertyInput(b: string, index: seq<Item>, property: string)
    requires IsMarked(b, CUT_TEXT, ParseFrom(CUT_TEXT, 0, 0).marks) && Indexed(index, ParseFrom(CUT_TEXT, 0, 0))
    ensures Searchable(b, index, 1) && StopsAt(b, index, 1, ("A", property), 0) && index[0].property.None?
  {
    CutTextParses(CUT_TEXT);
    CStringIs(b, Range(0, 1));
    assert b[0..1] == "A";
  }
}

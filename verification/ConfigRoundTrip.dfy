/** Printing configuration lines and parsing them gives the same triples back, in order. */
module ConfigRoundTrip {
  import opened Base
  import opened ConfigText

  datatype Source =
    | Comment(text: string)
    | Empty
    | Blanks(text: string)
    | Entry(lead: string, section: string, gap1: string, property: string, gap2: string, value: string)

  predicate All(k: Kind, s: string) { forall j :: 0 <= j < |s| ==> Is(k, s[j]) }

  /** Lines as the configuration file writes them: words without blanks, a value up to the end of the line. */
  predicate WellFormed(l: Source) {
    match l
    case Comment(text) => All(Rest, text)
    case Empty => true
    case Blanks(text) => All(Blank, text) && text != []
    case Entry(lead, section, gap1, property, gap2, value) =>
      && All(Blank, lead) && All(Blank, gap1) && All(Blank, gap2) && gap1 != [] && gap2 != []
      && All(Word, section) && All(Word, property) && section != [] && property != []
      && (lead == [] ==> section[0] != '#')
      && All(Rest, value) && (value != [] ==> !Is(Blank, value[0]))
  }

  function PrintLine(l: Source): string {
    match l
    case Comment(text) => "#" + (text + "\n")
    case Empty => "\n"
    case Blanks(text) => text + "\n"
    case Entry(lead, section, gap1, property, gap2, value) =>
      lead + (section + (gap1 + (property + (gap2 + (value + "\n")))))
  }

  function PrintAll(ls: seq<Source>): string {
    if ls == [] then [] else PrintLine(ls[0]) + PrintAll(ls[1..])
  }

  type Strings = (string, string, string)

  function TriplesOf(ls: seq<Source>): seq<Strings> {
    if ls == [] then []
    else (if ls[0].Entry? then [(ls[0].section, ls[0].property, ls[0].value)] else []) + TriplesOf(ls[1..])
  }

  function Text(s: string, r: Range): string
    requires r.lo <= r.hi <= |s|
  {
    s[r.lo..r.hi]
  }

  function Read(s: string, t: Triple): Strings
    requires InOrder(t, 0, |s|)
  {
    (Text(s, t.section), Text(s, t.property), Text(s, t.value))
  }

  function ReadAll(s: string, ts: seq<Triple>): (r: seq<Strings>)
    requires forall k :: 0 <= k < |ts| ==> InOrder(ts[k], 0, |s|)
    ensures |r| == |ts| && forall k :: 0 <= k < |ts| ==> r[k] == Read(s, ts[k])
  {
    if ts == [] then [] else [Read(s, ts[0])] + ReadAll(s, ts[1..])
  }

  /** `x` stands at position `i` of `s`. */
  predicate At(s: string, i: nat, x: string) { i + |x| <= |s| && s[i..i + |x|] == x }

  lemma AtSplit(s: string, i: nat, x: string, y: string)
    requires At(s, i, x + y)
    ensures At(s, i, x) && At(s, i + |x|, y)
  {
    assert s[i..i + |x|] == (x + y)[..|x|];
    assert s[i + |x|..i + |x| + |y|] == (x + y)[|x|..];
  }

  lemma AtChar(s: string, i: nat, x: string, j: nat)
    requires At(s, i, x) && j < |x|
    ensures s[i + j] == x[j]
  {
    assert s[i + j] == s[i..i + |x|][j];
  }

  lemma RunOf(s: string, i: nat, k: Kind, x: string)
    requires At(s, i, x) && All(k, x)
    ensures forall n :: i <= n < i + |x| ==> Is(k, s[n])
  {
    forall n | i <= n < i + |x| ensures Is(k, s[n]) { AtChar(s, i, x, n - i); }
  }

  /** A run of `k` characters followed by one that is not ends exactly there. */
  lemma SpanAt(s: string, i: nat, k: Kind, x: string)
    requires At(s, i, x) && All(k, x) && i + |x| < |s| && !Is(k, s[i + |x|])
    ensures Span(s, i, k) == i + |x|
  {
    RunOf(s, i, k, x);
    SpanIs(s, i, k, i + |x|);
  }

  /** A gap: one blank that becomes the NUL, and perhaps more. */
  lemma GapAt(s: string, i: nat, x: string)
    requires At(s, i, x) && All(Blank, x) && x != [] && i + |x| < |s| && !Is(Blank, s[i + |x|])
    ensures Is(Blank, s[i]) && s[i] != NUL && Span(s, i + 1, Blank) == i + |x|
  {
    AtChar(s, i, x, 0);
    RunOf(s, i, Blank, x);
    SpanIs(s, i + 1, Blank, i + |x|);
  }

  /** If the six scans of `ParseTriple` end where they should, the line is taken. */
  lemma ScansGiveTriple(s: string, i: nat, a: nat, b: nat, c: nat, d: nat, e: nat, f: nat)
    requires Terminated(s) && i <= a < b < c < d < e <= f < |s| - 1
    requires Span(s, i, Blank) == a && Span(s, a, Word) == b && Span(s, b + 1, Blank) == c
    requires Span(s, c, Word) == d && Span(s, d + 1, Blank) == e && Span(s, e, Rest) == f
    requires s[a] != NUL && s[b] != NUL && s[c] != NUL && s[d] != NUL && s[e] != NUL && s[f] != NUL
    ensures ParseTriple(s, i) == Found(Triple(Range(a, b), Range(c, d), Range(e, f)), f + 1)
  {
    SectionTaken(s, i, a, b);
    PropertyTaken(s, Range(a, b), c, d);
    ValueTaken(s, Range(a, b), Range(c, d), e, f);
  }

  lemma WordScan(s: string, i: nat, lead: string, word: string)
    requires At(s, i, lead) && At(s, i + |lead|, word) && i + |lead| + |word| < |s| && Is(Blank, s[i + |lead| + |word|])
    requires All(Blank, lead) && All(Word, word) && word != []
    ensures Span(s, i, Blank) == i + |lead| && Span(s, i + |lead|, Word) == i + |lead| + |word|
    ensures Is(Word, s[i + |lead|])
  {
    AtChar(s, i + |lead|, word, 0);
    SpanAt(s, i, Blank, lead);
    SpanAt(s, i + |lead|, Word, word);
  }

  lemma ValueScan(s: string, e: nat, value: string)
    requires At(s, e, value) && e + |value| < |s| && s[e + |value|] == '\n'
    requires All(Rest, value) && (value != [] ==> !Is(Blank, value[0]))
    ensures Span(s, e, Rest) == e + |value| && s[e] != NUL && !Is(Blank, s[e])
  {
    if value != [] { AtChar(s, e, value, 0); }
    SpanAt(s, e, Rest, value);
  }

  lemma Split3(s: string, i: nat, x: string, y: string, z: string)
    requires At(s, i, x + (y + z))
    ensures At(s, i, x) && At(s, i + |x|, y) && At(s, i + |x| + |y|, z)
  {
    AtSplit(s, i, x, y + z);
    AtSplit(s, i + |x|, y, z);
  }

  /** The six pieces of an entry line, and the newline after them. */
  predicate Laid(s: string, l: Source, i: nat, a: nat, b: nat, c: nat, d: nat, e: nat, f: nat)
    requires l.Entry?
  {
    && a == i + |l.lead| && b == a + |l.section| && c == b + |l.gap1| && d == c + |l.property|
    && e == d + |l.gap2| && f == e + |l.value| && f < |s| && s[f] == '\n'
    && At(s, i, l.lead) && At(s, a, l.section) && At(s, b, l.gap1) && At(s, c, l.property)
    && At(s, d, l.gap2) && At(s, e, l.value)
  }

  lemma EntryLaid(s: string, l: Source, i: nat, a: nat, b: nat, c: nat, d: nat, e: nat, f: nat)
    requires l.Entry? && At(s, i, PrintLine(l))
    requires a == i + |l.lead| && b == a + |l.section| && c == b + |l.gap1| && d == c + |l.property|
    requires e == d + |l.gap2| && f == e + |l.value|
    ensures Laid(s, l, i, a, b, c, d, e, f) && i + |PrintLine(l)| == f + 1
  {
    var t2 := l.gap2 + (l.value + "\n");
    var t1 := l.gap1 + (l.property + t2);
    assert PrintLine(l) == l.lead + (l.section + t1);
    Split3(s, i, l.lead, l.section, t1);
    TailLaid(s, l, b, c, d, e, f, t2);
  }

  lemma TailLaid(s: string, l: Source, b: nat, c: nat, d: nat, e: nat, f: nat, t2: string)
    requires l.Entry? && t2 == l.gap2 + (l.value + "\n") && At(s, b, l.gap1 + (l.property + t2))
    requires c == b + |l.gap1| && d == c + |l.property| && e == d + |l.gap2| && f == e + |l.value|
    ensures At(s, b, l.gap1) && At(s, c, l.property) && At(s, d, l.gap2) && At(s, e, l.value) && f < |s| && s[f] == '\n'
  {
    Split3(s, b, l.gap1, l.property, t2);
    Split3(s, d, l.gap2, l.value, "\n");
    AtChar(s, f, "\n", 0);
  }

  lemma LaidFirst(s: string, l: Source, i: nat, a: nat, b: nat, c: nat, d: nat, e: nat, f: nat)
    requires l.Entry? && WellFormed(l) && Laid(s, l, i, a, b, c, d, e, f)
    ensures Span(s, i, Blank) == a && Span(s, a, Word) == b
    ensures s[a] != NUL && s[i] != '#' && s[i] != '\n' && s[i] != NUL
  {
    AtChar(s, b, l.gap1, 0);
    AtChar(s, a, l.section, 0);
    WordScan(s, i, l.lead, l.section);
    if l.lead != [] { AtChar(s, i, l.lead, 0); }
  }

  lemma LaidSecond(s: string, l: Source, i: nat, a: nat, b: nat, c: nat, d: nat, e: nat, f: nat)
    requires l.Entry? && WellFormed(l) && Laid(s, l, i, a, b, c, d, e, f)
    ensures Span(s, b + 1, Blank) == c && Span(s, c, Word) == d && s[b] != NUL && s[c] != NUL
  {
    AtChar(s, c, l.property, 0);
    AtChar(s, d, l.gap2, 0);
    GapAt(s, b, l.gap1);
    SpanAt(s, c, Word, l.property);
  }

  lemma LaidThird(s: string, l: Source, i: nat, a: nat, b: nat, c: nat, d: nat, e: nat, f: nat)
    requires l.Entry? && WellFormed(l) && Laid(s, l, i, a, b, c, d, e, f)
    ensures Span(s, d + 1, Blank) == e && Span(s, e, Rest) == f && s[d] != NUL && s[e] != NUL
  {
    ValueScan(s, e, l.value);
    GapAt(s, d, l.gap2);
  }

  /** An entry line is taken as its triple. */
  lemma LaidParses(s: string, l: Source, i: nat, a: nat, b: nat, c: nat, d: nat, e: nat, f: nat)
    requires Terminated(s) && l.Entry? && WellFormed(l) && Laid(s, l, i, a, b, c, d, e, f) && f + 1 < |s|
    ensures ParseAt(s, i) == Found(Triple(Range(a, b), Range(c, d), Range(e, f)), f + 1)
  {
    LaidFirst(s, l, i, a, b, c, d, e, f);
    LaidSecond(s, l, i, a, b, c, d, e, f);
    LaidThird(s, l, i, a, b, c, d, e, f);
    ScansGiveTriple(s, i, a, b, c, d, e, f);
  }

  lemma LaidReads(s: string, l: Source, i: nat, a: nat, b: nat, c: nat, d: nat, e: nat, f: nat)
    requires l.Entry? && WellFormed(l) && Laid(s, l, i, a, b, c, d, e, f)
    ensures var t := Triple(Range(a, b), Range(c, d), Range(e, f));
      InOrder(t, 0, |s|) && Read(s, t) == (l.section, l.property, l.value)
  {
  }

  lemma EntryParses(s: string, l: Source, i: nat)
    requires Terminated(s) && l.Entry? && WellFormed(l) && At(s, i, PrintLine(l)) && i + |PrintLine(l)| < |s|
    ensures var p := ParseAt(s, i);
      p.Found? && p.next == i + |PrintLine(l)| && Read(s, p.triple) == (l.section, l.property, l.value)
  {
    var a := i + |l.lead|;
    var b := a + |l.section|;
    var c := b + |l.gap1|;
    var d := c + |l.property|;
    var e := d + |l.gap2|;
    EntryLaid(s, l, i, a, b, c, d, e, e + |l.value|);
    LaidParses(s, l, i, a, b, c, d, e, e + |l.value|);
    LaidReads(s, l, i, a, b, c, d, e, e + |l.value|);
  }

  lemma OtherLineParses(s: string, l: Source, i: nat)
    requires Terminated(s) && (l.Comment? || l.Empty?) && WellFormed(l) && At(s, i, PrintLine(l)) && i + |PrintLine(l)| < |s|
    ensures ParseAt(s, i) == Skip(i + |PrintLine(l)|)
  {
    match l
    case Comment(text) =>
      AtSplit(s, i, "#", text + "\n");
      AtSplit(s, i + 1, text, "\n");
      AtChar(s, i, "#", 0);
      AtChar(s, i + 1 + |text|, "\n", 0);
      RunOf(s, i + 1, Rest, text);
      SpanIs(s, i, Rest, i + 1 + |text|);
    case Empty =>
      AtChar(s, i, "\n", 0);
  }

  /** The parser takes the newline of the line at `i` for a word: it ends with a triple whose section is
      empty, or cut off by the end of the text with something left in the index. */
  predicate Swallows(s: string, i: nat)
    requires Terminated(s) && i < |s|
  {
    var p := ParseAt(s, i);
    (p.Found? && p.triple.section.lo == p.triple.section.hi) || (p.Stop? && p.item != NO_ITEM)
  }

  /** A line of blanks only swallows what follows it. */
  lemma BlankLineParses(s: string, text: string, i: nat)
    requires Terminated(s) && All(Blank, text) && text != [] && At(s, i, text + "\n") && i + |text| + 1 < |s|
    ensures Swallows(s, i)
  {
    var a := i + |text|;
    AtSplit(s, i, text, "\n");
    AtChar(s, i, text, 0);
    AtChar(s, a, "\n", 0);
    SpanAt(s, i, Blank, text);
    SpanIs(s, a, Word, a);
    SectionTaken(s, i, a, a);
    CutOffLeavesItem(s, Range(a, a));
  }

  /** What the parser makes of line `l` at `i`, the next line being at `next`. */
  predicate Takes(s: string, i: nat, l: Source, next: nat)
    requires Terminated(s) && i < |s|
  {
    var p := ParseAt(s, i);
    if l.Entry? then p.Found? && p.next == next && Read(s, p.triple) == (l.section, l.property, l.value)
    else if l.Blanks? then Swallows(s, i)
    else p == Skip(next)
  }

  /** One line: the parser moves to the line after it, taking its triple if it is an entry; but a line of
      blanks swallows what follows. */
  lemma LineParses(s: string, l: Source, i: nat)
    requires Terminated(s) && WellFormed(l) && At(s, i, PrintLine(l)) && i + |PrintLine(l)| < |s|
    ensures Takes(s, i, l, i + |PrintLine(l)|)
  {
    match l
    case Entry(_, _, _, _, _, _) => EntryParses(s, l, i);
    case Blanks(text) => BlankLineParses(s, text, i);
    case _ => OtherLineParses(s, l, i);
  }

  predicate AllWellFormed(ls: seq<Source>) { forall k :: 0 <= k < |ls| ==> WellFormed(ls[k]) }

  function First<T>(q: seq<T>, m: nat): seq<T> { if |q| <= m then q else q[..m] }

  /** With room for `m` triples, the scan gives those of the lines `ls` and leaves nothing else. */
  predicate Gives(s: string, p: Parsed, ls: seq<Source>, m: nat) {
    && (forall k :: 0 <= k < |p.triples| ==> InOrder(p.triples[k], 0, |s|))
    && ReadAll(s, p.triples) == First(TriplesOf(ls), m) && p.item == NO_ITEM
  }

  /** With `n` entries taken before `ls`, no line of blanks comes before the 64th entry. */
  predicate BlanksLate(ls: seq<Source>, n: nat) {
    ls == [] || n >= INDEX_SIZE
    || (!ls[0].Blanks? && BlanksLate(ls[1..], if ls[0].Entry? then n + 1 else n))
  }

  /** Lines `ls` stand at `i` and nothing but the final NUL follows. */
  predicate LinesAt(s: string, i: nat, ls: seq<Source>) {
    Terminated(s) && AllWellFormed(ls) && At(s, i, PrintAll(ls)) && i + |PrintAll(ls)| == |s| - 1
  }

  lemma SplitText(s: string, i: nat, line: string, rest: string)
    requires At(s, i, line + rest) && i + |line + rest| == |s| - 1 && line != []
    ensures At(s, i, line) && i < i + |line| < |s| && At(s, i + |line|, rest) && i + |line| + |rest| == |s| - 1
  {
    AtSplit(s, i, line, rest);
  }

  lemma LineNonEmpty(l: Source)
    ensures PrintLine(l) != []
  {
  }

  lemma FirstLine(s: string, i: nat, ls: seq<Source>) returns (next: nat)
    requires LinesAt(s, i, ls) && ls != []
    ensures i < next && LinesAt(s, next, ls[1..]) && Takes(s, i, ls[0], next)
  {
    next := LineEnd(s, i, PrintLine(ls[0]), PrintAll(ls[1..]), ls[0]);
    assert AllWellFormed(ls[1..]);
  }

  lemma LineEnd(s: string, i: nat, line: string, rest: string, l: Source) returns (next: nat)
    requires Terminated(s) && WellFormed(l) && line == PrintLine(l)
    requires At(s, i, line + rest) && i + |line + rest| == |s| - 1
    ensures i < next < |s| && At(s, next, rest) && next + |rest| == |s| - 1 && Takes(s, i, l, next)
  {
    LineNonEmpty(l);
    SplitText(s, i, line, rest);
    LineParses(s, l, i);
    next := i + |line|;
  }

  /** `at[k]` is where line `k` starts; the last element is the final NUL. */
  ghost predicate Starts(s: string, at: seq<nat>, ls: seq<Source>)
    requires Terminated(s)
  {
    && |at| == |ls| + 1 && at[|ls|] == |s| - 1
    && (forall k :: 0 <= k <= |ls| ==> at[k] < |s|)
    && forall k :: 0 <= k < |ls| ==> at[k] < at[k + 1] && Takes(s, at[k], ls[k], at[k + 1])
  }

  lemma {:induction false} FindStarts(s: string, i: nat, ls: seq<Source>) returns (at: seq<nat>)
    requires LinesAt(s, i, ls)
    ensures Starts(s, at, ls) && at[0] == i
    decreases |ls|
  {
    if ls == [] {
      at := [i];
    } else {
      var next := FirstLine(s, i, ls);
      var rest := FindStarts(s, next, ls[1..]);
      at := [i] + rest;
      StartsCons(s, i, rest, ls);
    }
  }

  lemma StartsCons(s: string, i: nat, rest: seq<nat>, ls: seq<Source>)
    requires Terminated(s) && ls != [] && Starts(s, rest, ls[1..]) && i < rest[0] && Takes(s, i, ls[0], rest[0])
    ensures Starts(s, [i] + rest, ls)
  {
  }

  lemma StartsTail(s: string, at: seq<nat>, ls: seq<Source>)
    requires Terminated(s) && Starts(s, at, ls) && ls != []
    ensures Starts(s, at[1..], ls[1..]) && at[0] < at[1] < |s| && Takes(s, at[0], ls[0], at[1])
  {
  }

  lemma {:induction false} LinesParse(s: string, at: seq<nat>, n: nat, ls: seq<Source>)
    requires Terminated(s) && AllNamed(ls) && Starts(s, at, ls) && n < INDEX_SIZE
    ensures Gives(s, ParseFrom(s, at[0], n), ls, INDEX_SIZE - n) <==> BlanksLate(ls, n)
    decreases |ls|
  {
    if ls == [] {
      StepEnd(s, at[0], n);
    } else {
      StartsTail(s, at, ls);
      var m := if ls[0].Entry? then n + 1 else n;
      if m < INDEX_SIZE { LinesParse(s, at[1..], m, ls[1..]); }
      LineGives(s, at[0], n, ls, at[1], m);
    }
  }

  lemma LineGives(s: string, i: nat, n: nat, ls: seq<Source>, next: nat, m: nat)
    requires Terminated(s) && i < next < |s| && n < INDEX_SIZE && ls != [] && Takes(s, i, ls[0], next)
    requires m == (if ls[0].Entry? then n + 1 else n) && AllNamed(ls)
    requires m < INDEX_SIZE ==> (Gives(s, ParseFrom(s, next, m), ls[1..], INDEX_SIZE - m) <==> BlanksLate(ls[1..], m))
    ensures Gives(s, ParseFrom(s, i, n), ls, INDEX_SIZE - n) <==> BlanksLate(ls, n)
  {
    if ls[0].Entry? {
      EntryLine(s, i, n, ls, if m == INDEX_SIZE then Parsed([], NO_ITEM, {}) else ParseFrom(s, next, m));
    } else if ls[0].Blanks? {
      SwallowedLine(s, i, n, ls);
    } else {
      StepSkip(s, i, n);
      assert TriplesOf(ls) == TriplesOf(ls[1..]);
    }
  }

  lemma EntryLine(s: string, i: nat, n: nat, ls: seq<Source>, rest: Parsed)
    requires Terminated(s) && i < |s| && n < INDEX_SIZE && ls != [] && ls[0].Entry? && ParseAt(s, i).Found?
    requires rest == if n + 1 == INDEX_SIZE then Parsed([], NO_ITEM, {}) else ParseFrom(s, ParseAt(s, i).next, n + 1)
    requires Read(s, ParseAt(s, i).triple) == (ls[0].section, ls[0].property, ls[0].value)
    ensures Gives(s, ParseFrom(s, i, n), ls, INDEX_SIZE - n) <==> Gives(s, rest, ls[1..], INDEX_SIZE - n - 1)
  {
    StepFound(s, i, n);
    GivesCons(s, ParseAt(s, i).triple, rest, ls, INDEX_SIZE - n);
  }

  lemma FirstCons<T>(x: T, q: seq<T>, m: nat)
    requires m > 0
    ensures First([x] + q, m) == [x] + First(q, m - 1)
  {
  }

  lemma SameTail<T>(x: T, a: seq<T>, b: seq<T>)
    ensures [x] + a == [x] + b <==> a == b
  {
    assert ([x] + a)[1..] == a && ([x] + b)[1..] == b;
  }

  lemma GivesCons(s: string, t: Triple, rest: Parsed, ls: seq<Source>, m: nat)
    requires ls != [] && ls[0].Entry? && InOrder(t, 0, |s|) && m > 0
    requires Read(s, t) == (ls[0].section, ls[0].property, ls[0].value)
    requires forall k :: 0 <= k < |rest.triples| ==> InOrder(rest.triples[k], 0, |s|)
    ensures Gives(s, Cons(t, rest), ls, m) <==> Gives(s, rest, ls[1..], m - 1)
  {
    var ts := Cons(t, rest).triples;
    assert ts[1..] == rest.triples;
    assert ReadAll(s, ts) == [Read(s, t)] + ReadAll(s, rest.triples);
    assert TriplesOf(ls) == [Read(s, t)] + TriplesOf(ls[1..]);
    FirstCons(Read(s, t), TriplesOf(ls[1..]), m);
    SameTail(Read(s, t), ReadAll(s, rest.triples), First(TriplesOf(ls[1..]), m - 1));
  }

  /** Every entry names a section. */
  predicate AllNamed(ls: seq<Source>) { forall k :: 0 <= k < |ls| && ls[k].Entry? ==> ls[k].section != [] }

  lemma {:induction false} SectionsNonEmpty(ls: seq<Source>)
    requires AllNamed(ls)
    ensures forall k :: 0 <= k < |TriplesOf(ls)| ==> TriplesOf(ls)[k].0 != []
  {
    if ls != [] { SectionsNonEmpty(ls[1..]); }
  }

  lemma SwallowedLine(s: string, i: nat, n: nat, ls: seq<Source>)
    requires Terminated(s) && i < |s| && n < INDEX_SIZE && AllNamed(ls) && Swallows(s, i)
    ensures !Gives(s, ParseFrom(s, i, n), ls, INDEX_SIZE - n)
  {
    SectionsNonEmpty(ls);
    var p := ParseFrom(s, i, n);
    if ParseAt(s, i).Stop? {
      StepStop(s, i, n);
    } else {
      StepFound(s, i, n);
      assert p.triples[0] == ParseAt(s, i).triple;
      assert ReadAll(s, p.triples)[0].0 == [];
    }
  }

  /** Well-formed triples printed one a line, among comments, empty lines and lines of blanks, are parsed to
      exactly those triples in order (the first 64, if there are more) and nothing else, exactly when no
      line of blanks comes before the 64th entry. */
  lemma ParserRoundTrip(ls: seq<Source>)
    requires AllWellFormed(ls)
    ensures var s := PrintAll(ls) + [NUL];
      ReadAll(s, ParseFrom(s, 0, 0).triples) == First(TriplesOf(ls), INDEX_SIZE) && ParseFrom(s, 0, 0).item == NO_ITEM
      <==> BlanksLate(ls, 0)
  {
    var at := FindStarts(PrintAll(ls) + [NUL], 0, ls);
    LinesParse(PrintAll(ls) + [NUL], at, 0, ls);
  }

  /** A line holding only a tab: its newline becomes an empty section, and the entry after it is lost. */
  lemma BlankLineInput()
    ensures var ls := [Blanks("\t"), Entry("", "A", " ", "B", " ", "C")];
      && AllWellFormed(ls) && TriplesOf(ls) == [("A", "B", "C")]
      && var s := PrintAll(ls) + [NUL]; ReadAll(s, ParseFrom(s, 0, 0).triples) == [("", "A", "B C")]
  {
    var ls := [Blanks("\t"), Entry("", "A", " ", "B", " ", "C")];
    PrintTwo(ls[0], ls[1]);
    TabText(ls[0], ls[1]);
    TabParses(PrintAll(ls) + [NUL]);
  }

  lemma PrintTwo(a: Source, b: Source)
    ensures PrintAll([a, b]) == PrintLine(a) + PrintLine(b)
    ensures TriplesOf([a, b]) == TriplesOf([a]) + TriplesOf([b])
  {
    assert [a, b][1..] == [b] && PrintAll([b]) == PrintLine(b) + PrintAll([]);
  }

  lemma TabText(a: Source, b: Source)
    requires a == Blanks("\t") && b == Entry("", "A", " ", "B", " ", "C")
    ensures PrintLine(a) + PrintLine(b) + [NUL] == TAB_TEXT && WellFormed(a) && WellFormed(b)
    ensures TriplesOf([a]) == [] && TriplesOf([b]) == [("A", "B", "C")]
  {
    assert PrintLine(b) == "A B C\n";
  }

  const TAB_TEXT: string := "\t\nA B C\n\0"

  const TAB_TRIPLE: Triple := Triple(Range(1, 1), Range(2, 3), Range(4, 7))

  lemma TabParses(s: string)
    requires s == TAB_TEXT
    ensures ReadAll(s, ParseFrom(s, 0, 0).triples) == [("", "A", "B C")]
  {
    TabScans(s);
    StepFound(s, 0, 0);
    StepEnd(s, 8, 1);
    assert ParseFrom(s, 0, 0).triples == [TAB_TRIPLE];
    TabReads(s, TAB_TRIPLE);
    assert ReadAll(s, [TAB_TRIPLE]) == [Read(s, TAB_TRIPLE)];
  }

  lemma TabScans(s: string)
    requires s == TAB_TEXT
    ensures ParseAt(s, 0) == Found(TAB_TRIPLE, 8)
  {
    SpanIs(s, 0, Blank, 1);
    SpanIs(s, 1, Word, 1);
    SpanIs(s, 2, Blank, 2);
    SpanIs(s, 2, Word, 3);
    SpanIs(s, 4, Blank, 4);
    SpanIs(s, 4, Rest, 7);
    SectionTaken(s, 0, 1, 1);
    PropertyTaken(s, Range(1, 1), 2, 3);
    ValueTaken(s, Range(1, 1), Range(2, 3), 4, 7);
  }

  lemma TabReads(s: string, t: Triple)
    requires s == TAB_TEXT && t == TAB_TRIPLE
    ensures InOrder(t, 0, |s|) && Read(s, t) == ("", "A", "B C")
  {
    assert s[1..1] == "" && s[2..3] == "A" && s[4..7] == "B C";
  }
}

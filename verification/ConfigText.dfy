/** The grammar that `config_parse` recognises, as functions on the text, and the round trip. */
module ConfigText {
  import opened Base

  const NUL: char := '\0'
  const INDEX_SIZE: nat := 64

  /** The character classes of the scanning loops. */
  datatype Kind = Blank | Word | Rest

  predicate Is(k: Kind, c: char) {
    match k
    case Blank => c == ' ' || c == '\t'
    case Word => c != NUL && c != ' ' && c != '\t' && c != '\n'
    case Rest => c != NUL && c != '\n'
  }

  /** End of the maximal run of `k` characters from `i`. */
  function Span(s: string, i: nat, k: Kind): (r: nat)
    requires i <= |s|
    ensures i <= r <= |s| && (forall j :: i <= j < r ==> Is(k, s[j])) && (r < |s| ==> !Is(k, s[r]))
    decreases |s| - i
  {
    if i < |s| && Is(k, s[i]) then Span(s, i + 1, k) else i
  }

  lemma SpanIs(s: string, i: nat, k: Kind, r: nat)
    requires i <= r < |s| && (forall j :: i <= j < r ==> Is(k, s[j])) && !Is(k, s[r])
    ensures Span(s, i, k) == r
    decreases r - i
  {
  }

  /** A C string buffer: there is a NUL at its end (perhaps earlier ones too). */
  predicate Terminated(s: string) { |s| > 0 && s[|s| - 1] == NUL }

  lemma SpanStops(s: string, i: nat, k: Kind)
    requires Terminated(s) && i < |s|
    ensures Span(s, i, k) < |s|
  {
  }

  /** An entry of `config_index`: three pointers into the buffer, null when unset. */
  datatype Item = Item(section: Option<nat>, property: Option<nat>, value: Option<nat>)

  const NO_ITEM := Item(None, None, None)

  datatype Range = Range(lo: nat, hi: nat)

  datatype Triple = Triple(section: Range, property: Range, value: Range)

  /** One turn of the line loop: skip to `next`; a triple and then `next`; or return, leaving `item` in
      the index. `marks` are the positions overwritten with NUL. */
  datatype Line =
    | Skip(next: nat)
    | Found(triple: Triple, next: nat)
    | Stop(item: Item, marks: set<nat>)

  function Marks(t: Triple): set<nat> { {t.section.hi, t.property.hi, t.value.hi} }

  function ItemOf(t: Triple): Item { Item(Some(t.section.lo), Some(t.property.lo), Some(t.value.lo)) }

  function ParseAt(s: string, i: nat): (l: Line)
    requires Terminated(s) && i < |s|
    ensures l.Skip? ==> i < l.next < |s|
    ensures l.Found? ==> i < l.next < |s| && InOrder(l.triple, i, l.next)
    ensures l.Stop? ==> MarksFrom(l.marks, i, |s|)
  {
    SpanStops(s, i, Rest);
    if s[i] == '#' then
      var e := Span(s, i, Rest);
      Skip(if s[e] != NUL then NewLine(s, e) else e)
    else if s[i] == '\n' then Skip(NewLine(s, i))
    else if s[i] == NUL then Stop(NO_ITEM, {})
    else ParseTriple(s, i)
  }

  /** The position after a newline, which is never the end of the buffer. */
  function NewLine(s: string, e: nat): (n: nat)
    requires Terminated(s) && e < |s| && s[e] != NUL
    ensures n == e + 1 < |s|
  {
    e + 1
  }

  function ParseTriple(s: string, i: nat): (l: Line)
    requires Terminated(s) && i < |s|
    ensures l.Found? ==> i < l.next < |s| && InOrder(l.triple, i, l.next)
    ensures !l.Skip? && (l.Stop? ==> MarksFrom(l.marks, i, |s|))
  {
    SpanStops(s, i, Blank);
    var a := Span(s, i, Blank);
    SpanStops(s, a, Word);
    var b := Span(s, a, Word);
    if s[a] == NUL then Stop(NO_ITEM, {})
    else if s[b] == NUL then Stop(NO_ITEM, {})
    else ParseProperty(s, Range(a, b))
  }

  function ParseProperty(s: string, sec: Range): (l: Line)
    requires Terminated(s) && sec.lo <= sec.hi < |s| && s[sec.hi] != NUL
    ensures l.Found? ==> sec.hi < l.next < |s| && l.triple.section == sec && InOrder(l.triple, sec.lo, l.next)
    ensures !l.Skip? && (l.Stop? ==> MarksFrom(l.marks, sec.lo, |s|))
  {
    SpanStops(s, NewLine(s, sec.hi), Blank);
    var c := Span(s, sec.hi + 1, Blank);
    SpanStops(s, c, Word);
    var d := Span(s, c, Word);
    if s[c] == NUL then Stop(Item(Some(sec.lo), None, None), {sec.hi})
    else if s[d] == NUL then Stop(Item(None, Some(c), None), {sec.hi})
    else ParseValue(s, sec, Range(c, d))
  }

  function ParseValue(s: string, sec: Range, prop: Range): (l: Line)
    requires Terminated(s) && sec.lo <= sec.hi < prop.lo <= prop.hi < |s| && s[prop.hi] != NUL
    ensures l.Found? ==> prop.hi < l.next < |s| && l.triple.section == sec && l.triple.property == prop
                         && InOrder(l.triple, sec.lo, l.next)
    ensures !l.Skip? && (l.Stop? ==> MarksFrom(l.marks, sec.lo, |s|))
  {
    SpanStops(s, NewLine(s, prop.hi), Blank);
    var e := Span(s, prop.hi + 1, Blank);
    SpanStops(s, e, Rest);
    var f := Span(s, e, Rest);
    if s[e] == NUL then Stop(Item(Some(sec.lo), Some(prop.lo), None), {sec.hi, prop.hi})
    else if s[f] == NUL then Stop(Item(None, Some(prop.lo), Some(e)), {sec.hi, prop.hi})
    else Found(Triple(sec, prop, Range(e, f)), NewLine(s, f))
  }

  lemma SectionTaken(s: string, i: nat, a: nat, b: nat)
    requires Terminated(s) && i <= a <= b < |s| && Span(s, i, Blank) == a && Span(s, a, Word) == b
    requires s[a] != NUL && s[b] != NUL
    ensures ParseTriple(s, i) == ParseProperty(s, Range(a, b))
  {
  }

  lemma PropertyTaken(s: string, sec: Range, c: nat, d: nat)
    requires Terminated(s) && sec.lo <= sec.hi < c <= d < |s| && s[sec.hi] != NUL
    requires Span(s, sec.hi + 1, Blank) == c && Span(s, c, Word) == d && s[c] != NUL && s[d] != NUL
    ensures ParseProperty(s, sec) == ParseValue(s, sec, Range(c, d))
  {
  }

  lemma ValueTaken(s: string, sec: Range, prop: Range, e: nat, f: nat)
    requires Terminated(s) && sec.lo <= sec.hi < prop.lo <= prop.hi < e <= f < |s| - 1 && s[prop.hi] != NUL
    requires Span(s, prop.hi + 1, Blank) == e && Span(s, e, Rest) == f && s[e] != NUL && s[f] != NUL
    ensures ParseValue(s, sec, prop) == Found(Triple(sec, prop, Range(e, f)), f + 1)
  {
  }

  /** A line cut off by the end of the text leaves something in the index, once it has a section. */
  lemma CutOffLeavesItem(s: string, sec: Range)
    requires Terminated(s) && sec.lo <= sec.hi < |s| && s[sec.hi] != NUL
    ensures ParseProperty(s, sec).Stop? ==> ParseProperty(s, sec).item != NO_ITEM
  {
  }

  predicate InOrder(t: Triple, from: nat, next: nat) {
    from <= t.section.lo <= t.section.hi < t.property.lo <= t.property.hi < t.value.lo <= t.value.hi < next
  }

  /** No string of the triple contains a NUL. */
  predicate Plain(s: string, t: Triple)
    requires InOrder(t, 0, |s|)
  {
    NoNul(s, t.section) && NoNul(s, t.property) && NoNul(s, t.value)
  }

  predicate NoNul(s: string, r: Range)
    requires r.hi <= |s|
  {
    forall j :: r.lo <= j < r.hi ==> s[j] != NUL
  }

  /** The character run `r` survives the marks and is ended by one of them. */
  predicate Intact(r: Range, marks: set<nat>) {
    r.hi in marks && forall j :: r.lo <= j < r.hi ==> j !in marks
  }

  predicate AllIntact(t: Triple, marks: set<nat>) {
    Intact(t.section, marks) && Intact(t.property, marks) && Intact(t.value, marks)
  }

  predicate MarksFrom(marks: set<nat>, i: nat, end: nat) { forall m :: m in marks ==> i <= m < end }

  lemma MarksApart(t: Triple, i: nat, next: nat, rest: set<nat>, end: nat)
    requires InOrder(t, i, next) && MarksFrom(rest, next, end)
    ensures AllIntact(t, Marks(t) + rest)
  {
  }

  lemma LaterIntact(t: Triple, u: Triple, i: nat, next: nat, rest: set<nat>, end: nat)
    requires InOrder(t, i, next) && InOrder(u, next, end) && AllIntact(u, rest)
    ensures AllIntact(u, Marks(t) + rest)
  {
  }

  datatype Parsed = Parsed(triples: seq<Triple>, item: Item, marks: set<nat>)

  /** All marks and strings lie from `i` on, and no mark damages a string. */
  predicate Undamaged(p: Parsed, i: nat, end: nat) {
    && MarksFrom(p.marks, i, end)
    && forall k :: 0 <= k < |p.triples| ==> InOrder(p.triples[k], i, end) && AllIntact(p.triples[k], p.marks)
  }

  function Cons(t: Triple, rest: Parsed): Parsed {
    Parsed([t] + rest.triples, rest.item, Marks(t) + rest.marks)
  }

  lemma ConsUndamaged(t: Triple, rest: Parsed, i: nat, next: nat, end: nat)
    requires InOrder(t, i, next) && Undamaged(rest, next, end) && next <= end
    ensures Undamaged(Cons(t, rest), i, end)
  {
    var p := Cons(t, rest);
    MarksApart(t, i, next, rest.marks, end);
    forall k | 0 <= k < |p.triples| ensures InOrder(p.triples[k], i, end) && AllIntact(p.triples[k], p.marks) {
      if k > 0 { LaterIntact(t, rest.triples[k - 1], i, next, rest.marks, end); }
    }
  }

  /** The whole scan from position `i` with `n` entries already taken. It terminates, since every turn
      moves on, and no NUL it writes damages a string it recorded. */
  function ParseFrom(s: string, i: nat, n: nat): (p: Parsed)
    requires Terminated(s) && i < |s| && n < INDEX_SIZE
    ensures n + |p.triples| <= INDEX_SIZE && Undamaged(p, i, |s|)
    decreases |s| - i
  {
    match ParseAt(s, i)
    case Skip(next) => ParseFrom(s, next, n)
    case Stop(item, marks) => Parsed([], item, marks)
    case Found(t, next) =>
      var rest := if n + 1 == INDEX_SIZE then Parsed([], NO_ITEM, {}) else ParseFrom(s, next, n + 1);
      ConsUndamaged(t, rest, i, next, |s|);
      Cons(t, rest)
  }

  // ---------------------------------------------------------------- one turn at a time

  lemma StepFound(s: string, i: nat, n: nat)
    requires Terminated(s) && i < |s| && n < INDEX_SIZE && ParseAt(s, i).Found?
    ensures ParseFrom(s, i, n) == Cons(ParseAt(s, i).triple,
      if n + 1 == INDEX_SIZE then Parsed([], NO_ITEM, {}) else ParseFrom(s, ParseAt(s, i).next, n + 1))
  {
  }

  /** The scan after the triple found at `i`. */
  lemma FoundRest(s: string, i: nat, n: nat) returns (rest: Parsed)
    requires Terminated(s) && i < |s| && n < INDEX_SIZE && ParseAt(s, i).Found?
    ensures ParseFrom(s, i, n) == Cons(ParseAt(s, i).triple, rest) && InOrder(ParseAt(s, i).triple, i, ParseAt(s, i).next)
    ensures n + 1 == INDEX_SIZE ==> rest == Parsed([], NO_ITEM, {})
    ensures n + 1 < INDEX_SIZE ==> rest == ParseFrom(s, ParseAt(s, i).next, n + 1)
  {
    StepFound(s, i, n);
    rest := if n + 1 == INDEX_SIZE then Parsed([], NO_ITEM, {}) else ParseFrom(s, ParseAt(s, i).next, n + 1);
  }

  lemma StepSkip(s: string, i: nat, n: nat)
    requires Terminated(s) && i < |s| && n < INDEX_SIZE && ParseAt(s, i).Skip?
    ensures ParseFrom(s, i, n) == ParseFrom(s, ParseAt(s, i).next, n)
  {
  }

  lemma StepEnd(s: string, i: nat, n: nat)
    requires Terminated(s) && i == |s| - 1 && n < INDEX_SIZE
    ensures ParseFrom(s, i, n) == Parsed([], NO_ITEM, {})
  {
  }

  lemma StepStop(s: string, i: nat, n: nat)
    requires Terminated(s) && i < |s| && n < INDEX_SIZE && ParseAt(s, i).Stop?
    ensures ParseFrom(s, i, n) == Parsed([], ParseAt(s, i).item, ParseAt(s, i).marks)
  {
  }

  predicate PlainAll(s: string, ts: seq<Triple>) {
    forall k :: 0 <= k < |ts| ==> InOrder(ts[k], 0, |s|) && Plain(s, ts[k])
  }

  lemma PlainCons(s: string, t: Triple, rest: Parsed)
    requires InOrder(t, 0, |s|) && Plain(s, t) && PlainAll(s, rest.triples)
    ensures PlainAll(s, Cons(t, rest).triples)
  {
  }

  lemma FoundPlain(s: string, i: nat)
    requires Terminated(s) && i < |s| && ParseAt(s, i).Found?
    ensures InOrder(ParseAt(s, i).triple, 0, |s|) && Plain(s, ParseAt(s, i).triple)
  {
  }

  lemma {:induction false} AllPlain(s: string, i: nat, n: nat)
    requires Terminated(s) && i < |s| && n < INDEX_SIZE
    ensures PlainAll(s, ParseFrom(s, i, n).triples)
    decreases |s| - i
  {
    if ParseAt(s, i).Skip? {
      StepSkip(s, i, n);
      AllPlain(s, ParseAt(s, i).next, n);
    } else if ParseAt(s, i).Stop? {
      StepStop(s, i, n);
    } else {
      FoundAllPlain(s, i, n, ParseAt(s, i).triple, ParseAt(s, i).next);
    }
  }

  lemma {:induction false} FoundAllPlain(s: string, i: nat, n: nat, t: Triple, next: nat)
    requires Terminated(s) && i < next < |s| && n < INDEX_SIZE && ParseAt(s, i) == Found(t, next)
    ensures PlainAll(s, ParseFrom(s, i, n).triples)
    decreases |s| - i, 0
  {
    StepFound(s, i, n);
    FoundPlain(s, i);
    if n + 1 == INDEX_SIZE {
      PlainCons(s, t, Parsed([], NO_ITEM, {}));
    } else {
      AllPlain(s, next, n + 1);
      PlainCons(s, t, ParseFrom(s, next, n + 1));
    }
  }

  // ---------------------------------------------------------------- what a cut-off line leaves

  predicate Inside(item: Item, end: nat) {
    (item.section.Some? ==> item.section.value < end) && (item.property.Some? ==> item.property.value < end)
  }

  lemma StopInside(s: string, i: nat)
    requires Terminated(s) && i < |s| && ParseAt(s, i).Stop?
    ensures Inside(ParseAt(s, i).item, |s|)
  {
  }

  /** With `n` entries taken before: the leftover item points into the text, and a full index has none. */
  predicate Fits(p: Parsed, n: nat, end: nat) { Inside(p.item, end) && (n + |p.triples| == INDEX_SIZE ==> p.item == NO_ITEM) }

  lemma {:induction false} ItemFits(s: string, i: nat, n: nat)
    requires Terminated(s) && i < |s| && n < INDEX_SIZE
    ensures Fits(ParseFrom(s, i, n), n, |s|)
    decreases |s| - i, 0
  {
    if ParseAt(s, i).Skip? {
      StepSkip(s, i, n);
      ItemFits(s, ParseAt(s, i).next, n);
    } else if ParseAt(s, i).Stop? {
      StepStop(s, i, n);
      StopInside(s, i);
    } else {
      var rest := FoundRest(s, i, n);
      RestFits(s, ParseAt(s, i).next, n, rest);
      ConsFits(ParseAt(s, i).triple, rest, n, |s|);
    }
  }

  lemma {:induction false} RestFits(s: string, next: nat, n: nat, rest: Parsed)
    requires Terminated(s) && next < |s| && n < INDEX_SIZE
    requires rest == if n + 1 == INDEX_SIZE then Parsed([], NO_ITEM, {}) else ParseFrom(s, next, n + 1)
    ensures Fits(rest, n + 1, |s|)
    decreases |s| - next, 1
  {
    if n + 1 < INDEX_SIZE { ItemFits(s, next, n + 1); }
  }

  lemma ConsFits(t: Triple, rest: Parsed, n: nat, end: nat)
    requires Fits(rest, n + 1, end)
    ensures Fits(Cons(t, rest), n, end)
  {
  }
}

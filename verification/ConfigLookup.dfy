/** Looking a key up: `config_read` and its prefix-tolerant string comparison. */
module ConfigLookup {
  import opened Base
  import opened ConfigText
  import opened ConfigRoundTrip
  import opened ConfigMemory

  // ---------------------------------------------------------------- the comparison

  /** The file's `strcmp` answers 0 when one string is a prefix of the other. */
  predicate PrefixRelated(a: string, b: string) { a <= b || b <= a }

  method Strcmp(a: string, b: string) returns (r: int)
    ensures r == if PrefixRelated(a, b) then 0 else 1
  {
    var i := 0;
    while i < |a| && i < |b|
      invariant 0 <= i <= |a| && i <= |b| && a[..i] == b[..i]
    {
      if a[i] != b[i] {
        assert a[i] != b[i];
        return 1;
      }
      i := i + 1;
    }
    return 0;
  }

  // ---------------------------------------------------------------- the lookup

  type Key = (string, string)

  predicate Loose(k: Key, q: Key) { PrefixRelated(k.0, q.0) && PrefixRelated(k.1, q.1) }

  /** Index of the first key that matches `q` loosely, or the number of keys. */
  function FirstLoose(keys: seq<Key>, q: Key): (i: nat)
    ensures i <= |keys| && (i < |keys| ==> Loose(keys[i], q)) && forall k :: 0 <= k < i ==> !Loose(keys[k], q)
  {
    if keys == [] || Loose(keys[0], q) then 0 else 1 + FirstLoose(keys[1..], q)
  }

  /** Index of the first key equal to `q`, or the number of keys. */
  function FirstExact(keys: seq<Key>, q: Key): (i: nat)
    ensures i <= |keys| && (i < |keys| ==> keys[i] == q) && forall k :: 0 <= k < i ==> keys[k] != q
  {
    if keys == [] || keys[0] == q then 0 else 1 + FirstExact(keys[1..], q)
  }

  lemma {:induction false} FirstLooseIs(keys: seq<Key>, q: Key, i: nat)
    requires i <= |keys| && (i < |keys| ==> Loose(keys[i], q)) && forall k :: 0 <= k < i ==> !Loose(keys[k], q)
    ensures FirstLoose(keys, q) == i
  {
  }

  /** The lookup is the exact first-match lookup exactly when no key before the exact match (or no key at
      all, when there is none) matches loosely. */
  lemma LookupIsExact(keys: seq<Key>, q: Key)
    ensures FirstLoose(keys, q) == FirstExact(keys, q) <==> forall k :: 0 <= k < FirstExact(keys, q) ==> !Loose(keys[k], q)
  {
  }

  /** No stored and queried names are proper prefixes of one another. */
  ghost predicate PrefixFree(keys: seq<Key>, q: Key) {
    forall k :: 0 <= k < |keys| ==>
      && (PrefixRelated(keys[k].0, q.0) ==> keys[k].0 == q.0)
      && (PrefixRelated(keys[k].1, q.1) ==> keys[k].1 == q.1)
  }

  /** In particular when no stored and queried names are proper prefixes of one another. */
  lemma PrefixFreeLookup(keys: seq<Key>, q: Key)
    requires PrefixFree(keys, q)
    ensures FirstLoose(keys, q) == FirstExact(keys, q)
  {
  }

  /** Asking for a longer name finds a shorter one. */
  lemma PrefixFound()
    ensures FirstLoose([("loader", "base")], ("loader", "base2")) == 0
    ensures FirstExact([("loader", "base")], ("loader", "base2")) == 1
  {
  }

  // ---------------------------------------------------------------- strings in the buffer

  /** The C string at `p`. */
  function CString(b: string, p: nat): string
    requires p <= |b|
    decreases |b| - p
  {
    if p == |b| || b[p] == NUL then [] else [b[p]] + CString(b, p + 1)
  }

  lemma CStringIs(b: string, r: Range)
    requires r.lo <= r.hi < |b| && b[r.hi] == NUL && NoNul(b, r)
    ensures CString(b, r.lo) == b[r.lo..r.hi]
    decreases r.hi - r.lo
  {
    if r.lo < r.hi { CStringIs(b, Range(r.lo + 1, r.hi)); }
  }

  predicate IsMarked(b: string, s: string, marks: set<nat>) {
    |b| == |s| && forall k :: 0 <= k < |s| ==> b[k] == if k in marks then NUL else s[k]
  }

  lemma RangeRead(b: string, s: string, marks: set<nat>, r: Range)
    requires IsMarked(b, s, marks) && r.lo <= r.hi < |s| && NoNul(s, r) && Intact(r, marks)
    ensures CString(b, r.lo) == Text(s, r)
  {
    CStringIs(b, r);
    assert b[r.lo..r.hi] == s[r.lo..r.hi];
  }

  /** After the parse, the three pointers of every recorded entry still lead to its three strings. */
  lemma EntryReadable(b: string, s: string, k: nat)
    requires Terminated(s) && IsMarked(b, s, ParseFrom(s, 0, 0).marks) && k < |ParseFrom(s, 0, 0).triples|
    ensures var t := ParseFrom(s, 0, 0).triples[k];
      InOrder(t, 0, |s|) && Read(s, t) == (CString(b, t.section.lo), CString(b, t.property.lo), CString(b, t.value.lo))
  {
    var p := ParseFrom(s, 0, 0);
    var t := p.triples[k];
    AllPlain(s, 0, 0);
    assert InOrder(t, 0, |s|) && AllIntact(t, p.marks);
    RangeRead(b, s, p.marks, t.section);
    RangeRead(b, s, p.marks, t.property);
    RangeRead(b, s, p.marks, t.value);
  }

  // ---------------------------------------------------------------- config_read

  /** Entries before the first one without a section have all three pointers, into the buffer. */
  ghost predicate Readable(b: string, index: seq<Item>, n: nat) {
    && |index| == INDEX_SIZE >= n && (n < INDEX_SIZE ==> index[n].section.None?)
    && forall k :: 0 <= k < n ==> EntryFits(b, index[k])
  }

  predicate EntryFits(b: string, item: Item) {
    item.section.Some? && item.section.value <= |b| && item.property.Some? && item.property.value <= |b|
  }

  function KeyAt(b: string, item: Item): Key
    requires EntryFits(b, item)
  {
    (CString(b, item.section.value), CString(b, item.property.value))
  }

  ghost function Keys(b: string, index: seq<Item>, n: nat): (keys: seq<Key>)
    requires Readable(b, index, n)
    ensures |keys| == n && forall k :: 0 <= k < n ==> keys[k] == KeyAt(b, index[k])
  {
    seq(n, k requires 0 <= k < n => KeyAt(b, index[k]))
  }

  /** What a lookup ends in: a value pointer, perhaps null, or a null property pointer followed. */
  datatype Answer = Answer(value: Option<nat>) | FollowsNull

  /** An entry with a section; its property may be null. */
  predicate SectionFits(b: string, item: Item) {
    item.section.Some? && item.section.value <= |b| && (item.property.Some? ==> item.property.value <= |b|)
  }

  /** The search stops at this entry: the section matches, and the property matches or is null. */
  predicate Hits(b: string, item: Item, q: Key)
    requires SectionFits(b, item)
  {
    PrefixRelated(CString(b, item.section.value), q.0)
    && (item.property.Some? ==> PrefixRelated(CString(b, item.property.value), q.1))
  }

  /** The first `n` entries have a section and no other is looked at. */
  ghost predicate Searchable(b: string, index: seq<Item>, n: nat) {
    && |index| == INDEX_SIZE >= n && (n < INDEX_SIZE ==> index[n].section.None?)
    && forall k :: 0 <= k < n ==> SectionFits(b, index[k])
  }

  /** The search stops at entry `i`, the first that it can stop at, or at `n` without one. */
  ghost predicate StopsAt(b: string, index: seq<Item>, n: nat, q: Key, i: nat)
    requires Searchable(b, index, n)
  {
    i <= n && (i < n ==> Hits(b, index[i], q)) && forall k :: 0 <= k < i ==> !Hits(b, index[k], q)
  }

  /** `config_read`: the value pointer of the first entry that matches up to a prefix, null if there is none;
      but an entry with a matching section and a null property is followed to nowhere. */
  method ConfigRead(cfg: Config, section: string, property: string, ghost n: nat) returns (a: Answer, ghost i: nat)
    requires Searchable(cfg.pconf[..], cfg.index, n)
    ensures StopsAt(cfg.pconf[..], cfg.index, n, (section, property), i)
    ensures a == if i == n then Answer(None) else if cfg.index[i].property.None? then FollowsNull else Answer(cfg.index[i].value)
  {
    var b := cfg.pconf[..];
    var j := 0;
    while j < INDEX_SIZE && cfg.index[j].section.Some?
      invariant 0 <= j <= n && forall k :: 0 <= k < j ==> !Hits(b, cfg.index[k], (section, property))
    {
      var item := cfg.index[j];
      var s := Strcmp(CString(b, item.section.value), section);
      if s == 0 {
        if item.property.None? {
          return FollowsNull, j;
        }
        var p := Strcmp(CString(b, item.property.value), property);
        if p == 0 {
          return Answer(item.value), j;
        }
      }
      j := j + 1;
    }
    return Answer(None), n;
  }

  /** With all properties set, the search is the prefix-tolerant search for the key. */
  lemma StopsAtFirstLoose(b: string, index: seq<Item>, n: nat, q: Key, i: nat)
    requires Readable(b, index, n) && Searchable(b, index, n) && StopsAt(b, index, n, q, i)
    ensures i == FirstLoose(Keys(b, index, n), q)
  {
    var keys := Keys(b, index, n);
    assert forall k :: 0 <= k < n ==> (Hits(b, index[k], q) <==> Loose(keys[k], q));
    FirstLooseIs(keys, q, i);
  }

  /** For any text, the index left by the parse can be searched; the last entry looked at is the one a
      cut-off line left behind, if that has a section. */
  lemma IndexSearchable(b: string, s: string, index: seq<Item>)
    requires Terminated(s) && |b| == |s| && Indexed(index, ParseFrom(s, 0, 0))
    ensures var p := ParseFrom(s, 0, 0); Searchable(b, index, |p.triples| + if p.item.section.Some? then 1 else 0)
  {
    var p := ParseFrom(s, 0, 0);
    ItemFits(s, 0, 0);
    forall k | 0 <= k < |p.triples| ensures EntryFits(b, index[k]) { assert InOrder(p.triples[k], 0, |s|); }
  }

  /** For any text, all keys of the index left by the parse are set, so that no search can follow a null
      pointer, exactly unless the text ends behind a section. */
  lemma IndexReadable(b: string, s: string, index: seq<Item>)
    requires Terminated(s) && |b| == |s| && Indexed(index, ParseFrom(s, 0, 0))
    ensures var item := ParseFrom(s, 0, 0).item;
      (exists n: nat :: Readable(b, index, n)) <==> !(item.section.Some? && item.property.None?)
  {
    var p := ParseFrom(s, 0, 0);
    var m := |p.triples|;
    ItemFits(s, 0, 0);
    forall k | 0 <= k < m ensures EntryFits(b, index[k]) { assert InOrder(p.triples[k], 0, |s|); }
    if p.item.section.Some? && p.item.property.None? {
      forall n: nat ensures !Readable(b, index, n) {
        assert index[m] == p.item && !EntryFits(b, index[m]);
        assert n < m ==> index[n] == ItemOf(p.triples[n]);
      }
    } else {
      assert Readable(b, index, if p.item.section.Some? then m + 1 else m);
    }
  }

  // ---------------------------------------------------------------- from file to answer

  function KeysOf(ts: seq<Strings>): (keys: seq<Key>)
    ensures |keys| == |ts| && forall k :: 0 <= k < |ts| ==> keys[k] == (ts[k].0, ts[k].1)
  {
    seq(|ts|, k requires 0 <= k < |ts| => (ts[k].0, ts[k].1))
  }

  function ValueAt(ts: seq<Strings>, i: nat): Option<string> { if i < |ts| then Some(ts[i].2) else None }

  /** The value found is that of the exact lookup exactly when no entry before the exact match matches up to a
      prefix, or the first that does carries the same value. */
  ghost predicate SameValue(ts: seq<Strings>, q: Key) {
    var keys := KeysOf(ts);
    var i, j := FirstLoose(keys, q), FirstExact(keys, q);
    (forall k :: 0 <= k < j ==> !Loose(keys[k], q)) || (j < |ts| && i < |ts| && ts[i].2 == ts[j].2)
  }

  lemma ValueIsExact(ts: seq<Strings>, q: Key)
    ensures ValueAt(ts, FirstLoose(KeysOf(ts), q)) == ValueAt(ts, FirstExact(KeysOf(ts), q)) <==> SameValue(ts, q)
  {
    LookupIsExact(KeysOf(ts), q);
  }

  /** Entry `k` of the index leads to the strings `t`. */
  ghost predicate Holds(b: string, item: Item, t: Strings) {
    && EntryFits(b, item) && item.value.Some? && item.value.value <= |b|
    && KeyAt(b, item) == (t.0, t.1) && CString(b, item.value.value) == t.2
  }

  lemma FileEntry(ls: seq<Source>, b: string, index: seq<Item>, k: nat)
    requires AllWellFormed(ls) && BlanksLate(ls, 0) && k < |First(TriplesOf(ls), INDEX_SIZE)|
    requires var s := PrintAll(ls) + [NUL]; IsMarked(b, s, ParseFrom(s, 0, 0).marks) && Indexed(index, ParseFrom(s, 0, 0))
    ensures Holds(b, index[k], First(TriplesOf(ls), INDEX_SIZE)[k])
  {
    var s := PrintAll(ls) + [NUL];
    var p := ParseFrom(s, 0, 0);
    ParserRoundTrip(ls);
    EntryReadable(b, s, k);
    assert ReadAll(s, p.triples)[k] == Read(s, p.triples[k]);
  }

  /** The state `Parse` leaves for a printed file answers lookups from exactly the printed triples. */
  lemma ParsedFileReadable(ls: seq<Source>, b: string, index: seq<Item>)
    requires AllWellFormed(ls) && BlanksLate(ls, 0)
    requires var s := PrintAll(ls) + [NUL]; IsMarked(b, s, ParseFrom(s, 0, 0).marks) && Indexed(index, ParseFrom(s, 0, 0))
    ensures var ts := First(TriplesOf(ls), INDEX_SIZE);
      && Readable(b, index, |ts|) && Keys(b, index, |ts|) == KeysOf(ts)
      && forall k :: 0 <= k < |ts| ==> Holds(b, index[k], ts[k])
  {
    var ts := First(TriplesOf(ls), INDEX_SIZE);
    ParserRoundTrip(ls);
    forall k | 0 <= k < |ts| ensures Holds(b, index[k], ts[k]) { FileEntry(ls, b, index, k); }
    assert |ts| == |ParseFrom(PrintAll(ls) + [NUL], 0, 0).triples|;
  }

  /** Parsing a printed file and reading a key: the string returned is the value of the first entry of the file
      that matches up to a prefix, and so of the first exact entry when no names are prefixes of one another. */
  method LookUp(text: array<char>, section: string, property: string, ghost ls: seq<Source>)
    returns (value: Option<string>)
    requires AllWellFormed(ls) && BlanksLate(ls, 0) && text[..] == PrintAll(ls) + [NUL]
    modifies text
    ensures var ts := First(TriplesOf(ls), INDEX_SIZE); var q := (section, property);
      && value == ValueAt(ts, FirstLoose(KeysOf(ts), q))
      && (value == ValueAt(ts, FirstExact(KeysOf(ts), q)) <==> SameValue(ts, q))
      && (PrefixFree(KeysOf(ts), q) ==> value == ValueAt(ts, FirstExact(KeysOf(ts), q)))
  {
    ghost var s := text[..];
    ghost var ts := First(TriplesOf(ls), INDEX_SIZE);
    var cfg := new Config(text);
    cfg.Parse();
    assert IsMarked(text[..], s, ParseFrom(s, 0, 0).marks);
    ParsedFileReadable(ls, text[..], cfg.index);
    ValueIsExact(ts, (section, property));
    if PrefixFree(KeysOf(ts), (section, property)) { PrefixFreeLookup(KeysOf(ts), (section, property)); }
    ghost var b := text[..];
    assert Searchable(b, cfg.index, |ts|);
    var a, i := ConfigRead(cfg, section, property, |ts|);
    StopsAtFirstLoose(b, cfg.index, |ts|, (section, property), i);
    assert a.Answer?;
    return if a.value.Some? then Some(CString(text[..], a.value.value)) else None;
  }
}

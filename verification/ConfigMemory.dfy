/** `config.c` working in place: the parser writes NULs into the text it was given and fills the index. */
module ConfigMemory {
  import opened Base
  import opened ConfigText

  class Config {
    const pconf: array<char>
    var index: seq<Item>

    constructor (text: array<char>)
      ensures pconf == text && index == Empty(INDEX_SIZE)
    {
      pconf := text;
      index := Empty(INDEX_SIZE);
    }

    /** The buffer is `s` with NULs at `marks`. */
    ghost predicate Marked(s: string, marks: set<nat>)
      reads pconf
    {
      |s| == pconf.Length && forall k :: 0 <= k < |s| ==> pconf[k] == if k in marks then NUL else s[k]
    }

    /** From `i` on the buffer is still the original text. */
    ghost predicate Ahead(s: string, i: nat)
      reads pconf
    {
      |s| == pconf.Length && forall k :: i <= k < |s| ==> pconf[k] == s[k]
    }

    /** The scanning loops. */
    method Scan(i: nat, k: Kind, ghost s: string) returns (r: nat)
      requires Terminated(s) && i < |s| && Ahead(s, i)
      ensures r == Span(s, i, k) < |s| && i <= r
    {
      r := i;
      assert !Is(k, s[|s| - 1]);
      while Is(k, pconf[r])
        invariant i <= r < |s| && forall j :: i <= j < r ==> Is(k, s[j])
        decreases |s| - r
      {
        r := r + 1;
      }
      SpanIs(s, i, k, r);
    }

    method Mark(i: nat)
      requires i < pconf.Length
      modifies pconf
      ensures forall k :: 0 <= k < pconf.Length ==> pconf[k] == if k == i then NUL else old(pconf[k])
    {
      pconf[i] := NUL;
    }

    /** The value part of a line. */
    method LineValue(n: nat, ghost s: string, ghost marks: set<nat>, ghost sec: Range, ghost prop: Range, i: nat)
      returns (more: bool, next: nat)
      requires Terminated(s) && sec.lo <= sec.hi < prop.lo <= prop.hi < |s| && s[prop.hi] != NUL && i == prop.hi + 1
      requires n < |index| && index[n] == Item(Some(sec.lo), Some(prop.lo), None)
      requires Marked(s, marks + {sec.hi, prop.hi}) && Ahead(s, i)
      modifies pconf, this`index
      ensures Finished(ParseValue(s, sec, prop), s, marks, n, old(index), more, next)
    {
      NewLineInside(s, prop.hi);
      var e := Scan(i, Blank, s);
      if pconf[e] == NUL {
        return false, 0;
      }
      index := index[n := index[n].(value := Some(e))];
      var f := Scan(e, Rest, s);
      if pconf[f] == NUL {
        index := index[n := index[n].(section := None)];
        return false, 0;
      }
      Mark(f);
      return true, f + 1;
    }

    /** The property part of a line, and what follows. */
    method LineProperty(n: nat, ghost s: string, ghost marks: set<nat>, ghost sec: Range, i: nat)
      returns (more: bool, next: nat)
      requires Terminated(s) && sec.lo <= sec.hi < |s| && s[sec.hi] != NUL && i == sec.hi + 1
      requires n < |index| && index[n] == Item(Some(sec.lo), None, None)
      requires Marked(s, marks + {sec.hi}) && Ahead(s, i)
      modifies pconf, this`index
      ensures Finished(ParseProperty(s, sec), s, marks, n, old(index), more, next)
    {
      NewLineInside(s, sec.hi);
      var c := Scan(i, Blank, s);
      if pconf[c] == NUL {
        return false, 0;
      }
      index := index[n := index[n].(property := Some(c))];
      var d := Scan(c, Word, s);
      if pconf[d] == NUL {
        index := index[n := index[n].(section := None)];
        return false, 0;
      }
      PropertyTaken(s, sec, c, d);
      Mark(d);
      ghost var mid := index;
      more, next := LineValue(n, s, marks, sec, Range(c, d), d + 1);
      Carry(ParseValue(s, sec, Range(c, d)), s, marks, n, old(index), mid, more, next);
    }

    /** A line that is neither a comment, nor empty, nor the end. */
    method LineTriple(n: nat, ghost s: string, ghost marks: set<nat>, i: nat) returns (more: bool, next: nat)
      requires Terminated(s) && i < |s| && n < |index| && index[n] == NO_ITEM
      requires Marked(s, marks) && Ahead(s, i)
      modifies pconf, this`index
      ensures Finished(ParseTriple(s, i), s, marks, n, old(index), more, next)
    {
      assert index == index[n := NO_ITEM];
      var a := Scan(i, Blank, s);
      if pconf[a] == NUL {
        return false, 0;
      }
      index := index[n := index[n].(section := Some(a))];
      var b := Scan(a, Word, s);
      if pconf[b] == NUL {
        index := index[n := index[n].(section := None)];
        return false, 0;
      }
      SectionTaken(s, i, a, b);
      Mark(b);
      ghost var mid := index;
      more, next := LineProperty(n, s, marks, Range(a, b), b + 1);
      Carry(ParseProperty(s, Range(a, b)), s, marks, n, old(index), mid, more, next);
    }

    /** The state after a line that parsed as `l`: entry `n` written, its marks made. */
    ghost predicate Finished(l: Line, s: string, marks: set<nat>, n: nat, before: seq<Item>, more: bool, next: nat)
      requires n < |before|
      reads this, pconf
    {
      match l
      case Found(t, at) => more && next == at && Marked(s, marks + Marks(t)) && index == before[n := ItemOf(t)]
      case Stop(item, m) => !more && Marked(s, marks + m) && index == before[n := item]
      case Skip(_) => false
    }

    lemma Carry(l: Line, s: string, marks: set<nat>, n: nat, before: seq<Item>, mid: seq<Item>, more: bool, next: nat)
      requires n < |before| == |mid| && mid == before[n := mid[n]] && Finished(l, s, marks, n, mid, more, next)
      ensures Finished(l, s, marks, n, before, more, next)
    {
    }

    /** One turn of the line loop. */
    method Turn(n: nat, ghost s: string, ghost marks: set<nat>, i: nat) returns (more: bool, took: bool, next: nat)
      requires Terminated(s) && i < |s| && n < |index| && index[n] == NO_ITEM
      requires Marked(s, marks) && Ahead(s, i)
      modifies pconf, this`index
      ensures var l := ParseAt(s, i);
        && (l.Skip? ==> more && !took && next == l.next && Marked(s, marks) && index == old(index))
        && (!l.Skip? ==> took == more && Finished(l, s, marks, n, old(index), more, next))
    {
      if pconf[i] == '#' {
        var e := Scan(i, Rest, s);
        if pconf[e] != NUL {
          e := e + 1;
        }
        return true, false, e;
      }
      if pconf[i] == '\n' {
        return true, false, i + 1;
      }
      if pconf[i] == NUL {
        return false, false, 0;
      }
      more, next := LineTriple(n, s, marks, i);
      took := more;
    }

    /** The scan of `s` stands at `i` with the triples `acc` taken, and all of it will give `p`. */
    ghost predicate Progress(s: string, p: Parsed, acc: seq<Triple>, marks: set<nat>, i: nat)
      reads this, pconf
    {
      Stage(s, p, acc, marks, i) && Marked(s, marks) && Filled(index, acc)
    }

    /** One turn, with what it means for the whole scan. */
    method Advance(ghost s: string, ghost p: Parsed, ghost acc: seq<Triple>, ghost marks: set<nat>, i: nat, n: nat)
      returns (more: bool, ghost acc1: seq<Triple>, ghost marks1: set<nat>, i1: nat, n1: nat)
      requires Progress(s, p, acc, marks, i) && n == |acc|
      modifies pconf, this`index
      ensures more ==> Progress(s, p, acc1, marks1, i1) && n1 == |acc1| && i < i1
      ensures !more ==> Marked(s, p.marks) && Indexed(index, p)
    {
      acc1, marks1 := acc, marks;
      var took;
      more, took, i1 := Turn(n, s, marks, i);
      n1 := n;
      if !more {
        StepStop(s, i, n);
      } else if took {
        StageFound(s, p, acc, marks, i);
        acc1, marks1 := acc + [ParseAt(s, i).triple], marks + Marks(ParseAt(s, i).triple);
        n1 := n + 1;
        more := n1 != INDEX_SIZE;
      } else {
        StepSkip(s, i, n);
      }
    }

    /** `config_parse`: the index gets the triples of the text in order, and exactly the marked
        characters become NUL. */
    method Parse()
      requires Terminated(pconf[..]) && index == Empty(INDEX_SIZE)
      modifies pconf, this`index
      ensures var p := ParseFrom(old(pconf[..]), 0, 0); Marked(old(pconf[..]), p.marks) && Indexed(index, p)
    {
      ghost var s := pconf[..];
      ghost var p := ParseFrom(s, 0, 0);
      ghost var acc, marks: set<nat> := [], {};
      var n, i, more := 0, 0, true;
      while more
        invariant more ==> Progress(s, p, acc, marks, i) && n == |acc|
        invariant !more ==> Marked(s, p.marks) && Indexed(index, p)
        decreases more, |s| - i
      {
        more, acc, marks, i, n := Advance(s, p, acc, marks, i, n);
      }
    }
  }

  /** The scan stands at `i` with `acc` taken and `marks` made; all of it gives `p`. */
  ghost predicate Stage(s: string, p: Parsed, acc: seq<Triple>, marks: set<nat>, i: nat) {
    && Terminated(s) && i < |s| && |acc| < INDEX_SIZE && MarksFrom(marks, 0, i)
    && p == Append(acc, marks, ParseFrom(s, i, |acc|))
  }

  /** A triple found at `i` is the next of the whole scan. */
  lemma StageFound(s: string, p: Parsed, acc: seq<Triple>, marks: set<nat>, i: nat)
    requires Stage(s, p, acc, marks, i) && ParseAt(s, i).Found?
    ensures var l := ParseAt(s, i); var acc1, marks1 := acc + [l.triple], marks + Marks(l.triple);
      if |acc1| == INDEX_SIZE then p == Parsed(acc1, NO_ITEM, marks1) else Stage(s, p, acc1, marks1, l.next)
  {
    var l := ParseAt(s, i);
    var rest := FoundRest(s, i, |acc|);
    AppendCons(acc, marks, l.triple, i, l.next, rest);
    if |acc| + 1 == INDEX_SIZE { AppendNone(acc + [l.triple], marks + Marks(l.triple)); }
  }

  lemma AppendNone(acc: seq<Triple>, marks: set<nat>)
    ensures Append(acc, marks, Parsed([], NO_ITEM, {})) == Parsed(acc, NO_ITEM, marks)
  {
  }

  lemma AppendCons(acc: seq<Triple>, marks: set<nat>, t: Triple, i: nat, next: nat, rest: Parsed)
    requires MarksFrom(marks, 0, i) && InOrder(t, i, next)
    ensures MarksFrom(marks + Marks(t), 0, next)
    ensures Append(acc, marks, Cons(t, rest)) == Append(acc + [t], marks + Marks(t), rest)
  {
  }

  function Empty(n: nat): (z: seq<Item>)
    ensures |z| == n && forall i :: 0 <= i < n ==> z[i] == NO_ITEM
  {
    if n == 0 then [] else Empty(n - 1) + [NO_ITEM]
  }

  lemma NewLineInside(s: string, i: nat)
    requires Terminated(s) && i < |s| && s[i] != NUL
    ensures i + 1 < |s|
  {
  }

  function Append(acc: seq<Triple>, marks: set<nat>, rest: Parsed): Parsed {
    Parsed(acc + rest.triples, rest.item, marks + rest.marks)
  }

  /** The first entries are the triples `ts`; the others are unset. */
  ghost predicate Filled(index: seq<Item>, ts: seq<Triple>) {
    && |index| == INDEX_SIZE >= |ts|
    && (forall k :: 0 <= k < |ts| ==> index[k] == ItemOf(ts[k]))
    && forall k :: |ts| <= k < INDEX_SIZE ==> index[k] == NO_ITEM
  }

  /** The index after the scan: the triples, then what an unfinished line left behind, then unset entries. */
  ghost predicate Indexed(index: seq<Item>, p: Parsed) {
    && |index| == INDEX_SIZE >= |p.triples|
    && (forall k :: 0 <= k < |p.triples| ==> index[k] == ItemOf(p.triples[k]))
    && forall k :: |p.triples| <= k < INDEX_SIZE ==> index[k] == if k == |p.triples| then p.item else NO_ITEM
  }
}

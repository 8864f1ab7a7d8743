/**
 Texts with placeholders between two marks, such as `{{` and `}}`. A loop that replaces the first
 placeholder in place and starts over is compared with substitution from left to right over the
 placeholders of the text it started with.
 */
module Placeholders {
  import opened Wrappers
  import opened Text

  /** What opens and what closes a placeholder. */
  datatype Marks = Marks(open: string, close: string)

  /** The text a placeholder is replaced by, if it has one, given what stands between the marks. */
  type Lookup = string -> Option<string>

  // ── Cutting ──────────────────────────────────────────────────────────

  /** A text cut at its first placeholder: what precedes it, the placeholder, what is between its marks, what follows. */
  datatype Cut = Whole | Cut(before: string, raw: string, inner: string, rest: string)

  /** The cut for an opening mark at `open` and a closing one at `close` of what follows it. */
  function CutAt(m: Marks, s: string, open: nat, close: nat): (c: Cut)
    requires open + |m.open| + close + |m.close| <= |s|
    ensures c.Cut? && s == c.before + c.raw + c.rest && |c.before| == open
    ensures |c.raw| == |m.open| + close + |m.close| && |c.inner| == close
  {
    var start, end := open + |m.open|, open + |m.open| + close + |m.close|;
    Cut(s[..open], s[open..end], s[start..][..close], s[end..])
  }

  function CutFrom(m: Marks, s: string, open: nat): (c: Cut)
    requires open + |m.open| <= |s|
    ensures c.Cut? ==> s == c.before + c.raw + c.rest && |c.raw| >= |m.open| && |c.before| == open
  {
    var close := Find(s[open + |m.open|..], m.close);
    if close.None? then Whole else CutAt(m, s, open, close.value)
  }

  function CutBy(m: Marks, s: string, open: Option<nat>): (c: Cut)
    requires open.Some? ==> open.value + |m.open| <= |s|
    ensures c.Cut? ==> s == c.before + c.raw + c.rest && |c.raw| >= |m.open|
  {
    if open.None? then Whole else CutFrom(m, s, open.value)
  }

  function FirstCut(m: Marks, s: string): (c: Cut)
    ensures c.Cut? ==> s == c.before + c.raw + c.rest && |c.raw| >= |m.open|
  {
    CutBy(m, s, Find(s, m.open))
  }

  lemma RawAt(m: Marks, s: string, open: nat, close: nat)
    requires open + |m.open| + close + |m.close| <= |s|
    requires StartsWith(s[open..], m.open) && StartsWith(s[open + |m.open|..][close..], m.close)
    ensures CutAt(m, s, open, close).raw == m.open + CutAt(m, s, open, close).inner + m.close
  {
    var start := open + |m.open|;
    var end := start + close;
    assert s[open..][..|m.open|] == s[open..start];
    assert s[start..][close..][..|m.close|] == s[end..end + |m.close|];
    assert s[start..][..close] == s[start..end];
    assert s[open..end + |m.close|] == s[open..start] + s[start..end] + s[end..end + |m.close|];
  }

  /** A placeholder is its marks and what stands between them. */
  lemma RawOf(m: Marks, s: string)
    requires FirstCut(m, s).Cut?
    ensures FirstCut(m, s).raw == m.open + FirstCut(m, s).inner + m.close
  {
    var open := Find(s, m.open).value;
    FindOccurs(s, m.open);
    FindOccurs(s[open + |m.open|..], m.close);
    RawAt(m, s, open, Find(s[open + |m.open|..], m.close).value);
  }

  lemma CutAtIs(m: Marks, s: string, before: string, inner: string, rest: string, behind: string)
    requires s == before + m.open + behind && behind == inner + m.close + rest
    ensures CutAt(m, s, |before|, |inner|) == Cut(before, m.open + (inner + m.close), inner, rest)
  {
    var start, close := |before| + |m.open|, |inner| + |m.close|;
    assert s[start..] == behind && s[..|before|] == before;
    assert behind[..|inner|] == inner && behind[..close] == inner + m.close && behind[close..] == rest;
    assert s[|before|..start + close] == m.open + behind[..close];
    assert s[start + close..] == behind[close..];
  }

  /** The first cut of a text that is put together from its parts. */
  lemma CutIs(m: Marks, s: string, before: string, inner: string, rest: string, behind: string)
    requires s == before + m.open + behind && behind == inner + m.close + rest
    requires Find(s, m.open) == Some(|before|) && Find(behind, m.close) == Some(|inner|)
    ensures FirstCut(m, s) == Cut(before, m.open + (inner + m.close), inner, rest)
  {
    assert s[|before| + |m.open|..] == behind;
    CutAtIs(m, s, before, inner, rest, behind);
  }

  predicate HasOpen(m: Marks, s: string) { Find(s, m.open).Some? }

  /** A text cut at all its placeholders; `dangling` says that the tail still holds an opening mark. */
  datatype Pieces =
    | Tail(text: string, dangling: bool)
    | Piece(before: string, raw: string, inner: string, rest: Pieces)

  function Parse(m: Marks, s: string): Pieces
    requires m.open != ""
    decreases |s|
  {
    var c := FirstCut(m, s);
    if c.Whole? then Tail(s, HasOpen(m, s)) else Piece(c.before, c.raw, c.inner, Parse(m, c.rest))
  }

  lemma ParseIs(m: Marks, s: string, c: Cut)
    requires m.open != "" && c == FirstCut(m, s)
    ensures c.Whole? ==> Parse(m, s).Tail?
    ensures c.Cut? ==> |c.rest| < |s| && Parse(m, s) == Piece(c.before, c.raw, c.inner, Parse(m, c.rest))
  {
  }

  /** The text that was cut. */
  function Flat(ps: Pieces): string {
    match ps
    case Tail(text, _) => text
    case Piece(before, raw, _, rest) => before + raw + Flat(rest)
  }

  /** Each placeholder once, from the left; unresolved ones stay as they are. */
  function Substitute(ps: Pieces, lookup: Lookup): string {
    match ps
    case Tail(text, _) => text
    case Piece(before, raw, inner, rest) =>
      before + (if lookup(inner).Some? then lookup(inner).value else raw) + Substitute(rest, lookup)
  }

  predicate Opens(ps: Pieces) { ps.Piece? || ps.dangling }

  lemma {:induction false} FlatParse(m: Marks, s: string)
    requires m.open != ""
    ensures Flat(Parse(m, s)) == s
    decreases |s|
  {
    var c := FirstCut(m, s);
    if c.Whole? {
    } else {
      FlatParse(m, c.rest);
    }
  }

  // ── The in-place loop ────────────────────────────────────────────────

  /**
   One iteration: None when the loop breaks, else the text it goes on with. An unresolved placeholder
   leaves the text as it is; `exits` says whether the loop breaks when no mark follows it.
   */
  function Iteration(m: Marks, exits: bool, lookup: Lookup, s: string): Option<string> {
    var c := FirstCut(m, s);
    if c.Whole? then None
    else if lookup(c.inner).Some? then Some(c.before + lookup(c.inner).value + c.rest)
    else if exits && !HasOpen(m, c.rest) then None
    else Some(s)
  }

  /** A loop that replaces its text until an iteration breaks: its result, if that is within `n` iterations. */
  function Loop(iteration: string -> Option<string>, s: string, n: nat): Option<string>
    decreases n
  {
    var next := iteration(s);
    if next.None? then Some(s)
    else if n == 0 then None
    else Loop(iteration, next.value, n - 1)
  }

  /** The in-place substituter, given `n` iterations. */
  function InPlace(m: Marks, exits: bool, lookup: Lookup, s: string, n: nat): Option<string> {
    Loop(t => Iteration(m, exits, lookup, t), s, n)
  }

  /** The loop gets through: every placeholder resolves, up to one at which the loop may break. */
  predicate GetsThrough(exits: bool, ps: Pieces, lookup: Lookup) {
    match ps
    case Tail(_, _) => true
    case Piece(_, _, inner, rest) =>
      if lookup(inner).Some? then GetsThrough(exits, rest, lookup) else exits && !Opens(rest)
  }

  /** The replacements made before the loop breaks or hangs. */
  function Replacements(ps: Pieces, lookup: Lookup): nat {
    match ps
    case Tail(_, _) => 0
    case Piece(_, _, inner, rest) => if lookup(inner).Some? then 1 + Replacements(rest, lookup) else 0
  }

  // ── Text in which no mark starts ─────────────────────────────────────

  /** Whatever follows `p`, the mark cannot begin at its start: they differ where both have a character. */
  predicate Differ(p: string, mark: string) {
    exists j :: 0 <= j < |p| && j < |mark| && p[j] != mark[j]
  }

  /** Text in which no mark starts, whatever follows it. */
  predicate Inert(p: string, mark: string) { forall i {:trigger p[i..]} :: 0 <= i < |p| ==> Differ(p[i..], mark) }

  lemma DifferLonger(p: string, s: string, mark: string)
    requires Differ(p, mark)
    ensures Differ(p + s, mark) && !StartsWith(p + s, mark)
  {
    var j :| 0 <= j < |p| && j < |mark| && p[j] != mark[j];
    assert (p + s)[j] != mark[j];
  }

  lemma InertConcat(a: string, b: string, mark: string)
    requires Inert(a, mark) && Inert(b, mark)
    ensures Inert(a + b, mark)
  {
    forall i | 0 <= i < |a + b| ensures Differ((a + b)[i..], mark) {
      if i < |a| {
        assert (a + b)[i..] == a[i..] + b;
        DifferLonger(a[i..], b, mark);
      } else {
        assert (a + b)[i..] == b[i - |a|..];
      }
    }
  }

  lemma InertTail(p: string, mark: string)
    requires Inert(p, mark) && p != ""
    ensures Inert(p[1..], mark)
  {
    forall i | 0 <= i < |p[1..]| ensures Differ(p[1..][i..], mark) { assert p[1..][i..] == p[i + 1..]; }
  }

  /** A text without the first character of the mark. */
  lemma InertWithout(p: string, mark: string)
    requires mark != "" && mark[0] !in p
    ensures Inert(p, mark)
  {
    forall i | 0 <= i < |p| ensures Differ(p[i..], mark) { assert p[i..][0] == p[i] && p[i] != mark[0]; }
  }

  lemma {:induction false} NothingToReplace(p: string, pattern: string, text: string)
    requires pattern != "" && Inert(p, pattern)
    ensures ReplaceAll(p, pattern, text) == p
  {
    if p == "" {
    } else {
      assert p[0..] == p && Differ(p[0..], pattern);
      DifferLonger(p, "", pattern);
      assert p + "" == p;
      InertTail(p, pattern);
      NothingToReplace(p[1..], pattern, text);
    }
  }

  /** Inert text in front of a text moves its first mark, and nothing else. */
  lemma {:induction false} PrefixMovesFind(p: string, s: string, mark: string)
    requires Inert(p, mark)
    ensures Find(p + s, mark) == if Find(s, mark).Some? then Some(|p| + Find(s, mark).value) else None
  {
    if p == "" {
      assert p + s == s;
    } else {
      assert p[0..] == p && Differ(p[0..], mark);
      DifferLonger(p, s, mark);
      assert (p + s)[1..] == p[1..] + s;
      InertTail(p, mark);
      PrefixMovesFind(p[1..], s, mark);
    }
  }

  lemma CutAtMoved(m: Marks, p: string, s: string, open: nat, close: nat)
    requires open + |m.open| + close + |m.close| <= |s|
    ensures var c := CutAt(m, s, open, close);
            CutAt(m, p + s, |p| + open, close) == Cut(p + c.before, c.raw, c.inner, c.rest)
  {
    var t, k := p + s, |p| + open;
    var n := |m.open| + close + |m.close|;
    assert t[k + |m.open|..][..close] == s[open + |m.open|..][..close];
    assert t[..k] == p + s[..open];
    assert t[k..k + n] == s[open..open + n];
    assert t[k + n..] == s[open + n..];
  }

  lemma CutFromMoved(m: Marks, p: string, s: string, open: nat)
    requires open + |m.open| <= |s|
    ensures var c := CutFrom(m, s, open);
            CutFrom(m, p + s, |p| + open) == if c.Whole? then Whole else Cut(p + c.before, c.raw, c.inner, c.rest)
  {
    assert (p + s)[|p| + open + |m.open|..] == s[open + |m.open|..];
    var close := Find(s[open + |m.open|..], m.close);
    if close.Some? { CutAtMoved(m, p, s, open, close.value); }
  }

  /** Inert text in front of a text only lengthens what precedes its first placeholder. */
  lemma PrefixMovesCut(m: Marks, p: string, s: string)
    requires Inert(p, m.open)
    ensures var c := FirstCut(m, s);
            FirstCut(m, p + s) == if c.Whole? then Whole else Cut(p + c.before, c.raw, c.inner, c.rest)
  {
    PrefixMovesFind(p, s, m.open);
    CutByMoved(m, p, s, Find(s, m.open));
  }

  lemma CutByMoved(m: Marks, p: string, s: string, open: Option<nat>)
    requires open.Some? ==> open.value + |m.open| <= |s|
    ensures var c := CutBy(m, s, open);
            CutBy(m, p + s, if open.Some? then Some(|p| + open.value) else None) ==
            if c.Whole? then Whole else Cut(p + c.before, c.raw, c.inner, c.rest)
  {
    if open.Some? { CutFromMoved(m, p, s, open.value); }
  }

  // ── The loop is left-to-right substitution, or it hangs ──────────────

  /** What the loop assumes of a text and its values: no mark starts in what precedes a placeholder or replaces it. */
  predicate AllInert(m: Marks, ps: Pieces, lookup: Lookup) {
    match ps
    case Tail(_, _) => true
    case Piece(before, _, inner, rest) =>
      && Inert(before, m.open)
      && (lookup(inner).Some? ==> Inert(lookup(inner).value, m.open) && AllInert(m, rest, lookup))
  }

  /** What one iteration does to inert text followed by a text that is cut into `ps`. */
  function Expected(exits: bool, p: string, ps: Pieces, lookup: Lookup): Option<string> {
    match ps
    case Tail(_, _) => None
    case Piece(before, _, inner, rest) =>
      if lookup(inner).Some? then Some(p + before + lookup(inner).value + Flat(rest))
      else if exits && !Opens(rest) then None
      else Some(p + Flat(ps))
  }

  lemma OpensIff(m: Marks, s: string)
    requires m.open != ""
    ensures Opens(Parse(m, s)) <==> HasOpen(m, s)
  {
  }

  lemma IterationLaw(m: Marks, exits: bool, lookup: Lookup, p: string, s: string)
    requires m.open != "" && Inert(p, m.open)
    ensures Iteration(m, exits, lookup, p + s) == Expected(exits, p, Parse(m, s), lookup)
  {
    PrefixMovesCut(m, p, s);
    var c := FirstCut(m, s);
    FlatParse(m, s);
    if c.Cut? {
      FlatParse(m, c.rest);
      OpensIff(m, c.rest);
    }
  }

  /** Pieces that come from a text. */
  predicate Canonical(m: Marks, ps: Pieces)
    requires m.open != ""
  {
    ps == Parse(m, Flat(ps))
  }

  lemma CanonicalRest(m: Marks, ps: Pieces)
    requires m.open != "" && Canonical(m, ps) && ps.Piece?
    ensures Canonical(m, ps.rest)
  {
    FlatParse(m, FirstCut(m, Flat(ps)).rest);
  }

  /** On inert text followed by a text of known pieces, the iteration does what is expected. */
  ghost predicate Lawful(iteration: string -> Option<string>, known: Pieces -> bool, mark: string, exits: bool, lookup: Lookup) {
    && (forall p, ps :: Inert(p, mark) && known(ps) ==> iteration(p + Flat(ps)) == Expected(exits, p, ps, lookup))
    && (forall ps :: known(ps) && ps.Piece? ==> known(ps.rest))
  }

  lemma IterationIsLawful(m: Marks, exits: bool, lookup: Lookup)
    requires m.open != ""
    ensures Lawful(t => Iteration(m, exits, lookup, t), ps => Canonical(m, ps), m.open, exits, lookup)
  {
    forall p, ps | Inert(p, m.open) && Canonical(m, ps)
      ensures Iteration(m, exits, lookup, p + Flat(ps)) == Expected(exits, p, ps, lookup)
    {
      IterationLaw(m, exits, lookup, p, Flat(ps));
    }
    forall ps | Canonical(m, ps) && ps.Piece? ensures Canonical(m, ps.rest) { CanonicalRest(m, ps); }
  }

  lemma Reassociate(a: string, b: string, c: string, d: string)
    ensures a + (b + c + d) == a + b + c + d
  {
  }

  lemma InertNext(p: string, before: string, text: string, mark: string)
    requires Inert(p, mark) && Inert(before, mark) && Inert(text, mark)
    ensures Inert(p + before + text, mark)
  {
    InertConcat(p, before, mark);
    InertConcat(p + before, text, mark);
  }

  lemma {:induction false} LoopGetsThrough(iteration: string -> Option<string>, known: Pieces -> bool, m: Marks,
                                           exits: bool, lookup: Lookup, p: string, ps: Pieces, n: nat)
    requires Lawful(iteration, known, m.open, exits, lookup) && AllInert(m, ps, lookup) && Inert(p, m.open) && known(ps)
    requires GetsThrough(exits, ps, lookup) && n >= Replacements(ps, lookup)
    ensures Loop(iteration, p + Flat(ps), n) == Some(p + Substitute(ps, lookup))
    decreases ps
  {
    assert iteration(p + Flat(ps)) == Expected(exits, p, ps, lookup);
    match ps
    case Tail(_, _) =>
    case Piece(before, raw, inner, rest) =>
      if lookup(inner).Some? {
        var value := lookup(inner).value;
        InertNext(p, before, value, m.open);
        LoopGetsThrough(iteration, known, m, exits, lookup, p + before + value, rest, n - 1);
        Reassociate(p, before, value, Substitute(rest, lookup));
      } else {
        assert rest.Tail?;
      }
  }

  lemma {:induction false} LoopHangs(iteration: string -> Option<string>, known: Pieces -> bool, m: Marks,
                                     exits: bool, lookup: Lookup, p: string, ps: Pieces, n: nat)
    requires Lawful(iteration, known, m.open, exits, lookup) && AllInert(m, ps, lookup) && Inert(p, m.open) && known(ps)
    requires !GetsThrough(exits, ps, lookup)
    ensures Loop(iteration, p + Flat(ps), n).None?
    decreases n
  {
    assert iteration(p + Flat(ps)) == Expected(exits, p, ps, lookup);
    if n == 0 {
    } else if lookup(ps.inner).Some? {
      InertNext(p, ps.before, lookup(ps.inner).value, m.open);
      LoopHangs(iteration, known, m, exits, lookup, p + ps.before + lookup(ps.inner).value, ps.rest, n - 1);
    } else {
      LoopHangs(iteration, known, m, exits, lookup, p, ps, n - 1);
    }
  }

  /** A loop has at most one result. */
  lemma {:induction false} LoopUnique(iteration: string -> Option<string>, s: string, k: nat, n: nat)
    requires Loop(iteration, s, k).Some? && Loop(iteration, s, n).Some?
    ensures Loop(iteration, s, k) == Loop(iteration, s, n)
    decreases n
  {
    if iteration(s).None? {
    } else {
      LoopUnique(iteration, iteration(s).value, k - 1, n - 1);
    }
  }

  lemma {:induction false} Stuck(iteration: string -> Option<string>, s: string, n: nat)
    requires iteration(s) == Some(s)
    ensures Loop(iteration, s, n).None?
  {
    if n == 0 {
    } else {
      Stuck(iteration, s, n - 1);
    }
  }

  lemma StuckNext(iteration: string -> Option<string>, s: string, next: string, n: nat)
    requires iteration(s) == Some(next) && iteration(next) == Some(next)
    ensures Loop(iteration, s, n).None?
  {
    if n > 0 { Stuck(iteration, next, n - 1); }
  }

  lemma Vanishes(m: Marks, lookup: Lookup, s: string)
    requires FirstCut(m, s).Cut? && lookup(FirstCut(m, s).inner) == Some("")
    ensures Iteration(m, false, lookup, s) == Some(FirstCut(m, s).before + FirstCut(m, s).rest)
  {
    var c := FirstCut(m, s);
    assert c.before + "" + c.rest == c.before + c.rest;
  }

  /** The placeholder of a text goes, and what precedes and follows it comes together as one that stays. */
  lemma ComesTogether(m: Marks, lookup: Lookup, s: string, n: nat)
    requires FirstCut(m, s).Cut? && lookup(FirstCut(m, s).inner) == Some("")
    requires var next := FirstCut(m, s).before + FirstCut(m, s).rest; Iteration(m, false, lookup, next) == Some(next)
    ensures InPlace(m, false, lookup, s, n).None?
  {
    Vanishes(m, lookup, s);
    StuckNext(t => Iteration(m, false, lookup, t), s, FirstCut(m, s).before + FirstCut(m, s).rest, n);
  }

  /** With inert text the loop ends exactly when it gets through, and then with the left-to-right substitution. */
  lemma LoopLaw(m: Marks, exits: bool, lookup: Lookup, s: string)
    requires m.open != "" && AllInert(m, Parse(m, s), lookup)
    ensures GetsThrough(exits, Parse(m, s), lookup) <==> exists n :: InPlace(m, exits, lookup, s, n).Some?
    ensures forall n: nat :: InPlace(m, exits, lookup, s, n).Some? ==>
              InPlace(m, exits, lookup, s, n) == Some(Substitute(Parse(m, s), lookup))
    ensures GetsThrough(exits, Parse(m, s), lookup) ==>
              InPlace(m, exits, lookup, s, Replacements(Parse(m, s), lookup)) == Some(Substitute(Parse(m, s), lookup))
  {
    var iteration, ps := t => Iteration(m, exits, lookup, t), Parse(m, s);
    IterationIsLawful(m, exits, lookup);
    FlatParse(m, s);
    assert "" + Flat(ps) == s && "" + Substitute(ps, lookup) == Substitute(ps, lookup);
    if GetsThrough(exits, ps, lookup) {
      var k := Replacements(ps, lookup);
      LoopGetsThrough(iteration, q => Canonical(m, q), m, exits, lookup, "", ps, k);
      assert InPlace(m, exits, lookup, s, k).Some?;
      forall n: nat | InPlace(m, exits, lookup, s, n).Some?
        ensures InPlace(m, exits, lookup, s, n) == Some(Substitute(ps, lookup))
      {
        LoopUnique(iteration, s, n, k);
      }
    } else {
      forall n: nat ensures InPlace(m, exits, lookup, s, n).None? {
        LoopHangs(iteration, q => Canonical(m, q), m, exits, lookup, "", ps, n);
      }
    }
  }

  // ── Texts put together from parts ────────────────────────────────────

  /** Plain text and then a placeholder. */
  datatype Part = Part(before: string, inner: string)

  /** The text of some parts and a plain tail. */
  function Written(m: Marks, parts: seq<Part>, tail: string): string {
    if parts == [] then tail
    else parts[0].before + m.open + (parts[0].inner + m.close + Written(m, parts[1..], tail))
  }

  /** The same with something else in the place of each placeholder. */
  function Filled(parts: seq<Part>, tail: string, value: string -> string): string {
    if parts == [] then tail else parts[0].before + value(parts[0].inner) + Filled(parts[1..], tail, value)
  }

  /** No mark starts in the plain text, and none that closes between the marks. */
  predicate PlainParts(m: Marks, parts: seq<Part>, tail: string) {
    && (forall i :: 0 <= i < |parts| ==> Inert(parts[i].before, m.open) && Inert(parts[i].inner, m.close))
    && Inert(tail, m.open)
  }

  function PiecesOf(m: Marks, parts: seq<Part>, tail: string): Pieces {
    if parts == [] then Tail(tail, false)
    else Piece(parts[0].before, m.open + (parts[0].inner + m.close), parts[0].inner, PiecesOf(m, parts[1..], tail))
  }

  lemma FindAtFront(mark: string, s: string)
    ensures Find(mark + s, mark) == Some(0)
  {
    assert (mark + s)[..|mark|] == mark;
  }

  /** A mark behind inert text is found there. */
  lemma FindBehind(p: string, mark: string, s: string)
    requires Inert(p, mark)
    ensures Find(p + mark + s, mark) == Some(|p|)
  {
    FindAtFront(mark, s);
    PrefixMovesFind(p, mark + s, mark);
    assert p + (mark + s) == p + mark + s;
  }

  lemma NotFound(p: string, mark: string)
    requires mark != "" && Inert(p, mark)
    ensures Find(p, mark).None?
  {
    PrefixMovesFind(p, "", mark);
    assert p + "" == p;
  }

  /** Cutting a text gives back the parts it was put together from. */
  lemma {:induction false} ParseWritten(m: Marks, parts: seq<Part>, tail: string)
    requires m.open != "" && PlainParts(m, parts, tail)
    ensures Parse(m, Written(m, parts, tail)) == PiecesOf(m, parts, tail)
    decreases |parts|
  {
    var s := Written(m, parts, tail);
    if parts == [] {
      NotFound(tail, m.open);
      ParseIs(m, s, FirstCut(m, s));
    } else {
      var before, inner, rest := parts[0].before, parts[0].inner, Written(m, parts[1..], tail);
      var behind := inner + m.close + rest;
      FindBehind(before, m.open, behind);
      FindBehind(inner, m.close, rest);
      CutIs(m, s, before, inner, rest, behind);
      ParseIs(m, s, FirstCut(m, s));
      ParseWritten(m, parts[1..], tail);
    }
  }

  /** Every placeholder has a value: the substitution fills the parts in. */
  lemma {:induction false} SubstituteWritten(m: Marks, parts: seq<Part>, tail: string, lookup: Lookup, value: string -> string)
    requires forall i :: 0 <= i < |parts| ==> lookup(parts[i].inner) == Some(value(parts[i].inner))
    ensures Substitute(PiecesOf(m, parts, tail), lookup) == Filled(parts, tail, value)
    decreases |parts|
  {
    if parts == [] {
    } else {
      SubstituteWritten(m, parts[1..], tail, lookup, value);
    }
  }

  lemma {:induction false} InertWritten(m: Marks, parts: seq<Part>, tail: string, lookup: Lookup)
    requires PlainParts(m, parts, tail)
    requires forall i :: 0 <= i < |parts| ==> lookup(parts[i].inner).Some? && Inert(lookup(parts[i].inner).value, m.open)
    ensures AllInert(m, PiecesOf(m, parts, tail), lookup) && GetsThrough(false, PiecesOf(m, parts, tail), lookup)
    ensures GetsThrough(true, PiecesOf(m, parts, tail), lookup)
    decreases |parts|
  {
    if parts == [] {
    } else {
      InertWritten(m, parts[1..], tail, lookup);
    }
  }
}

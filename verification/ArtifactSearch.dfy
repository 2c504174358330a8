/** Search over a loaded artifact. Matches are shown in blocks with context; a block is
    never split and a line is never shown twice, so a page may pass its Max inside its
    last block. Following the cursors is proved to show exactly what one unbounded search
    shows, for any Max on each page, unless the search is filtered to a name that several
    sources share; the exact exception is proved too.

    The regular expression is any predicate on lines. Line numbers start at 1. */
module ArtifactSearch {
  import opened Base

  type Matcher = string -> bool

  datatype Source = Source(name: string, lines: seq<string>)
  datatype Line = Line(source: string, n: nat, text: string, mark: bool)

  /** `filter` is "" for all sources. */
  datatype Query = Query(filter: string, before: nat, after: nat)

  datatype Result = Result(lines: seq<Line>, matches: nat, nextSource: nat, nextLine: nat, done: bool)

  // ----- the specification

  /** The first matching line from line n on, or one past the last line. */
  function NextHit(m: Matcher, lines: seq<string>, n: nat): (k: nat)
    requires n >= 1
    ensures k >= n || k == |lines| + 1
    ensures k >= 1 && (k <= |lines| ==> n <= k && m(lines[k - 1])) && k <= |lines| + 1
    decreases |lines| + 1 - n
  {
    if n > |lines| then |lines| + 1 else if m(lines[n - 1]) then n else NextHit(m, lines, n + 1)
  }

  function Max(a: int, b: int): int { if a > b then a else b }
  function Min(a: int, b: int): int { if a < b then a else b }

  /** Lines from..to of a source, clipped, with their match marks. */
  function Shown(m: Matcher, s: Source, from: int, to: int): (r: seq<Line>)
    requires 1 <= from && to <= |s.lines|
    ensures |r| == if to < from then 0 else to - from + 1
  {
    if to < from then []
    else seq(to - from + 1, i requires 0 <= i < to - from + 1 => Line(s.name, from + i, s.lines[from + i - 1], m(s.lines[from + i - 1])))
  }

  /** The block around hit n when the lines up to `e` were passed. */
  function BlockFrom(q: Query, e: nat, n: nat): (f: nat)
    requires e < n
    ensures e < f <= n
  {
    Max(e + 1, n - q.before)
  }

  function BlockTo(q: Query, s: Source, n: nat): (t: nat)
    requires n <= |s.lines|
    ensures n <= t <= |s.lines|
  {
    Min(|s.lines|, n + q.after)
  }

  function Block(m: Matcher, q: Query, s: Source, e: nat, n: nat): seq<Line>
    requires e < n <= |s.lines|
  {
    Shown(m, s, BlockFrom(q, e, n), BlockTo(q, s, n))
  }

  predicate Included(q: Query, s: Source) { q.filter == "" || q.filter == s.name }

  function Left(s: Source, e: nat): nat { if e <= |s.lines| then |s.lines| - e else 0 }

  /** All blocks of one source after line e. */
  function AllIn(m: Matcher, q: Query, s: Source, e: nat): seq<Line>
    decreases Left(s, e)
  {
    var n := NextHit(m, s.lines, e + 1);
    if n > |s.lines| then [] else Block(m, q, s, e, n) + AllIn(m, q, s, BlockTo(q, s, n))
  }

  /** Everything an unbounded search shows from source si, after line e, on. */
  function AllFrom(m: Matcher, sources: seq<Source>, q: Query, si: nat, e: nat): seq<Line>
    decreases |sources| - si
  {
    if si >= |sources| then []
    else (if Included(q, sources[si]) then AllIn(m, q, sources[si], e) else []) + AllFrom(m, sources, q, si + 1, 0)
  }

  function Marks(lines: seq<Line>): nat {
    if lines == [] then 0 else Marks(lines[..|lines| - 1]) + (if lines[|lines| - 1].mark then 1 else 0)
  }

  function Prepend(lines: seq<Line>, r: Result): Result {
    r.(lines := lines + r.lines)
  }

  /** One page: blocks until `max` matches are reached, `matches` of them already. */
  function Walk(m: Matcher, sources: seq<Source>, q: Query, si: nat, e: nat, matches: nat, max: nat): Result
    decreases |sources| - si, if si < |sources| then Left(sources[si], e) else 0
  {
    if si >= |sources| then Result([], matches, |sources|, 1, true)
    else
      var s := sources[si];
      var n := NextHit(m, s.lines, e + 1);
      if !Included(q, s) || n > |s.lines| then Walk(m, sources, q, si + 1, 0, matches, max)
      else
        var block, to := Block(m, q, s, e, n), BlockTo(q, s, n);
        var matches' := matches + Marks(block);
        if matches' < max then Prepend(block, Walk(m, sources, q, si, to, matches', max))
        else if to == |s.lines| then Result(block, matches', si + 1, 1, q.filter != "" || si + 1 == |sources|)
        else Result(block, matches', si, to + 1, false)
  }

  // ----- which lines a search shows, without blocks

  /** Line n, behind line e, is a match that opens its own context: it does not lie in the
      lines shown behind an earlier match that did. */
  ghost predicate Opens(m: Matcher, q: Query, s: Source, e: nat, n: nat)
    decreases n
  {
    && e < n <= |s.lines| && m(s.lines[n - 1])
    && forall k: nat :: e < k < n && Opens(m, q, s, e, k) ==> k + q.after < n
  }

  /** Line n is to be shown: it lies at most Before ahead of a match, or at most After behind
      a match that opens its own context. */
  ghost predicate ToShow(m: Matcher, q: Query, s: Source, e: nat, n: nat) {
    && e < n <= |s.lines|
    && ((exists k: nat :: Ahead(m, q, s, n, k)) || (exists k: nat :: Behind(m, q, s, e, n, k)))
  }

  predicate Ahead(m: Matcher, q: Query, s: Source, n: nat, k: nat) {
    1 <= k && n <= k <= |s.lines| && k - q.before <= n && m(s.lines[k - 1])
  }

  ghost predicate Behind(m: Matcher, q: Query, s: Source, e: nat, n: nat, k: nat) {
    k <= n <= k + q.after && Opens(m, q, s, e, k)
  }

  /** A line of the source, with its text and whether it matches. */
  predicate IsLine(m: Matcher, s: Source, l: Line) {
    1 <= l.n <= |s.lines| && l == Line(s.name, l.n, s.lines[l.n - 1], m(s.lines[l.n - 1]))
  }

  /** The lines are those to be shown, in increasing order, each once, with their text and
      whether they match. */
  ghost predicate ShowsExactly(m: Matcher, q: Query, s: Source, e: nat, lines: seq<Line>) {
    && (forall i :: 0 <= i < |lines| ==> IsLine(m, s, lines[i]))
    && (forall i, j :: 0 <= i < j < |lines| ==> lines[i].n < lines[j].n)
    && (forall n: nat :: ToShow(m, q, s, e, n) <==> HasNumber(lines, n))
  }

  predicate HasNumber(lines: seq<Line>, n: nat) { exists i :: 0 <= i < |lines| && lines[i].n == n }

  lemma {:induction false} NextHitFirst(m: Matcher, lines: seq<string>, n: nat)
    requires n >= 1
    ensures forall k :: n - 1 <= k < NextHit(m, lines, n) - 1 && k < |lines| ==> !m(lines[k])
    decreases |lines| + 1 - n
  {
    if n <= |lines| && !m(lines[n - 1]) {
      NextHitFirst(m, lines, n + 1);
    }
  }

  /** The first match behind e opens; what it covers opens nothing else. */
  lemma FirstOpens(m: Matcher, q: Query, s: Source, e: nat, n: nat)
    requires n == NextHit(m, s.lines, e + 1) <= |s.lines|
    ensures Opens(m, q, s, e, n)
    ensures forall k: nat :: Opens(m, q, s, e, k) && k <= n + q.after ==> k == n
  {
    NextHitFirst(m, s.lines, e + 1);
    assert Opens(m, q, s, e, n);
    forall k: nat | Opens(m, q, s, e, k) && k <= n + q.after
      ensures k == n
    {
      assert k >= n;
    }
  }

  /** Behind the first block, the same matches open as if one started there. */
  lemma {:induction false} OpensBehind(m: Matcher, q: Query, s: Source, e: nat, n: nat, k: nat)
    requires n == NextHit(m, s.lines, e + 1) <= |s.lines| && BlockTo(q, s, n) < k
    ensures Opens(m, q, s, e, k) <==> Opens(m, q, s, BlockTo(q, s, n), k)
    decreases k
  {
    var to := BlockTo(q, s, n);
    FirstOpens(m, q, s, e, n);
    if k <= |s.lines| {
      assert to == n + q.after;
      forall j: nat | to < j < k
        ensures Opens(m, q, s, e, j) <==> Opens(m, q, s, to, j)
      {
        OpensBehind(m, q, s, e, n, j);
      }
    }
  }

  lemma ShowsInBlock(m: Matcher, q: Query, s: Source, e: nat, n: nat, x: nat)
    requires n == NextHit(m, s.lines, e + 1) <= |s.lines| && x <= BlockTo(q, s, n)
    ensures ToShow(m, q, s, e, x) <==> BlockFrom(q, e, n) <= x
  {
    FirstOpens(m, q, s, e, n);
    NextHitFirst(m, s.lines, e + 1);
    if BlockFrom(q, e, n) <= x {
      if x <= n {
        assert Ahead(m, q, s, x, n);
      } else {
        assert Behind(m, q, s, e, x, n);
      }
    }
  }

  lemma ShowsBehindBlock(m: Matcher, q: Query, s: Source, e: nat, n: nat, x: nat)
    requires n == NextHit(m, s.lines, e + 1) <= |s.lines| && BlockTo(q, s, n) < x
    ensures ToShow(m, q, s, e, x) <==> ToShow(m, q, s, BlockTo(q, s, n), x)
  {
    var to := BlockTo(q, s, n);
    FirstOpens(m, q, s, e, n);
    forall k: nat | k <= x <= |s.lines|
      ensures Behind(m, q, s, e, x, k) <==> Behind(m, q, s, to, x, k)
    {
      if to < k {
        OpensBehind(m, q, s, e, n, k);
      }
    }
  }

  lemma NothingToShow(m: Matcher, q: Query, s: Source, e: nat)
    requires NextHit(m, s.lines, e + 1) > |s.lines|
    ensures forall x: nat :: !ToShow(m, q, s, e, x)
  {
    NextHitFirst(m, s.lines, e + 1);
  }

  lemma BlockNumbers(m: Matcher, q: Query, s: Source, e: nat, n: nat, x: nat)
    requires e < n <= |s.lines|
    ensures HasNumber(Block(m, q, s, e, n), x) <==> BlockFrom(q, e, n) <= x <= BlockTo(q, s, n)
  {
    var b, from := Block(m, q, s, e, n), BlockFrom(q, e, n);
    if from <= x <= BlockTo(q, s, n) {
      assert b[x - from].n == x;
    }
  }

  lemma NumbersAppend(a: seq<Line>, b: seq<Line>, x: nat)
    ensures HasNumber(a + b, x) <==> HasNumber(a, x) || HasNumber(b, x)
  {
    var c := a + b;
    assert forall i :: 0 <= i < |a| ==> c[i] == a[i];
    assert forall i :: 0 <= i < |b| ==> c[|a| + i] == b[i];
  }

  /** A search shows of a source, behind line e, exactly the lines at most Before ahead of a
      match or at most After behind a match that opens its own context; in order, once. */
  lemma {:induction false} AllInExactly(m: Matcher, q: Query, s: Source, e: nat)
    ensures ShowsExactly(m, q, s, e, AllIn(m, q, s, e))
    decreases Left(s, e)
  {
    hide ToShow, HasNumber, NextHit;
    var n := NextHit(m, s.lines, e + 1);
    if n > |s.lines| {
      NothingToShow(m, q, s, e);
      NoNumbers();
    } else {
      var to, block := BlockTo(q, s, n), Block(m, q, s, e, n);
      AllInExactly(m, q, s, to);
      var rest := AllIn(m, q, s, to);
      forall x: nat
        ensures ToShow(m, q, s, e, x) <==> HasNumber(block + rest, x)
      {
        NumbersAppend(block, rest, x);
        BlockNumbers(m, q, s, e, n, x);
        if x <= to {
          ShowsInBlock(m, q, s, e, n, x);
          ToShowBehind(m, q, s, to, x);
        } else {
          ShowsBehindBlock(m, q, s, e, n, x);
        }
      }
      ShownInOrder(m, q, s, e, n, rest);
    }
  }

  lemma NoNumbers()
    ensures forall x: nat :: !HasNumber([], x)
  {
  }

  lemma ToShowBehind(m: Matcher, q: Query, s: Source, e: nat, x: nat)
    ensures ToShow(m, q, s, e, x) ==> x > e
  {
  }

  /** The lines of a block, then lines further behind. */
  lemma ShownInOrder(m: Matcher, q: Query, s: Source, e: nat, n: nat, rest: seq<Line>)
    requires e < n <= |s.lines| && ShowsExactly(m, q, s, BlockTo(q, s, n), rest)
    ensures var all := Block(m, q, s, e, n) + rest;
            && (forall i :: 0 <= i < |all| ==> IsLine(m, s, all[i]))
            && (forall i, j :: 0 <= i < j < |all| ==> all[i].n < all[j].n)
  {
    var b, to := Block(m, q, s, e, n), BlockTo(q, s, n);
    forall i | 0 <= i < |rest|
      ensures rest[i].n > to
    {
      assert HasNumber(rest, rest[i].n);
      ToShowBehind(m, q, s, to, rest[i].n);
    }
  }

  /** Over all sources, a line is shown exactly if it is to be shown in a source that the
      filter takes: all of them without a filter, and otherwise those of that name. */
  lemma {:induction false} AllFromExactly(m: Matcher, sources: seq<Source>, q: Query, si: nat, e: nat, l: Line)
    ensures l in AllFrom(m, sources, q, si, e) <==> ShownBySome(m, sources, q, si, e, l)
    decreases |sources| - si
  {
    hide AllIn, ToShow, ShownBySome, ShowsExactly;
    NoneBeyond(m, sources, q, si, e, l);
    if si < |sources| {
      var s := sources[si];
      AllFromExactly(m, sources, q, si + 1, 0, l);
      AllInExactly(m, q, s, e);
      LineShown(m, q, s, e, AllIn(m, q, s, e), l);
      SomeStep(m, sources, q, si, e, l);
    }
  }

  ghost predicate ShownBySome(m: Matcher, sources: seq<Source>, q: Query, si: nat, e: nat, l: Line) {
    exists i :: si <= i < |sources| && LineOf(m, q, sources[i], if i == si then e else 0, l)
  }

  lemma NoneBeyond(m: Matcher, sources: seq<Source>, q: Query, si: nat, e: nat, l: Line)
    ensures si >= |sources| ==> !ShownBySome(m, sources, q, si, e, l)
  {
  }

  lemma SomeStep(m: Matcher, sources: seq<Source>, q: Query, si: nat, e: nat, l: Line)
    requires si < |sources|
    ensures ShownBySome(m, sources, q, si, e, l) <==> LineOf(m, q, sources[si], e, l) || ShownBySome(m, sources, q, si + 1, 0, l)
  {
    hide LineOf;
  }

  /** A line that is to be shown of a source the filter takes, with its text and mark. */
  ghost predicate LineOf(m: Matcher, q: Query, s: Source, e: nat, l: Line) {
    (q.filter == "" || q.filter == s.name) && ToShow(m, q, s, e, l.n) && IsLine(m, s, l)
  }

  lemma LineShown(m: Matcher, q: Query, s: Source, e: nat, lines: seq<Line>, l: Line)
    requires ShowsExactly(m, q, s, e, lines)
    ensures l in lines <==> ToShow(m, q, s, e, l.n) && IsLine(m, s, l)
  {
    hide ToShow;
    if l in lines {
      var i :| 0 <= i < |lines| && lines[i] == l;
      assert HasNumber(lines, l.n);
    }
    if ToShow(m, q, s, e, l.n) {
      assert HasNumber(lines, l.n);
      var i :| 0 <= i < |lines| && lines[i].n == l.n;
      assert lines[i] in lines;
    }
  }

  // ----- the code

  datatype Answer = Page(result: Result) | UnknownSource | InvalidQuery

  /** Lines from..to, clipped to the source. */
  method Read(m: Matcher, s: Source, from: int, to: int) returns (lines: seq<Line>)
    ensures lines == Shown(m, s, Max(1, from), Min(to, |s.lines|))
  {
    lines := [];
    var first, last := Max(1, from), Min(to, |s.lines|);
    var n := first;
    while n <= last
      invariant first <= n && (n <= last + 1 || n == first) && lines == Shown(m, s, first, Min(n - 1, last))
    {
      lines := lines + [Line(s.name, n, s.lines[n - 1], m(s.lines[n - 1]))];
      n := n + 1;
    }
  }

  method CountMarks(lines: seq<Line>) returns (c: nat)
    ensures c == Marks(lines)
  {
    c := 0;
    for i := 0 to |lines|
      invariant c == Marks(lines[..i])
    {
      assert lines[..i + 1][..i] == lines[..i];
      if lines[i].mark {
        c := c + 1;
      }
    }
    assert lines[..|lines|] == lines;
  }

  /** Artifact.Search: one page from the given cursor. */
  method Search(m: Matcher, sources: seq<Source>, q: Query, max: int, startSource: int, startLine: int) returns (a: Answer)
    ensures a.UnknownSource? <==> q.filter != "" && forall i :: 0 <= i < |sources| ==> sources[i].name != q.filter
    ensures a.InvalidQuery? <==> !a.UnknownSource? && (max < 1 || startSource < 0 || startSource > |sources| || startLine < 0)
    ensures a.Page? ==> a.result == Walk(m, sources, q, startSource, Max(1, startLine) - 1, 0, max)
  {
    var known := KnownSource(sources, q.filter);
    if q.filter != "" && !known {
      return UnknownSource;
    }
    if max < 1 || startSource < 0 || startSource > |sources| || startLine < 0 {
      return InvalidQuery;
    }
    var r := SearchSources(m, sources, q, max, startSource, Max(1, startLine) - 1);
    return Page(r);
  }

  method KnownSource(sources: seq<Source>, name: string) returns (known: bool)
    ensures known <==> exists i :: 0 <= i < |sources| && sources[i].name == name
  {
    for i := 0 to |sources|
      invariant forall j :: 0 <= j < i ==> sources[j].name != name
    {
      if sources[i].name == name {
        return true;
      }
    }
    return false;
  }

  /** The loop over the sources. */
  method SearchSources(m: Matcher, sources: seq<Source>, q: Query, max: nat, startSource: nat, startAfter: nat) returns (r: Result)
    requires startSource <= |sources|
    ensures r == Walk(m, sources, q, startSource, startAfter, 0, max)
  {
    var lines: seq<Line> := [];
    var matches: nat, si: nat, e: nat := 0, startSource, startAfter;
    ghost var goal := Walk(m, sources, q, si, e, 0, max);
    assert goal == Prepend([], goal);
    while si < |sources|
      invariant si <= |sources|
      invariant goal == Prepend(lines, Walk(m, sources, q, si, e, matches, max))
      decreases |sources| - si
    {
      if Included(q, sources[si]) {
        var stopped, page;
        lines, matches, stopped, page := SearchSource(m, sources, q, max, si, e, lines, matches);
        if stopped {
          return page;
        }
      }
      si, e := si + 1, 0;
    }
    assert lines + [] == lines;
    return Result(lines, matches, |sources|, 1, true);
  }

  /** The loop over one source. It stops with the page's result, or runs out of matches. */
  method SearchSource(m: Matcher, sources: seq<Source>, q: Query, max: nat, si: nat, e0: nat, lines0: seq<Line>, matches0: nat)
    returns (lines: seq<Line>, matches: nat, stopped: bool, result: Result)
    requires si < |sources| && Included(q, sources[si])
    ensures var goal := Prepend(lines0, Walk(m, sources, q, si, e0, matches0, max));
            if stopped then result == goal else goal == Prepend(lines, Walk(m, sources, q, si + 1, 0, matches, max))
  {
    hide *;
    var s := sources[si];
    var e: nat, n: nat := e0, e0 + 1;
    lines, matches, stopped, result := lines0, matches0, false, Result([], 0, 0, 0, false);
    ghost var goal := Prepend(lines0, Walk(m, sources, q, si, e0, matches0, max));
    while n <= |s.lines|
      invariant e < n && NextHit(m, s.lines, n) == NextHit(m, s.lines, e + 1)
      invariant goal == Prepend(lines, Walk(m, sources, q, si, e, matches, max))
      decreases |s.lines| - n
    {
      NextHitStep(m, s.lines, n);
      if m(s.lines[n - 1]) {
        lines, matches, e, stopped, result := SearchBlock(m, sources, q, max, si, e, n, lines, matches);
        if stopped {
          return;
        }
        n := e;
      }
      n := n + 1;
    }
    WalkOn(m, sources, q, si, e, matches, max);
  }

  lemma NextHitStep(m: Matcher, lines: seq<string>, n: nat)
    requires 1 <= n <= |lines|
    ensures NextHit(m, lines, n) == if m(lines[n - 1]) then n else NextHit(m, lines, n + 1)
  {
  }

  /** The block around the match in line n, and the test for the end of the page. */
  method SearchBlock(m: Matcher, sources: seq<Source>, q: Query, max: nat, si: nat, e: nat, n: nat, lines: seq<Line>, matches: nat)
    returns (lines': seq<Line>, matches': nat, e': nat, stopped: bool, result: Result)
    requires si < |sources| && Included(q, sources[si])
    requires n == NextHit(m, sources[si].lines, e + 1) && e < n <= |sources[si].lines|
    ensures n <= e' <= |sources[si].lines|
    ensures var goal := Prepend(lines, Walk(m, sources, q, si, e, matches, max));
            if stopped then result == goal else goal == Prepend(lines', Walk(m, sources, q, si, e', matches', max))
  {
    hide Walk, Marks, Shown;
    var s := sources[si];
    var block := Read(m, s, Max(e + 1, n - q.before), Min(|s.lines|, n + q.after));
    var c := CountMarks(block);
    WalkBlock(m, sources, q, si, e, matches, max, lines, n);
    matches', lines', e' := matches + c, lines + block, Min(|s.lines|, n + q.after);
    stopped := matches' >= max;
    result := if e' == |s.lines| then Result(lines', matches', si + 1, 1, q.filter != "" || si + 1 == |sources|)
              else Result(lines', matches', si, e' + 1, false);
  }

  /** Without a further match in the source, the walk goes on in the next one. */
  lemma WalkOn(m: Matcher, sources: seq<Source>, q: Query, si: nat, e: nat, matches: nat, max: nat)
    requires si < |sources| && (!Included(q, sources[si]) || NextHit(m, sources[si].lines, e + 1) > |sources[si].lines|)
    ensures Walk(m, sources, q, si, e, matches, max) == Walk(m, sources, q, si + 1, 0, matches, max)
  {
  }

  /** One block of the walk, in front of which `lines` were shown. */
  lemma WalkBlock(m: Matcher, sources: seq<Source>, q: Query, si: nat, e: nat, matches: nat, max: nat, lines: seq<Line>, n: nat)
    requires si < |sources| && Included(q, sources[si])
    requires n == NextHit(m, sources[si].lines, e + 1) && e < n <= |sources[si].lines|
    ensures var s := sources[si]; var block, to := Block(m, q, s, e, n), BlockTo(q, s, n); var matches' := matches + Marks(block);
            Prepend(lines, Walk(m, sources, q, si, e, matches, max)) ==
            if matches' < max then Prepend(lines + block, Walk(m, sources, q, si, to, matches', max))
            else if to == |s.lines| then Result(lines + block, matches', si + 1, 1, q.filter != "" || si + 1 == |sources|)
            else Result(lines + block, matches', si, to + 1, false)
  {
    var s := sources[si];
    var block, to := Block(m, q, s, e, n), BlockTo(q, s, n);
    var r := Walk(m, sources, q, si, to, matches + Marks(block), max).lines;
    assert lines + (block + r) == (lines + block) + r;
  }

  // ----- blocks

  lemma {:induction false} MarksAppend(a: seq<Line>, b: seq<Line>)
    ensures Marks(a + b) == Marks(a) + Marks(b)
    decreases |b|
  {
    if b == [] {
      assert a + b == a;
    } else {
      assert (a + b)[..|a + b| - 1] == a + b[..|b| - 1];
      MarksAppend(a, b[..|b| - 1]);
    }
  }

  lemma {:induction false} MarkedCounts(lines: seq<Line>, i: nat)
    requires i < |lines| && lines[i].mark
    ensures Marks(lines) >= 1
    decreases |lines|
  {
    if i < |lines| - 1 {
      MarkedCounts(lines[..|lines| - 1], i);
    }
  }

  /** A block holds its match, and ends where it says. */
  lemma BlockShape(m: Matcher, q: Query, s: Source, e: nat, n: nat)
    requires e < n <= |s.lines| && m(s.lines[n - 1])
    ensures var b := Block(m, q, s, e, n); b != [] && Marks(b) >= 1 && b[|b| - 1].n == BlockTo(q, s, n)
  {
    var b := Block(m, q, s, e, n);
    MarkedCounts(b, n - BlockFrom(q, e, n));
  }

  lemma AllInStep(m: Matcher, q: Query, s: Source, e: nat)
    ensures var n := NextHit(m, s.lines, e + 1);
            AllIn(m, q, s, e) == if n > |s.lines| then [] else Block(m, q, s, e, n) + AllIn(m, q, s, BlockTo(q, s, n))
  {
  }

  lemma AllFromStep(m: Matcher, sources: seq<Source>, q: Query, si: nat, e: nat)
    requires si < |sources|
    ensures AllFrom(m, sources, q, si, e) ==
            (if Included(q, sources[si]) then AllIn(m, q, sources[si], e) else []) + AllFrom(m, sources, q, si + 1, 0)
  {
  }

  lemma AllFromEnd(m: Matcher, sources: seq<Source>, q: Query, si: nat, e: nat)
    requires si >= |sources|
    ensures AllFrom(m, sources, q, si, e) == []
  {
  }

  /** A block comes first, if there is one; otherwise the next source. */
  lemma AllFromBlock(m: Matcher, sources: seq<Source>, q: Query, si: nat, e: nat)
    requires si < |sources|
    ensures var s := sources[si]; var n := NextHit(m, s.lines, e + 1);
            AllFrom(m, sources, q, si, e) ==
            if !Included(q, s) || n > |s.lines| then AllFrom(m, sources, q, si + 1, 0)
            else Block(m, q, s, e, n) + AllFrom(m, sources, q, si, BlockTo(q, s, n))
  {
    hide AllFrom, AllIn, Block, BlockTo, BlockFrom;
    var s := sources[si];
    var n := NextHit(m, s.lines, e + 1);
    AllFromStep(m, sources, q, si, e);
    if Included(q, s) {
      AllInStep(m, q, s, e);
      if n <= |s.lines| {
        AllFromStep(m, sources, q, si, BlockTo(q, s, n));
        Assoc(Block(m, q, s, e, n), AllIn(m, q, s, BlockTo(q, s, n)), AllFrom(m, sources, q, si + 1, 0));
      }
    }
  }

  lemma Assoc(a: seq<Line>, b: seq<Line>, c: seq<Line>)
    ensures (a + b) + c == a + (b + c) && [] + c == c && a + [] == a
  {
  }

  /** After the last line of a source the next one begins. */
  lemma AllFromSourceEnd(m: Matcher, sources: seq<Source>, q: Query, si: nat)
    requires si < |sources|
    ensures AllFrom(m, sources, q, si, |sources[si].lines|) == AllFrom(m, sources, q, si + 1, 0)
  {
    hide AllFrom;
    AllFromBlock(m, sources, q, si, |sources[si].lines|);
  }

  // ----- one page

  /** The four ways a walk goes on. */
  lemma WalkStep(m: Matcher, sources: seq<Source>, q: Query, si: nat, e: nat, matches: nat, max: nat)
    ensures si >= |sources| ==> Walk(m, sources, q, si, e, matches, max) == Result([], matches, |sources|, 1, true)
    ensures si < |sources| ==>
              var s := sources[si]; var n := NextHit(m, s.lines, e + 1); var w := Walk(m, sources, q, si, e, matches, max);
              if !Included(q, s) || n > |s.lines| then w == Walk(m, sources, q, si + 1, 0, matches, max)
              else
                var block, to := Block(m, q, s, e, n), BlockTo(q, s, n); var matches' := matches + Marks(block);
                if matches' < max then w == Prepend(block, Walk(m, sources, q, si, to, matches', max))
                else if to == |s.lines| then w == Result(block, matches', si + 1, 1, q.filter != "" || si + 1 == |sources|)
                else w == Result(block, matches', si, to + 1, false)
  {
    hide Marks, Block, BlockTo, NextHit, Included, Prepend;
  }

  /** What page `r`, started at (si, e) with `matches` already counted, guarantees: its
      lines followed by everything from its cursor on are everything from (si, e) on; it
      counts its marks; it stops early only when full; its cursor has advanced. */
  ghost predicate PageOk(m: Matcher, sources: seq<Source>, q: Query, si: nat, e: nat, matches: nat, max: nat, r: Result) {
    && r.nextLine >= 1
    && r.lines + AllFrom(m, sources, q, r.nextSource, r.nextLine - 1) == AllFrom(m, sources, q, si, e)
    && r.matches == matches + Marks(r.lines)
    && (!r.done ==> r.matches >= max && r.nextSource <= |sources| &&
                    (r.nextSource > si || (r.nextSource == si < |sources| && e < r.nextLine - 1 <= |sources[si].lines|)))
    && (r.done ==> r.nextSource >= |sources| || q.filter != "")
  }

  lemma {:induction false} WalkConserves(m: Matcher, sources: seq<Source>, q: Query, si: nat, e: nat, matches: nat, max: nat)
    ensures PageOk(m, sources, q, si, e, matches, max, Walk(m, sources, q, si, e, matches, max))
    decreases |sources| - si, if si < |sources| then Left(sources[si], e) else 0
  {
    hide Walk, AllFrom, Block, BlockFrom, Marks;
    WalkStep(m, sources, q, si, e, matches, max);
    if si >= |sources| {
      AllFromEnd(m, sources, q, si, e);
      AllFromEnd(m, sources, q, |sources|, 0);
      NoMarks();
    } else {
      var s := sources[si];
      var n := NextHit(m, s.lines, e + 1);
      AllFromBlock(m, sources, q, si, e);
      if !Included(q, s) || n > |s.lines| {
        WalkConserves(m, sources, q, si + 1, 0, matches, max);
      } else {
        WalkConservesBlock(m, sources, q, si, e, matches, max);
      }
    }
  }

  lemma NoMarks()
    ensures Marks([]) == 0
  {
  }

  lemma {:induction false} WalkConservesBlock(m: Matcher, sources: seq<Source>, q: Query, si: nat, e: nat, matches: nat, max: nat)
    requires si < |sources| && Included(q, sources[si]) && NextHit(m, sources[si].lines, e + 1) <= |sources[si].lines|
    ensures PageOk(m, sources, q, si, e, matches, max, Walk(m, sources, q, si, e, matches, max))
    decreases |sources| - si, Left(sources[si], e), 0
  {
    hide Walk, AllFrom, Block, BlockFrom, Marks;
    var s := sources[si];
    var n := NextHit(m, s.lines, e + 1);
    var block, to := Block(m, q, s, e, n), BlockTo(q, s, n);
    WalkStep(m, sources, q, si, e, matches, max);
    AllFromBlock(m, sources, q, si, e);
    BlockShape(m, q, s, e, n);
    if matches + Marks(block) < max {
      WalkConserves(m, sources, q, si, to, matches + Marks(block), max);
      var r := Walk(m, sources, q, si, to, matches + Marks(block), max);
      MarksAppend(block, r.lines);
      Assoc(block, r.lines, AllFrom(m, sources, q, r.nextSource, r.nextLine - 1));
    } else if to == |s.lines| {
      AllFromSourceEnd(m, sources, q, si);
    }
  }

  lemma {:induction false} MarksAtMost(lines: seq<Line>)
    ensures Marks(lines) <= |lines|
  {
    if lines != [] {
      MarksAtMost(lines[..|lines| - 1]);
    }
  }

  /** A page stops as soon as it reached Max: it passes it by no more than one block. */
  lemma {:induction false} PageStops(m: Matcher, sources: seq<Source>, q: Query, si: nat, e: nat, matches: nat, max: nat)
    requires matches < max
    ensures Walk(m, sources, q, si, e, matches, max).matches <= max + q.before + q.after
    decreases |sources| - si, if si < |sources| then Left(sources[si], e) else 0
  {
    hide Walk, Block, Marks;
    WalkStep(m, sources, q, si, e, matches, max);
    if si < |sources| {
      var s := sources[si];
      var n := NextHit(m, s.lines, e + 1);
      if !Included(q, s) || n > |s.lines| {
        PageStops(m, sources, q, si + 1, 0, matches, max);
      } else {
        var block, to := Block(m, q, s, e, n), BlockTo(q, s, n);
        MarksAtMost(block);
        BlockLength(m, q, s, e, n);
        BlockShape(m, q, s, e, n);
        if matches + Marks(block) < max {
          PageStops(m, sources, q, si, to, matches + Marks(block), max);
        }
      }
    }
  }

  lemma BlockLength(m: Matcher, q: Query, s: Source, e: nat, n: nat)
    requires e < n <= |s.lines|
    ensures |Block(m, q, s, e, n)| <= q.before + q.after + 1
  {
  }

  /** A search whose Max is never reached shows everything, in one page. */
  lemma {:induction false} UnboundedPage(m: Matcher, sources: seq<Source>, q: Query, si: nat, e: nat, matches: nat, max: nat)
    requires matches + Marks(AllFrom(m, sources, q, si, e)) < max
    ensures var r := Walk(m, sources, q, si, e, matches, max); r.done && r.lines == AllFrom(m, sources, q, si, e)
    decreases |sources| - si, if si < |sources| then Left(sources[si], e) else 0
  {
    hide Walk, AllFrom, Block, BlockFrom, Marks;
    WalkStep(m, sources, q, si, e, matches, max);
    if si >= |sources| {
      AllFromEnd(m, sources, q, si, e);
    } else {
      var s := sources[si];
      var n := NextHit(m, s.lines, e + 1);
      AllFromBlock(m, sources, q, si, e);
      if !Included(q, s) || n > |s.lines| {
        UnboundedPage(m, sources, q, si + 1, 0, matches, max);
      } else {
        var block, to := Block(m, q, s, e, n), BlockTo(q, s, n);
        MarksAppend(block, AllFrom(m, sources, q, si, to));
        UnboundedPage(m, sources, q, si, to, matches + Marks(block), max);
      }
    }
  }

  // ----- all pages

  /** A page that is not done moves its cursor forward, so following cursors ends. */
  lemma PageAdvances(m: Matcher, sources: seq<Source>, q: Query, si: nat, e: nat, max: nat)
    ensures var r := Walk(m, sources, q, si, e, 0, max);
            && r.nextLine >= 1
            && (!r.done ==> si < |sources| && si <= r.nextSource <= |sources| &&
                            (r.nextSource == si ==> Left(sources[si], r.nextLine - 1) < Left(sources[si], e)))
  {
    hide Walk, AllFrom, Marks;
    WalkConserves(m, sources, q, si, e, 0, max);
    WalkStep(m, sources, q, si, e, 0, max);
  }

  /** Follows the cursors until a page says it is done; page k has Max maxes(k). */
  function Chain(m: Matcher, sources: seq<Source>, q: Query, maxes: nat -> nat, k: nat, si: nat, e: nat): seq<Line>
    decreases if si < |sources| then |sources| - si else 0, if si < |sources| then Left(sources[si], e) else 0
  {
    var r := Walk(m, sources, q, si, e, 0, maxes(k));
    PageAdvances(m, sources, q, si, e, maxes(k));
    if r.done then r.lines else r.lines + Chain(m, sources, q, maxes, k + 1, r.nextSource, r.nextLine - 1)
  }

  /** The blocks of the source reach its last line. */
  ghost predicate EndsShown(m: Matcher, q: Query, s: Source, e: nat) {
    var a := AllIn(m, q, s, e);
    a != [] && a[|a| - 1].n == |s.lines|
  }

  predicate HasMatch(m: Matcher, s: Source) { NextHit(m, s.lines, 1) <= |s.lines| }

  /** The exception: the search is filtered to a name, a source of that name is shown up to
      its last line, and a later source of the same name has a match. */
  ghost predicate Cut(m: Matcher, sources: seq<Source>, q: Query, si: nat, e: nat) {
    q.filter != "" && exists i, j :: CutAt(m, sources, q, si, e, i, j)
  }

  ghost predicate CutAt(m: Matcher, sources: seq<Source>, q: Query, si: nat, e: nat, i: nat, j: nat) {
    && si <= i < j < |sources| && Included(q, sources[i]) && Included(q, sources[j])
    && EndsShown(m, q, sources[i], if i == si then e else 0) && HasMatch(m, sources[j])
  }

  /** Inside its source, a cursor is where blocks from the source's start position end. */
  ghost predicate Reached(m: Matcher, q: Query, s: Source, from: nat, to: nat) {
    exists x :: AllIn(m, q, s, from) == x + AllIn(m, q, s, to)
  }

  /** Where the page's cursor, or the end that made it done, lies in the blocks. */
  ghost predicate CursorOk(m: Matcher, sources: seq<Source>, q: Query, si: nat, e: nat, r: Result) {
    && r.nextLine >= 1
    && (!r.done && r.nextSource < |sources| ==>
          r.nextSource >= si && Reached(m, q, sources[r.nextSource], if r.nextSource == si then e else 0, r.nextLine - 1))
    && (r.done && r.nextSource < |sources| ==>
          var i := r.nextSource - 1;
          si <= i && r.nextLine == 1 && Included(q, sources[i]) && EndsShown(m, q, sources[i], if i == si then e else 0))
  }

  lemma ReachedStep(m: Matcher, q: Query, s: Source, e: nat, to: nat, block: seq<Line>)
    requires AllIn(m, q, s, e) == block + AllIn(m, q, s, to)
    ensures Reached(m, q, s, e, to) && Reached(m, q, s, e, e)
    ensures forall c: nat :: Reached(m, q, s, to, c) ==> Reached(m, q, s, e, c)
    ensures EndsShown(m, q, s, to) ==> EndsShown(m, q, s, e)
  {
    hide AllIn;
    assert AllIn(m, q, s, e) == [] + AllIn(m, q, s, e);
    forall c: nat | Reached(m, q, s, to, c) ensures Reached(m, q, s, e, c) {
      var x :| AllIn(m, q, s, to) == x + AllIn(m, q, s, c);
      Assoc(block, x, AllIn(m, q, s, c));
      assert AllIn(m, q, s, e) == (block + x) + AllIn(m, q, s, c);
    }
  }

  lemma ReachedEnds(m: Matcher, q: Query, s: Source, from: nat, to: nat)
    requires Reached(m, q, s, from, to) && EndsShown(m, q, s, to)
    ensures EndsShown(m, q, s, from)
  {
    hide AllIn;
    var x :| AllIn(m, q, s, from) == x + AllIn(m, q, s, to);
  }

  lemma {:induction false} WalkCursor(m: Matcher, sources: seq<Source>, q: Query, si: nat, e: nat, matches: nat, max: nat)
    ensures CursorOk(m, sources, q, si, e, Walk(m, sources, q, si, e, matches, max))
    decreases |sources| - si, if si < |sources| then Left(sources[si], e) else 0
  {
    hide Walk, AllIn, Block, BlockFrom, Marks, Reached, EndsShown;
    WalkStep(m, sources, q, si, e, matches, max);
    if si < |sources| {
      var s := sources[si];
      var n := NextHit(m, s.lines, e + 1);
      if !Included(q, s) || n > |s.lines| {
        WalkCursor(m, sources, q, si + 1, 0, matches, max);
      } else {
        var block, to := Block(m, q, s, e, n), BlockTo(q, s, n);
        AllInStep(m, q, s, e);
        ReachedStep(m, q, s, e, to, block);
        if matches + Marks(block) < max {
          WalkCursor(m, sources, q, si, to, matches + Marks(block), max);
        } else if to == |s.lines| {
          BlockEnds(m, q, s, e);
          if si + 1 < |sources| {
            ReachedSelf(m, q, sources[si + 1], 0);
          }
        }
      }
    }
  }

  lemma ReachedSelf(m: Matcher, q: Query, s: Source, e: nat)
    ensures Reached(m, q, s, e, e)
  {
    hide AllIn;
    assert AllIn(m, q, s, e) == [] + AllIn(m, q, s, e);
  }

  /** A block up to the last line is the last block. */
  lemma BlockEnds(m: Matcher, q: Query, s: Source, e: nat)
    requires var n := NextHit(m, s.lines, e + 1); n <= |s.lines| && BlockTo(q, s, n) == |s.lines|
    ensures EndsShown(m, q, s, e)
  {
    var n := NextHit(m, s.lines, e + 1);
    BlockShape(m, q, s, e, n);
    AllInStep(m, q, s, e);
    AllInStep(m, q, s, |s.lines|);
    hide AllIn, Block;
    Assoc(Block(m, q, s, e, n), [], []);
  }

  lemma {:induction false} NoMatchesLeft(m: Matcher, sources: seq<Source>, q: Query, si: nat)
    requires forall j :: si <= j < |sources| && Included(q, sources[j]) ==> !HasMatch(m, sources[j])
    ensures AllFrom(m, sources, q, si, 0) == []
    decreases |sources| - si
  {
    if si < |sources| {
      AllFromBlock(m, sources, q, si, 0);
      NoMatchesLeft(m, sources, q, si + 1);
    }
  }

  /** Unless cut, following the cursors shows exactly what one unbounded search shows, in
      the same order, for any Max on each page. */
  lemma {:induction false} PagesExact(m: Matcher, sources: seq<Source>, q: Query, maxes: nat -> nat, k: nat, si: nat, e: nat)
    requires !Cut(m, sources, q, si, e)
    ensures Chain(m, sources, q, maxes, k, si, e) == AllFrom(m, sources, q, si, e)
    decreases if si < |sources| then |sources| - si else 0, if si < |sources| then Left(sources[si], e) else 0
  {
    hide *;
    var r := Walk(m, sources, q, si, e, 0, maxes(k));
    ChainStep(m, sources, q, maxes, k, si, e);
    WalkCursor(m, sources, q, si, e, 0, maxes(k));
    if r.done {
      PagesEnd(m, sources, q, si, e, r);
      Assoc(r.lines, [], []);
    } else {
      CutEarlier(m, sources, q, si, e, r);
      PagesExact(m, sources, q, maxes, k + 1, r.nextSource, r.nextLine - 1);
    }
  }

  lemma ChainStep(m: Matcher, sources: seq<Source>, q: Query, maxes: nat -> nat, k: nat, si: nat, e: nat)
    ensures var r := Walk(m, sources, q, si, e, 0, maxes(k));
            && r.nextLine >= 1
            && r.lines + AllFrom(m, sources, q, r.nextSource, r.nextLine - 1) == AllFrom(m, sources, q, si, e)
            && (r.done ==> Chain(m, sources, q, maxes, k, si, e) == r.lines && (r.nextSource >= |sources| || q.filter != ""))
            && (!r.done ==>
                  && Chain(m, sources, q, maxes, k, si, e) == r.lines + Chain(m, sources, q, maxes, k + 1, r.nextSource, r.nextLine - 1)
                  && si < |sources| && si <= r.nextSource <= |sources|
                  && (r.nextSource == si ==> Left(sources[si], r.nextLine - 1) < Left(sources[si], e)))
  {
    hide Walk, AllFrom, Marks, Left;
    WalkConserves(m, sources, q, si, e, 0, maxes(k));
    PageAdvances(m, sources, q, si, e, maxes(k));
  }

  /** The matches all pages report together. */
  function ChainMatches(m: Matcher, sources: seq<Source>, q: Query, maxes: nat -> nat, k: nat, si: nat, e: nat): nat
    decreases if si < |sources| then |sources| - si else 0, if si < |sources| then Left(sources[si], e) else 0
  {
    var r := Walk(m, sources, q, si, e, 0, maxes(k));
    PageAdvances(m, sources, q, si, e, maxes(k));
    if r.done then r.matches else r.matches + ChainMatches(m, sources, q, maxes, k + 1, r.nextSource, r.nextLine - 1)
  }

  /** The pages report as many matches as they show, cut or not. */
  lemma {:induction false} MatchesAreShown(m: Matcher, sources: seq<Source>, q: Query, maxes: nat -> nat, k: nat, si: nat, e: nat)
    ensures ChainMatches(m, sources, q, maxes, k, si, e) == Marks(Chain(m, sources, q, maxes, k, si, e))
    decreases if si < |sources| then |sources| - si else 0, if si < |sources| then Left(sources[si], e) else 0
  {
    hide Walk, AllFrom, Marks;
    var r := Walk(m, sources, q, si, e, 0, maxes(k));
    WalkConserves(m, sources, q, si, e, 0, maxes(k));
    ChainStep(m, sources, q, maxes, k, si, e);
    if !r.done {
      MatchesAreShown(m, sources, q, maxes, k + 1, r.nextSource, r.nextLine - 1);
      MarksAppend(r.lines, Chain(m, sources, q, maxes, k + 1, r.nextSource, r.nextLine - 1));
    }
  }

  /** Unless cut, the pages' matches add up to those of one unbounded search. */
  lemma MatchesAddUp(m: Matcher, sources: seq<Source>, q: Query, maxes: nat -> nat, k: nat, si: nat, e: nat, max: nat)
    requires !Cut(m, sources, q, si, e) && Marks(AllFrom(m, sources, q, si, e)) < max
    ensures ChainMatches(m, sources, q, maxes, k, si, e) == Walk(m, sources, q, si, e, 0, max).matches
  {
    hide Walk, AllFrom, Marks, Chain, ChainMatches, Cut;
    MatchesAreShown(m, sources, q, maxes, k, si, e);
    PagesExact(m, sources, q, maxes, k, si, e);
    UnboundedPage(m, sources, q, si, e, 0, max);
    WalkConserves(m, sources, q, si, e, 0, max);
  }

  ghost predicate DistinctNames(sources: seq<Source>) {
    forall i, j :: 0 <= i < j < |sources| ==> sources[i].name != sources[j].name
  }

  /** What a caller can check beforehand: without a filter, or with pairwise different source
      names, no query is cut, so paging is exact. */
  lemma SimplyNotCut(m: Matcher, sources: seq<Source>, q: Query, maxes: nat -> nat, si: nat, e: nat)
    requires q.filter == "" || DistinctNames(sources)
    ensures !Cut(m, sources, q, si, e)
    ensures Chain(m, sources, q, maxes, 0, si, e) == AllFrom(m, sources, q, si, e)
  {
    hide Chain, AllFrom, EndsShown, HasMatch;
    if q.filter != "" {
      forall i: nat, j: nat
        ensures !CutAt(m, sources, q, si, e, i, j)
      {
      }
    }
    PagesExact(m, sources, q, maxes, 0, si, e);
  }

  /** A cut beyond a page's cursor is a cut beyond the page's start. */
  lemma CutEarlier(m: Matcher, sources: seq<Source>, q: Query, si: nat, e: nat, r: Result)
    requires CursorOk(m, sources, q, si, e, r) && !r.done && si <= r.nextSource
    ensures Cut(m, sources, q, r.nextSource, r.nextLine - 1) ==> Cut(m, sources, q, si, e)
  {
    hide EndsShown, Reached, HasMatch, Included;
    if Cut(m, sources, q, r.nextSource, r.nextLine - 1) {
      var i: nat, j: nat :| CutAt(m, sources, q, r.nextSource, r.nextLine - 1, i, j);
      if i == r.nextSource {
        ReachedEnds(m, q, sources[i], if i == si then e else 0, r.nextLine - 1);
      }
      assert CutAt(m, sources, q, si, e, i, j);
    }
  }

  lemma PagesEnd(m: Matcher, sources: seq<Source>, q: Query, si: nat, e: nat, r: Result)
    requires r.done && CursorOk(m, sources, q, si, e, r) && !Cut(m, sources, q, si, e)
    requires r.nextSource >= |sources| || q.filter != ""
    ensures AllFrom(m, sources, q, r.nextSource, r.nextLine - 1) == []
  {
    hide AllFrom, EndsShown, Reached, HasMatch;
    if r.nextSource >= |sources| {
      AllFromEnd(m, sources, q, r.nextSource, r.nextLine - 1);
    } else {
      forall j | r.nextSource <= j < |sources| && Included(q, sources[j]) ensures !HasMatch(m, sources[j]) {
        assert !CutAt(m, sources, q, si, e, r.nextSource - 1, j);
      }
      NoMatchesLeft(m, sources, q, r.nextSource);
    }
  }

  // ----- the exception

  lemma AllInMarked(m: Matcher, q: Query, s: Source, e: nat)
    requires AllIn(m, q, s, e) != []
    ensures Marks(AllIn(m, q, s, e)) >= 1
  {
    AllInStep(m, q, s, e);
    var n := NextHit(m, s.lines, e + 1);
    BlockShape(m, q, s, e, n);
    hide AllIn, Block, Marks;
    MarksAppend(Block(m, q, s, e, n), AllIn(m, q, s, BlockTo(q, s, n)));
  }

  /** A search that stops after source i sees what the first i + 1 sources show. */
  lemma {:induction false} Truncated(m: Matcher, sources: seq<Source>, q: Query, si: nat, e: nat, i: nat)
    requires si <= i < |sources|
    ensures AllFrom(m, sources, q, si, e) == AllFrom(m, sources[..i + 1], q, si, e) + AllFrom(m, sources, q, i + 1, 0)
    decreases |sources| - si
  {
    hide AllFrom, AllIn, Included;
    var t := sources[..i + 1];
    var first := if Included(q, sources[si]) then AllIn(m, q, sources[si], e) else [];
    AllFromStep(m, sources, q, si, e);
    AllFromStep(m, t, q, si, e);
    if si < i {
      Truncated(m, sources, q, si + 1, 0, i);
    } else {
      AllFromEnd(m, t, q, i + 1, 0);
    }
    Assoc(first, AllFrom(m, t, q, si + 1, 0), AllFrom(m, sources, q, i + 1, 0));
  }

  /** Source i, shown to its last line, contributes a mark to the first i + 1 sources. */
  lemma {:induction false} TruncatedMarked(m: Matcher, sources: seq<Source>, q: Query, si: nat, e: nat, i: nat)
    requires si <= i < |sources| && Included(q, sources[i]) && EndsShown(m, q, sources[i], if i == si then e else 0)
    ensures Marks(AllFrom(m, sources[..i + 1], q, si, e)) >= 1
    decreases |sources| - si
  {
    hide *;
    var t := sources[..i + 1];
    AllFromStep(m, t, q, si, e);
    if si == i {
      EndsNonempty(m, q, sources[i], e);
      AllInMarked(m, q, sources[i], e);
    } else {
      TruncatedMarked(m, sources, q, si + 1, 0, i);
    }
    MarksAppend(if Included(q, t[si]) then AllIn(m, q, t[si], e) else [], AllFrom(m, t, q, si + 1, 0));
  }

  lemma EndsNonempty(m: Matcher, q: Query, s: Source, e: nat)
    requires EndsShown(m, q, s, e)
    ensures AllIn(m, q, s, e) != []
  {
  }

  /** A page whose Max is the number of matches up to source i stops there and is done. */
  lemma {:induction false} WalkCut(m: Matcher, sources: seq<Source>, q: Query, si: nat, e: nat, matches: nat, max: nat, i: nat)
    requires q.filter != "" && si <= i < |sources| && Included(q, sources[i])
    requires EndsShown(m, q, sources[i], if i == si then e else 0)
    requires matches + Marks(AllFrom(m, sources[..i + 1], q, si, e)) == max
    ensures var r := Walk(m, sources, q, si, e, matches, max); r.done && r.lines == AllFrom(m, sources[..i + 1], q, si, e)
    decreases |sources| - si, Left(sources[si], e)
  {
    hide Walk, AllFrom, Block, BlockFrom, Marks, EndsShown;
    var t, s := sources[..i + 1], sources[si];
    var n := NextHit(m, s.lines, e + 1);
    WalkStep(m, sources, q, si, e, matches, max);
    AllFromBlock(m, t, q, si, e);
    if si == i {
      EndsNeedsBlock(m, q, s, e);
    }
    NoMarks();
    if !Included(q, s) || n > |s.lines| {
      WalkCut(m, sources, q, si + 1, 0, matches, max, i);
    } else {
      var block, to := Block(m, q, s, e, n), BlockTo(q, s, n);
      MarksAppend(block, AllFrom(m, t, q, si, to));
      if si == i {
        LastSource(m, sources, q, si, e, i);
      }
      if matches + Marks(block) < max {
        WalkCut(m, sources, q, si, to, matches + Marks(block), max, i);
      } else if si < i {
        TruncatedMarked(m, sources, q, si, to, i);
      } else {
        Assoc(block, [], []);
      }
    }
  }

  lemma EndsNeedsBlock(m: Matcher, q: Query, s: Source, e: nat)
    requires EndsShown(m, q, s, e)
    ensures NextHit(m, s.lines, e + 1) <= |s.lines|
  {
  }

  /** In source i itself: either another block follows and it reaches the last line, with a
      mark of its own, or this block reaches the last line and nothing follows. */
  lemma LastSource(m: Matcher, sources: seq<Source>, q: Query, si: nat, e: nat, i: nat)
    requires si == i < |sources| && Included(q, sources[i]) && EndsShown(m, q, sources[i], e)
    requires NextHit(m, sources[i].lines, e + 1) <= |sources[i].lines|
    ensures var s, t := sources[i], sources[..i + 1]; var to := BlockTo(q, s, NextHit(m, s.lines, e + 1));
            if AllIn(m, q, s, to) != [] then EndsShown(m, q, s, to) && Marks(AllFrom(m, t, q, si, to)) >= 1
            else to == |s.lines| && AllFrom(m, t, q, si, to) == []
  {
    var s, t := sources[i], sources[..i + 1];
    var n := NextHit(m, s.lines, e + 1);
    var to := BlockTo(q, s, n);
    AllInStep(m, q, s, e);
    BlockShape(m, q, s, e, n);
    AllFromStep(m, t, q, si, to);
    AllFromEnd(m, t, q, i + 1, 0);
    hide AllIn, AllFrom, Block, Marks;
    Assoc(AllIn(m, q, s, to), [], []);
    if AllIn(m, q, s, to) != [] {
      AllInMarked(m, q, s, to);
    } else {
      Assoc(Block(m, q, s, e, n), [], []);
    }
  }

  /** All pages, with the same Max on each. */
  ghost function EqualPages(m: Matcher, sources: seq<Source>, q: Query, max: nat, si: nat, e: nat): seq<Line> {
    Chain(m, sources, q, _ => max, 0, si, e)
  }

  /** When cut, some Max makes the pages end before everything was shown. */
  lemma PagesCut(m: Matcher, sources: seq<Source>, q: Query, si: nat, e: nat) returns (max: nat)
    requires Cut(m, sources, q, si, e)
    ensures max >= 1 && EqualPages(m, sources, q, max, si, e) != AllFrom(m, sources, q, si, e)
  {
    hide AllFrom, Walk, Chain, Marks, EndsShown, HasMatch, Included;
    var i: nat, j: nat :| CutAt(m, sources, q, si, e, i, j);
    max := Marks(AllFrom(m, sources[..i + 1], q, si, e));
    TruncatedMarked(m, sources, q, si, e, i);
    WalkCut(m, sources, q, si, e, 0, max, i);
    ChainStep(m, sources, q, _ => max, 0, si, e);
    Truncated(m, sources, q, si, e, i);
    MatchShown(m, sources, q, i + 1, j);
  }

  lemma {:induction false} MatchShown(m: Matcher, sources: seq<Source>, q: Query, si: nat, j: nat)
    requires si <= j < |sources| && Included(q, sources[j]) && HasMatch(m, sources[j])
    ensures AllFrom(m, sources, q, si, 0) != []
    decreases |sources| - si
  {
    hide AllFrom, Block, Marks;
    AllFromBlock(m, sources, q, si, 0);
    var n := NextHit(m, sources[si].lines, 1);
    if Included(q, sources[si]) && n <= |sources[si].lines| {
      BlockShape(m, q, sources[si], 0, n);
    } else {
      MatchShown(m, sources, q, si + 1, j);
    }
  }

  /** Paging is exact for every Max if and only if the query is not cut. */
  lemma PagesExactIff(m: Matcher, sources: seq<Source>, q: Query, si: nat, e: nat)
    ensures (forall max: nat :: max >= 1 ==> EqualPages(m, sources, q, max, si, e) == AllFrom(m, sources, q, si, e)) <==>
            !Cut(m, sources, q, si, e)
  {
    hide AllFrom, Chain;
    if Cut(m, sources, q, si, e) {
      var max := PagesCut(m, sources, q, si, e);
      assert EqualPages(m, sources, q, max, si, e) != AllFrom(m, sources, q, si, e);
    } else {
      forall max: nat | max >= 1 ensures EqualPages(m, sources, q, max, si, e) == AllFrom(m, sources, q, si, e) {
        PagesExact(m, sources, q, _ => max, 0, si, e);
      }
    }
  }

  /** A source with one line, which matches: one block of one marked line. */
  lemma OneLineSource(m: Matcher, q: Query, s: Source)
    requires |s.lines| == 1 && m(s.lines[0])
    ensures NextHit(m, s.lines, 1) == 1 && BlockTo(q, s, 1) == 1
    ensures |Block(m, q, s, 0, 1)| == 1 && Marks(Block(m, q, s, 0, 1)) == 1
    ensures AllIn(m, q, s, 0) == Block(m, q, s, 0, 1)
  {
    var b := Block(m, q, s, 0, 1);
    assert b == [Line(s.name, 1, s.lines[0], true)] && b[..0] == [];
    AllInStep(m, q, s, 0);
    AllInStep(m, q, s, 1);
  }

  /** The exception is real: two sources of the same name, a match in each, Max 1. The
      first page says it is done, and the second match is never shown. */
  lemma SharedNameLosesMatches(m: Matcher)
    requires m("x")
    ensures var sources := [Source("a", ["x"]), Source("a", ["x"])]; var q := Query("a", 0, 0);
            && Walk(m, sources, q, 0, 0, 0, 1).done
            && |Walk(m, sources, q, 0, 0, 0, 1).lines| == 1
            && |AllFrom(m, sources, q, 0, 0)| == 2
  {
    hide AllFrom, AllIn, Walk, Block, NextHit, Marks, BlockTo;
    var s := Source("a", ["x"]);
    var sources, q := [s, s], Query("a", 0, 0);
    OneLineSource(m, q, s);
    AllFromStep(m, sources, q, 0, 0);
    AllFromStep(m, sources, q, 1, 0);
    AllFromEnd(m, sources, q, 2, 0);
    WalkStep(m, sources, q, 0, 0, 0, 1);
  }
}

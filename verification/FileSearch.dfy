/** Live file search: one pass over each file with a bounded window of held lines and a
    count of context lines still owed. Proved equal to a declarative specification: the
    lines near the first `Max` matches from the cursor on; and following the cursors
    pages through every match exactly once.

    The regular expression is any predicate on lines. Line numbers start at 1. */
module FileSearch {
  import opened Base

  type Matcher = Bytes -> bool

  /** `lines` as scanned; an unreadable file fails the search that reaches it. */
  datatype File = Readable(lines: seq<Bytes>) | Unreadable

  datatype Pos = Pos(file: nat, line: int)
  datatype Entry = Entry(file: nat, n: nat, mark: bool, text: Bytes)
  datatype Held = Held(n: nat, line: Bytes)

  function Content(f: File): seq<Bytes> {
    if f.Readable? then f.lines else []
  }

  // ----- the specification

  /** The matching lines among the first k, from line `first` on. */
  function Hits(m: Matcher, lines: seq<Bytes>, first: int, k: nat): seq<nat>
    requires k <= |lines|
  {
    if k == 0 then []
    else Hits(m, lines, first, k - 1) + (if k >= first && m(lines[k - 1]) then [k] else [])
  }

  /** Line n lies within `before` lines ahead of, or `after` lines behind, a hit. */
  ghost predicate Near(hits: seq<nat>, before: nat, after: nat, n: nat) {
    exists i :: 0 <= i < |hits| && hits[i] - before <= n <= hits[i] + after
  }

  /** The numbers up to k near a hit, increasing. */
  ghost function NearLines(hits: seq<nat>, before: nat, after: nat, k: nat): seq<nat> {
    if k == 0 then [] else NearLines(hits, before, after, k - 1) + (if Near(hits, before, after, k) then [k] else [])
  }

  /** How a line is shown: its file, number, whether it matches, and its text. */
  function Show(m: Matcher, file: nat, lines: seq<Bytes>, n: nat): Entry {
    if 1 <= n <= |lines| then Entry(file, n, m(lines[n - 1]), lines[n - 1]) else Entry(file, n, false, [])
  }

  function ShowAll(m: Matcher, file: nat, lines: seq<Bytes>, ns: seq<nat>): (r: seq<Entry>)
    ensures |r| == |ns|
  {
    seq(|ns|, i requires 0 <= i < |ns| => Show(m, file, lines, ns[i]))
  }

  function Positions(file: nat, ns: seq<nat>): (r: seq<Pos>)
    ensures |r| == |ns|
  {
    seq(|ns|, i requires 0 <= i < |ns| => Pos(file, ns[i]))
  }

  function FileHits(m: Matcher, files: seq<File>, start: Pos, j: nat): seq<nat>
    requires j < |files|
  {
    Hits(m, Content(files[j]), if j == start.file then start.line else 1, |Content(files[j])|)
  }

  /** Every match from the cursor on, in the files before `hi`, in order. */
  function AllHits(m: Matcher, files: seq<File>, start: Pos, hi: nat): seq<Pos>
    requires hi <= |files|
  {
    if hi <= start.file then [] else AllHits(m, files, start, hi - 1) + Positions(hi - 1, FileHits(m, files, start, hi - 1))
  }

  function Min(a: nat, b: nat): nat { if a < b then a else b }

  /** The hits a page counts. */
  function Counted(hits: seq<Pos>, max: nat): seq<Pos> { hits[..Min(max, |hits|)] }

  function NextOf(hits: seq<Pos>, max: nat): Option<Pos> {
    if |hits| > max then Some(hits[max]) else None
  }

  function LinesIn(ps: seq<Pos>, file: nat): seq<nat> {
    if ps == [] then []
    else LinesIn(ps[..|ps| - 1], file) +
         (if ps[|ps| - 1].file == file && ps[|ps| - 1].line >= 0 then [ps[|ps| - 1].line] else [])
  }

  /** File by file, the lines near the given hits. */
  ghost function ShownNear(m: Matcher, files: seq<File>, before: nat, after: nat, ps: seq<Pos>, hi: nat): seq<Entry>
    requires hi <= |files|
  {
    if hi == 0 then []
    else ShownNear(m, files, before, after, ps, hi - 1) + NearIn(m, files, before, after, ps, hi - 1)
  }

  ghost function NearIn(m: Matcher, files: seq<File>, before: nat, after: nat, ps: seq<Pos>, j: nat): seq<Entry>
    requires j < |files|
  {
    var lines := Content(files[j]);
    ShowAll(m, j, lines, NearLines(LinesIn(ps, j), before, after, |lines|))
  }

  // ----- nearness

  ghost predicate Ascending(s: seq<nat>) {
    forall i, j :: 0 <= i < j < |s| ==> s[i] < s[j]
  }

  lemma {:induction false} HitsShape(m: Matcher, lines: seq<Bytes>, first: int, k: nat)
    requires k <= |lines|
    ensures var h := Hits(m, lines, first, k);
            Ascending(h) && forall i :: 0 <= i < |h| ==> 1 <= h[i] <= k && first <= h[i]
  {
    if k > 0 {
      HitsShape(m, lines, first, k - 1);
    }
  }

  lemma {:induction false} NearLinesSame(a: seq<nat>, b: seq<nat>, before: nat, after: nat, k: nat)
    requires forall n :: 1 <= n <= k ==> (Near(a, before, after, n) <==> Near(b, before, after, n))
    ensures NearLines(a, before, after, k) == NearLines(b, before, after, k)
  {
    if k > 0 {
      NearLinesSame(a, b, before, after, k - 1);
    }
  }

  function Range(lo: nat, hi: nat): (r: seq<nat>)
    requires lo <= hi
    ensures |r| == hi - lo
  {
    seq(hi - lo, i requires 0 <= i < hi - lo => lo + i + 1)
  }

  lemma {:induction false} NearLinesAll(hits: seq<nat>, before: nat, after: nat, lo: nat, k: nat)
    requires lo <= k && forall n :: lo < n <= k ==> Near(hits, before, after, n)
    ensures NearLines(hits, before, after, k) == NearLines(hits, before, after, lo) + Range(lo, k)
    decreases k
  {
    if lo < k {
      NearLinesAll(hits, before, after, lo, k - 1);
      assert Range(lo, k) == Range(lo, k - 1) + [k];
    } else {
      assert Range(lo, k) == [];
    }
  }

  lemma {:induction false} NearLinesNone(hits: seq<nat>, before: nat, after: nat, lo: nat, k: nat)
    requires lo <= k && forall n :: lo < n <= k ==> !Near(hits, before, after, n)
    ensures NearLines(hits, before, after, k) == NearLines(hits, before, after, lo)
    decreases k
  {
    if lo < k {
      NearLinesNone(hits, before, after, lo, k - 1);
    }
  }

  /** Past the hits, a line is near exactly while context after the last one is owed. */
  lemma NearPast(hits: seq<nat>, before: nat, after: nat, k: nat, n: nat)
    requires Ascending(hits) && (forall i :: 0 <= i < |hits| ==> hits[i] <= k) && k < n
    ensures Near(hits, before, after, n) <==> hits != [] && n <= hits[|hits| - 1] + after
  {
    if hits != [] && n <= hits[|hits| - 1] + after {
      var i := |hits| - 1;
      assert hits[i] - before <= n <= hits[i] + after;
    }
  }

  /** The last line already shown once the first k are done. */
  function Shown(hits: seq<nat>, after: nat, k: nat): nat {
    if hits == [] then 0 else Min(k, hits[|hits| - 1] + after)
  }

  /** Where the held window starts: after what was shown, and at most `before` back. */
  function Floor(hits: seq<nat>, before: nat, after: nat, k: nat): (lo: nat)
    requires forall i :: 0 <= i < |hits| ==> hits[i] <= k
    ensures Shown(hits, after, k) <= lo <= k && k - lo <= before
  {
    if Shown(hits, after, k) > k - before then Shown(hits, after, k) else k - before
  }

  lemma NearShown(hits: seq<nat>, before: nat, after: nat, k: nat, n: nat)
    requires Ascending(hits) && (forall i :: 0 <= i < |hits| ==> hits[i] <= k) && n <= k
    ensures Near(hits, before, after, n) ==> n <= Shown(hits, after, k)
  {
  }

  /** A new hit at k+1 adds the held lines and itself, and nothing else. */
  lemma NearExtend(hits: seq<nat>, before: nat, after: nat, k: nat)
    requires Ascending(hits) && forall i :: 0 <= i < |hits| ==> hits[i] <= k
    ensures NearLines(hits + [k + 1], before, after, k + 1) ==
            NearLines(hits, before, after, k) + Range(Floor(hits, before, after, k), k) + [k + 1]
  {
    hide NearLines, Near, Range, Floor;
    var more, lo := hits + [k + 1], Floor(hits, before, after, k);
    forall n | 1 <= n <= lo ensures Near(hits, before, after, n) <==> Near(more, before, after, n) {
      NearBelowFloor(hits, before, after, k, n);
    }
    NearLinesSame(hits, more, before, after, lo);
    forall n | lo < n <= k + 1 ensures Near(more, before, after, n) {
      NearNew(hits, before, after, k, n);
    }
    NearLinesAll(more, before, after, lo, k + 1);
    forall n | lo < n <= k ensures !Near(hits, before, after, n) {
      NearShown(hits, before, after, k, n);
    }
    NearLinesNone(hits, before, after, lo, k);
    RangeSnoc(lo, k);
  }

  lemma RangeSnoc(lo: nat, k: nat)
    requires lo <= k
    ensures Range(lo, k + 1) == Range(lo, k) + [k + 1]
  {
  }

  lemma NearNew(hits: seq<nat>, before: nat, after: nat, k: nat, n: nat)
    requires k + 1 - before <= n <= k + 1
    ensures Near(hits + [k + 1], before, after, n)
  {
    var more := hits + [k + 1];
    assert more[|hits|] - before <= n <= more[|hits|] + after;
  }

  lemma NearBelowFloor(hits: seq<nat>, before: nat, after: nat, k: nat, n: nat)
    requires Ascending(hits) && forall i :: 0 <= i < |hits| ==> hits[i] <= k
    requires 1 <= n <= Floor(hits, before, after, k)
    ensures Near(hits, before, after, n) <==> Near(hits + [k + 1], before, after, n)
  {
    var more := hits + [k + 1];
    if Near(hits, before, after, n) {
      var i :| 0 <= i < |hits| && hits[i] - before <= n <= hits[i] + after;
      assert more[i] == hits[i];
    }
    if Near(more, before, after, n) {
      var i :| 0 <= i < |more| && more[i] - before <= n <= more[i] + after;
      if i < |hits| {
        assert hits[i] == more[i];
      } else {
        // Near the new hit and not held: then it is near the last counted hit already.
        var l := |hits| - 1;
        assert hits != [] && hits[l] - before <= n <= hits[l] + after;
      }
    }
  }

  // ----- one file

  /** The window: the last lines up to k, not yet shown. */
  function Window(lines: seq<Bytes>, lo: nat, k: nat): (r: seq<Held>)
    requires lo <= k <= |lines|
    ensures |r| == k - lo
  {
    seq(k - lo, i requires 0 <= i < k - lo => Held(lo + i + 1, lines[lo + i]))
  }

  method Flush(m: Matcher, file: nat, lines: seq<Bytes>, held: seq<Held>, ghost lo: nat, ghost k: nat, shown: seq<Entry>) returns (out: seq<Entry>)
    requires lo <= k <= |lines| && held == Window(lines, lo, k)
    ensures out == shown + ShowAll(m, file, lines, Range(lo, k))
  {
    out := shown;
    for i := 0 to |held|
      invariant out == shown + ShowAll(m, file, lines, Range(lo, lo + i))
    {
      out := out + [Entry(file, held[i].n, m(held[i].line), held[i].line)];
      assert ShowAll(m, file, lines, Range(lo, lo + i + 1)) == ShowAll(m, file, lines, Range(lo, lo + i)) + [Show(m, file, lines, lo + i + 1)];
    }
  }

  lemma ShowAllAppend(m: Matcher, file: nat, lines: seq<Bytes>, a: seq<nat>, b: seq<nat>)
    ensures ShowAll(m, file, lines, a + b) == ShowAll(m, file, lines, a) + ShowAll(m, file, lines, b)
  {
  }

  /** The state of the scan after the first k lines of a file. `room` is how many more
      hits the page may count, `next` the cursor once one too many was seen. */
  ghost predicate Scanned(m: Matcher, file: nat, lines: seq<Bytes>, first: int, before: nat, after: nat, room: nat,
                          k: nat, out: seq<Entry>, counted: seq<nat>, next: Option<nat>, owed: nat)
    requires k <= |lines|
  {
    var hits := Hits(m, lines, first, k);
    && counted == hits[..Min(room, |hits|)]
    && next == (if |hits| > room then Some(hits[room]) else None)
    && out == ShowAll(m, file, lines, NearLines(counted, before, after, k))
    && owed == (if counted != [] && counted[|counted| - 1] + after > k then counted[|counted| - 1] + after - k else 0)
  }

  /** Line k+1 is not counted: it is shown exactly if context is owed. */
  lemma ScanPlain(m: Matcher, file: nat, lines: seq<Bytes>, first: int, before: nat, after: nat, room: nat,
                  k: nat, out: seq<Entry>, counted: seq<nat>, next: Option<nat>, owed: nat, next': Option<nat>)
    requires k < |lines| && Scanned(m, file, lines, first, before, after, room, k, out, counted, next, owed)
    requires var hit := k + 1 >= first && m(lines[k]);
             && (hit ==> |counted| == room)
             && next' == (if next.None? && hit then Some(k + 1) else next)
    ensures Scanned(m, file, lines, first, before, after, room, k + 1,
                    if owed > 0 then out + [Show(m, file, lines, k + 1)] else out, counted, next', if owed > 0 then owed - 1 else 0)
  {
    ScanFacts(m, file, lines, first, before, after, room, k, out, counted, next, owed);
    CountPlain(m, lines, first, room, k, counted, next, next');
    NearStep(m, file, lines, before, after, k, counted);
  }

  /** Past the counted hits the shown lines grow by one exactly while context is owed. */
  lemma NearStep(m: Matcher, file: nat, lines: seq<Bytes>, before: nat, after: nat, k: nat, counted: seq<nat>)
    requires k < |lines| && Ascending(counted) && forall i :: 0 <= i < |counted| ==> counted[i] <= k
    ensures ShowAll(m, file, lines, NearLines(counted, before, after, k + 1)) ==
            ShowAll(m, file, lines, NearLines(counted, before, after, k)) +
            (if counted != [] && counted[|counted| - 1] + after > k then [Show(m, file, lines, k + 1)] else [])
  {
    NearPast(counted, before, after, k, k + 1);
    var near := NearLines(counted, before, after, k);
    ShowAllAppend(m, file, lines, near, [k + 1]);
    assert ShowAll(m, file, lines, [k + 1]) == [Show(m, file, lines, k + 1)];
  }

  /** A line that is no hit, or a hit on a full page, leaves the counted hits alone. */
  lemma CountPlain(m: Matcher, lines: seq<Bytes>, first: int, room: nat, k: nat, counted: seq<nat>, next: Option<nat>, next': Option<nat>)
    requires k < |lines|
    requires var hits := Hits(m, lines, first, k);
             counted == hits[..Min(room, |hits|)] && next == (if |hits| > room then Some(hits[room]) else None)
    requires var hit := k + 1 >= first && m(lines[k]);
             (hit ==> |counted| == room) && next' == (if next.None? && hit then Some(k + 1) else next)
    ensures var hits := Hits(m, lines, first, k + 1);
            counted == hits[..Min(room, |hits|)] && next' == (if |hits| > room then Some(hits[room]) else None)
  {
  }

  lemma HitsStep(m: Matcher, lines: seq<Bytes>, first: int, k: nat)
    requires k < |lines| && k + 1 >= first && m(lines[k])
    ensures Hits(m, lines, first, k + 1) == Hits(m, lines, first, k) + [k + 1]
  {
  }

  lemma ShowOne(m: Matcher, file: nat, lines: seq<Bytes>, n: nat)
    requires 1 <= n <= |lines|
    ensures ShowAll(m, file, lines, [n]) == [Show(m, file, lines, n)]
  {
  }

  /** Line k+1 is counted: it is shown after the held lines. */
  lemma ScanCounted(m: Matcher, file: nat, lines: seq<Bytes>, first: int, before: nat, after: nat, room: nat,
                    k: nat, out: seq<Entry>, counted: seq<nat>, owed: nat)
    requires k < |lines| && Scanned(m, file, lines, first, before, after, room, k, out, counted, None, owed)
    requires k + 1 >= first && m(lines[k]) && |counted| < room
    requires forall i :: 0 <= i < |counted| ==> counted[i] <= k
    ensures Scanned(m, file, lines, first, before, after, room, k + 1,
                    out + ShowAll(m, file, lines, Range(Floor(counted, before, after, k), k)) + [Show(m, file, lines, k + 1)],
                    counted + [k + 1], None, after)
  {
    hide Hits, NearLines, ShowAll, Range, Floor;
    HitsShape(m, lines, first, k);
    HitsStep(m, lines, first, k);
    var hits := Hits(m, lines, first, k);
    assert hits[..|hits|] == hits;
    NearExtend(counted, before, after, k);
    var near, window := NearLines(counted, before, after, k), Range(Floor(counted, before, after, k), k);
    ShowAllAppend(m, file, lines, near + window, [k + 1]);
    ShowAllAppend(m, file, lines, near, window);
    ShowOne(m, file, lines, k + 1);
    assert (hits + [k + 1])[..|hits| + 1] == hits + [k + 1];
  }

  /** Once the page is full and no context is owed, the rest of the file adds nothing. */
  lemma ScanStops(m: Matcher, file: nat, lines: seq<Bytes>, first: int, before: nat, after: nat, room: nat,
                  k: nat, out: seq<Entry>, counted: seq<nat>, next: Option<nat>)
    requires k <= |lines| && Scanned(m, file, lines, first, before, after, room, k, out, counted, next, 0) && next.Some?
    ensures Scanned(m, file, lines, first, before, after, room, |lines|, out, counted, next, 0)
  {
    HitsShape(m, lines, first, k);
    HitsPrefix(m, lines, first, k, |lines|);
    forall n | k < n <= |lines| ensures !Near(counted, before, after, n) {
      NearPast(counted, before, after, k, n);
    }
    NearLinesNone(counted, before, after, k, |lines|);
  }

  lemma {:induction false} HitsPrefix(m: Matcher, lines: seq<Bytes>, first: int, j: nat, k: nat)
    requires j <= k <= |lines|
    ensures Hits(m, lines, first, j) <= Hits(m, lines, first, k)
    decreases k
  {
    if j < k {
      HitsPrefix(m, lines, first, j, k - 1);
    }
  }

  /** What the scan's state says about its counters. */
  lemma ScanFacts(m: Matcher, file: nat, lines: seq<Bytes>, first: int, before: nat, after: nat, room: nat,
                  k: nat, out: seq<Entry>, counted: seq<nat>, next: Option<nat>, owed: nat)
    requires k <= |lines| && Scanned(m, file, lines, first, before, after, room, k, out, counted, next, owed)
    ensures Ascending(counted) && forall i :: 0 <= i < |counted| ==> counted[i] <= k
    ensures |counted| <= room && (next.Some? ==> |counted| == room)
    ensures owed == (if counted != [] && counted[|counted| - 1] + after > k then counted[|counted| - 1] + after - k else 0)
  {
    HitsShape(m, lines, first, k);
  }

  /** A line that is not shown enters the window, and pushes the oldest out when full. */
  lemma WindowPush(lines: seq<Bytes>, counted: seq<nat>, before: nat, after: nat, k: nat)
    requires k < |lines| && forall i :: 0 <= i < |counted| ==> counted[i] <= k
    requires counted == [] || counted[|counted| - 1] + after <= k
    ensures var held := Window(lines, Floor(counted, before, after, k), k);
            Window(lines, Floor(counted, before, after, k + 1), k + 1) ==
            if before == 0 then held else (if |held| == before then held[1..] else held) + [Held(k + 1, lines[k])]
  {
  }

  /** After a line that is shown the window is empty. */
  lemma WindowEmpty(lines: seq<Bytes>, counted: seq<nat>, before: nat, after: nat, k: nat)
    requires k <= |lines| && forall i :: 0 <= i < |counted| ==> counted[i] <= k
    requires counted != [] && counted[|counted| - 1] + after >= k
    ensures Window(lines, Floor(counted, before, after, k), k) == []
  {
  }

  /** The callback of the scan over one file. */
  method SearchFile(m: Matcher, file: nat, lines: seq<Bytes>, first: int, before: nat, after: nat, max: nat, matches: nat)
    returns (out: seq<Entry>, matches': nat, next: Option<nat>)
    requires matches <= max
    ensures var hits := Hits(m, lines, first, |lines|); var room := max - matches; var counted := hits[..Min(room, |hits|)];
            && matches' == matches + |counted|
            && next == (if |hits| > room then Some(hits[room]) else None)
            && out == ShowAll(m, file, lines, NearLines(counted, before, after, |lines|))
  {
    hide Scanned, Floor, Window, Hits, NearLines, ShowAll, Range, Ascending;
    out, matches', next := [], matches, None;
    var held: seq<Held> := [];
    var owed := 0;
    ghost var counted: seq<nat> := [];
    ghost var room := max - matches;
    var n := 0;
    ScanStart(m, file, lines, first, before, after, room);
    while n < |lines|
      invariant n <= |lines| && matches' == matches + |counted| <= max
      invariant Scanned(m, file, lines, first, before, after, room, n, out, counted, next, owed)
      invariant forall i :: 0 <= i < |counted| ==> counted[i] <= n
      invariant next.None? ==> held == Window(lines, Floor(counted, before, after, n), n)
    {
      ScanFacts(m, file, lines, first, before, after, room, n, out, counted, next, owed);
      var line := lines[n];
      n := n + 1;
      var hit := n >= first && m(line);
      ghost var next0 := next;
      if hit && matches' == max && next.None? {
        next := Some(n);
      }
      if next.Some? {
        ScanPlain(m, file, lines, first, before, after, room, n - 1, out, counted, next0, owed, next);
        if owed == 0 {
          ScanStops(m, file, lines, first, before, after, room, n, out, counted, next);
          ScanEnds(m, file, lines, first, before, after, room, out, counted, next, 0);
          return;
        }
        out := out + [Entry(file, n, m(line), line)];
        owed := owed - 1;
      } else if hit {
        ScanCounted(m, file, lines, first, before, after, room, n - 1, out, counted, owed);
        matches' := matches' + 1;
        out := Flush(m, file, lines, held, Floor(counted, before, after, n - 1), n - 1, out);
        held := [];
        out := out + [Entry(file, n, m(line), line)];
        counted := counted + [n];
        owed := after;
        WindowEmpty(lines, counted, before, after, n);
      } else {
        ScanPlain(m, file, lines, first, before, after, room, n - 1, out, counted, next0, owed, next);
        if owed > 0 {
          out := out + [Entry(file, n, m(line), line)];
          owed := owed - 1;
          WindowEmpty(lines, counted, before, after, n - 1);
          WindowEmpty(lines, counted, before, after, n);
        } else {
          WindowPush(lines, counted, before, after, n - 1);
          if before > 0 {
            if |held| == before {
              held := held[1..];
            }
            held := held + [Held(n, line)];
          }
        }
      }
    }
    ScanEnds(m, file, lines, first, before, after, room, out, counted, next, owed);
  }

  lemma ScanStart(m: Matcher, file: nat, lines: seq<Bytes>, first: int, before: nat, after: nat, room: nat)
    ensures Scanned(m, file, lines, first, before, after, room, 0, [], [], None, 0)
    ensures Window(lines, Floor([], before, after, 0), 0) == []
  {
  }

  lemma ScanEnds(m: Matcher, file: nat, lines: seq<Bytes>, first: int, before: nat, after: nat, room: nat,
                 out: seq<Entry>, counted: seq<nat>, next: Option<nat>, owed: nat)
    requires Scanned(m, file, lines, first, before, after, room, |lines|, out, counted, next, owed)
    ensures var hits := Hits(m, lines, first, |lines|);
            && counted == hits[..Min(room, |hits|)]
            && next == (if |hits| > room then Some(hits[room]) else None)
            && out == ShowAll(m, file, lines, NearLines(counted, before, after, |lines|))
  {
  }

  // ----- all files

  lemma {:induction false} LinesInAppend(a: seq<Pos>, b: seq<Pos>, file: nat)
    ensures LinesIn(a + b, file) == LinesIn(a, file) + LinesIn(b, file)
    decreases |b|
  {
    if b == [] {
      assert a + b == a;
    } else {
      assert (a + b)[..|a + b| - 1] == a + b[..|b| - 1];
      LinesInAppend(a, b[..|b| - 1], file);
    }
  }

  lemma PositionsSnoc(file: nat, ns: seq<nat>)
    requires ns != []
    ensures Positions(file, ns) == Positions(file, ns[..|ns| - 1]) + [Pos(file, ns[|ns| - 1])]
  {
  }

  lemma NoPositions(file: nat, j: nat)
    ensures LinesIn(Positions(file, []), j) == []
  {
  }

  lemma LinesInSnoc(ps: seq<Pos>, p: Pos, file: nat)
    ensures LinesIn(ps + [p], file) == LinesIn(ps, file) + (if p.file == file && p.line >= 0 then [p.line] else [])
  {
    assert (ps + [p])[..|ps|] == ps;
  }

  lemma {:induction false} LinesInPositions(file: nat, ns: seq<nat>, j: nat)
    ensures LinesIn(Positions(file, ns), j) == if j == file then ns else []
    decreases |ns|
  {
    hide *;
    if ns == [] {
      NoPositions(file, j);
    } else {
      var k := |ns| - 1;
      PositionsSnoc(file, ns);
      LinesInSnoc(Positions(file, ns[..k]), Pos(file, ns[k]), j);
      LinesInPositions(file, ns[..k], j);
      assert ns[..k] + [ns[k]] == ns;
    }
  }

  lemma NoLinesInNone(j: nat)
    ensures LinesIn([], j) == []
  {
  }

  lemma {:induction false} NoLinesBeyond(m: Matcher, files: seq<File>, start: Pos, hi: nat, j: nat)
    requires hi <= |files| && hi <= j
    ensures LinesIn(AllHits(m, files, start, hi), j) == []
  {
    hide LinesIn, FileHits, Positions;
    NoLinesInNone(j);
    if hi > start.file {
      NoLinesBeyond(m, files, start, hi - 1, j);
      LinesInAppend(AllHits(m, files, start, hi - 1), Positions(hi - 1, FileHits(m, files, start, hi - 1)), j);
      LinesInPositions(hi - 1, FileHits(m, files, start, hi - 1), j);
    }
  }

  lemma {:induction false} ShownNearSame(m: Matcher, files: seq<File>, before: nat, after: nat, a: seq<Pos>, b: seq<Pos>, hi: nat)
    requires hi <= |files| && forall j :: 0 <= j < hi ==> LinesIn(a, j) == LinesIn(b, j)
    ensures ShownNear(m, files, before, after, a, hi) == ShownNear(m, files, before, after, b, hi)
  {
    hide LinesIn, NearLines, ShowAll;
    if hi > 0 {
      ShownNearSame(m, files, before, after, a, b, hi - 1);
      assert LinesIn(a, hi - 1) == LinesIn(b, hi - 1);
    }
  }

  lemma {:induction false} NearLinesEmpty(before: nat, after: nat, k: nat)
    ensures NearLines([], before, after, k) == []
  {
    if k > 0 {
      NearLinesEmpty(before, after, k - 1);
    }
  }

  lemma {:induction false} ShownNearTail(m: Matcher, files: seq<File>, before: nat, after: nat, ps: seq<Pos>, lo: nat, hi: nat)
    requires lo <= hi <= |files| && forall j :: lo <= j < hi ==> LinesIn(ps, j) == []
    ensures ShownNear(m, files, before, after, ps, hi) == ShownNear(m, files, before, after, ps, lo)
    decreases hi
  {
    hide LinesIn, NearLines;
    if lo < hi {
      ShownNearTail(m, files, before, after, ps, lo, hi - 1);
      assert LinesIn(ps, hi - 1) == [];
      NearLinesEmpty(before, after, |Content(files[hi - 1])|);
    }
  }

  lemma AllHitsStep(m: Matcher, files: seq<File>, start: Pos, i: nat)
    requires start.file <= i < |files|
    ensures AllHits(m, files, start, i + 1) == AllHits(m, files, start, i) + Positions(i, FileHits(m, files, start, i))
  {
  }

  lemma {:induction false} AllHitsPrefix(m: Matcher, files: seq<File>, start: Pos, i: nat, j: nat)
    requires i <= j <= |files|
    ensures AllHits(m, files, start, i) <= AllHits(m, files, start, j)
    decreases j
  {
    if i < j {
      AllHitsPrefix(m, files, start, i, j - 1);
    }
  }

  /** Hits of one more file, of which the first `c` are counted: the page grows by the
      lines near them. */
  lemma FileExtends(m: Matcher, files: seq<File>, before: nat, after: nat, start: Pos, i: nat, c: nat)
    requires start.file <= i < |files| && c <= |FileHits(m, files, start, i)|
    ensures var hits := FileHits(m, files, start, i)[..c]; var ps := AllHits(m, files, start, i) + Positions(i, hits);
            && ShownNear(m, files, before, after, ps, i + 1) ==
               ShownNear(m, files, before, after, AllHits(m, files, start, i), i) +
               ShowAll(m, i, Content(files[i]), NearLines(hits, before, after, |Content(files[i])|))
            && forall j :: i < j ==> LinesIn(ps, j) == []
  {
    hide LinesIn, NearLines, ShowAll, AllHits, Positions, FileHits;
    var hits := FileHits(m, files, start, i)[..c];
    var earlier := AllHits(m, files, start, i);
    var ps := earlier + Positions(i, hits);
    forall j: nat ensures LinesIn(ps, j) == LinesIn(earlier, j) + (if j == i then hits else []) {
      LinesInAppend(earlier, Positions(i, hits), j);
      LinesInPositions(i, hits, j);
    }
    forall j: nat | i <= j ensures LinesIn(earlier, j) == [] {
      NoLinesBeyond(m, files, start, i, j);
    }
    ShownNearSame(m, files, before, after, earlier, ps, i);
    assert LinesIn(ps, i) == hits;
  }

  datatype Query = Query(before: int, after: int, max: int, cursor: Option<Pos>)
  datatype Outcome = Found(lines: seq<Entry>, next: Option<Pos>) | InvalidLimits | InvalidCursor | ReadFailed

  predicate LimitsOk(files: seq<File>, q: Query) {
    0 <= q.before <= 50 && 0 <= q.after <= 50 && 1 <= q.max <= 200 && |files| <= 200
  }

  predicate CursorOk(files: seq<File>, q: Query) {
    q.cursor.Some? ==> q.cursor.value.file < |files| && q.cursor.value.line >= 1
  }

  function Start(q: Query): Pos {
    if q.cursor.Some? then q.cursor.value else Pos(0, 1)
  }

  /** The search gets as far as an unreadable file: the page is not full before it. */
  ghost predicate Reaches(m: Matcher, files: seq<File>, start: Pos, max: nat, j: nat) {
    start.file <= j < |files| && files[j].Unreadable? && |AllHits(m, files, start, j)| <= max
  }

  /** Files.Search. It shows, file by file in increasing order, exactly the lines near the
      first `max` matches from the cursor on; `next` is the first match it did not count. */
  method Search(m: Matcher, files: seq<File>, q: Query) returns (r: Outcome)
    ensures r.InvalidLimits? <==> !LimitsOk(files, q)
    ensures r.InvalidCursor? <==> LimitsOk(files, q) && !CursorOk(files, q)
    ensures r.ReadFailed? <==> LimitsOk(files, q) && CursorOk(files, q) && exists j :: Reaches(m, files, Start(q), q.max, j)
    ensures r.Found? ==>
              var hits := AllHits(m, files, Start(q), |files|);
              && r.lines == ShownNear(m, files, q.before, q.after, Counted(hits, q.max), |files|)
              && r.next == NextOf(hits, q.max)
  {
    if !LimitsOk(files, q) {
      return InvalidLimits;
    }
    if !CursorOk(files, q) {
      return InvalidCursor;
    }
    r := SearchFrom(m, files, q.before, q.after, q.max, Start(q));
  }

  /** The loop over the files, from the cursor's file on. */
  method SearchFrom(m: Matcher, files: seq<File>, before: nat, after: nat, max: nat, start: Pos) returns (r: Outcome)
    requires start.file <= |files|
    ensures r.Found? || r.ReadFailed?
    ensures r.ReadFailed? <==> exists j :: Reaches(m, files, start, max, j)
    ensures r.Found? ==>
              var hits := AllHits(m, files, start, |files|);
              && r.lines == ShownNear(m, files, before, after, Counted(hits, max), |files|)
              && r.next == NextOf(hits, max)
  {
    hide ShownNear, NearLines, ShowAll, AllHits, Hits, Positions;
    var out: seq<Entry> := [];
    var matches, i := 0, start.file;
    SearchStart(m, files, before, after, start, i);
    while i < |files|
      invariant start.file <= i <= |files|
      invariant matches == |AllHits(m, files, start, i)| <= max
      invariant out == ShownNear(m, files, before, after, AllHits(m, files, start, i), i)
      invariant forall j :: start.file <= j < i ==> !files[j].Unreadable?
    {
      if files[i].Unreadable? {
        assert Reaches(m, files, start, max, i);
        return ReadFailed;
      }
      var first := if i == start.file then start.line else 1;
      var shown, matches', next := SearchFile(m, i, files[i].lines, first, before, after, max, matches);
      FileDone(m, files, before, after, start, max, i, shown, next);
      out := out + shown;
      matches := matches';
      if next.Some? {
        return Found(out, Some(Pos(i, next.value)));
      }
      i := i + 1;
    }
    assert AllHits(m, files, start, i)[..matches] == AllHits(m, files, start, i);
    return Found(out, None);
  }

  /** What one file adds to the page: all its hits if they fit, and otherwise the end of
      the search. */
  lemma FileDone(m: Matcher, files: seq<File>, before: nat, after: nat, start: Pos, max: nat, i: nat, shown: seq<Entry>, next: Option<nat>)
    requires start.file <= i < |files| && |AllHits(m, files, start, i)| <= max
    requires forall j :: start.file <= j <= i ==> !files[j].Unreadable?
    requires var fh := FileHits(m, files, start, i); var room := max - |AllHits(m, files, start, i)|;
             && next == (if |fh| > room then Some(fh[room]) else None)
             && shown == ShowAll(m, i, Content(files[i]), NearLines(fh[..Min(room, |fh|)], before, after, |Content(files[i])|))
    ensures var a, b := AllHits(m, files, start, i), AllHits(m, files, start, i + 1);
            var page := ShownNear(m, files, before, after, a, i) + shown;
            && |b| == |a| + |FileHits(m, files, start, i)|
            && (next.None? ==> |b| <= max && page == ShownNear(m, files, before, after, b, i + 1))
            && (next.Some? ==>
                  var hits := AllHits(m, files, start, |files|);
                  && page == ShownNear(m, files, before, after, Counted(hits, max), |files|)
                  && NextOf(hits, max) == Some(Pos(i, next.value))
                  && !exists j :: Reaches(m, files, start, max, j))
  {
    hide ShownNear, NearLines, ShowAll, AllHits, Positions, FileHits, LinesIn;
    var fh := FileHits(m, files, start, i);
    var c := Min(max - |AllHits(m, files, start, i)|, |fh|);
    AllHitsStep(m, files, start, i);
    FileExtends(m, files, before, after, start, i, c);
    if next.Some? {
      SearchFull(m, files, before, after, start, max, i);
    } else {
      assert fh[..c] == fh;
    }
  }

  lemma SearchStart(m: Matcher, files: seq<File>, before: nat, after: nat, start: Pos, i: nat)
    requires i <= |files| && i <= start.file
    ensures AllHits(m, files, start, i) == []
    ensures ShownNear(m, files, before, after, [], i) == []
  {
    ShownNearTail(m, files, before, after, [], 0, i);
  }

  /** The page filled up in file i: later files change neither it nor its cursor, and no
      unreadable file beyond is reached. */
  lemma SearchFull(m: Matcher, files: seq<File>, before: nat, after: nat, start: Pos, max: nat, i: nat)
    requires start.file <= i < |files|
    requires |AllHits(m, files, start, i)| <= max < |AllHits(m, files, start, i + 1)|
    requires forall j :: start.file <= j <= i ==> !files[j].Unreadable?
    ensures var hits := AllHits(m, files, start, |files|); var fh := FileHits(m, files, start, i);
            var c := max - |AllHits(m, files, start, i)|;
            && c < |fh| && Counted(hits, max) == AllHits(m, files, start, i) + Positions(i, fh[..c])
            && NextOf(hits, max) == Some(Pos(i, fh[c]))
            && ShownNear(m, files, before, after, Counted(hits, max), |files|) ==
               ShownNear(m, files, before, after, Counted(hits, max), i + 1)
    ensures !exists j :: Reaches(m, files, start, max, j)
  {
    hide ShownNear, LinesIn, NearLines, ShowAll, FileHits;
    var fh, a := FileHits(m, files, start, i), AllHits(m, files, start, i);
    var c := max - |a|;
    var hits := AllHits(m, files, start, |files|);
    AllHitsPrefix(m, files, start, i + 1, |files|);
    CountedSplit(hits, a, Positions(i, fh), max);
    assert Positions(i, fh)[..c] == Positions(i, fh[..c]);
    FileExtends(m, files, before, after, start, i, c);
    ShownNearTail(m, files, before, after, a + Positions(i, fh[..c]), i + 1, |files|);
    forall j | i < j < |files| ensures |AllHits(m, files, start, j)| > max {
      AllHitsPrefix(m, files, start, i + 1, j);
    }
  }

  lemma CountedSplit(hits: seq<Pos>, a: seq<Pos>, b: seq<Pos>, max: nat)
    requires a + b <= hits && |a| <= max < |a| + |b|
    ensures Counted(hits, max) == a + b[..max - |a|] && NextOf(hits, max) == Some(b[max - |a|])
  {
  }

  // ----- paging

  /** Restarting at a hit gives that hit and the ones after it. */
  lemma {:induction false} HitsFrom(m: Matcher, lines: seq<Bytes>, first: int, k: nat, at: nat)
    requires k <= |lines| && at < |Hits(m, lines, first, k)|
    ensures var h := Hits(m, lines, first, k); Hits(m, lines, h[at], k) == h[at..]
  {
    var h, h' := Hits(m, lines, first, k), Hits(m, lines, first, k - 1);
    HitsShape(m, lines, first, k);
    HitsShape(m, lines, first, k - 1);
    if at < |h'| {
      HitsFrom(m, lines, first, k - 1, at);
    } else {
      assert h == h' + [k] && h[at..] == [k];
      HitsBelow(m, lines, k, k - 1);
      assert Hits(m, lines, k, k) == Hits(m, lines, k, k - 1) + [k];
    }
  }

  lemma {:induction false} HitsBelow(m: Matcher, lines: seq<Bytes>, first: int, k: nat)
    requires k <= |lines| && k < first
    ensures Hits(m, lines, first, k) == []
  {
    if k > 0 {
      HitsBelow(m, lines, first, k - 1);
    }
  }

  lemma FileHitsFrom(m: Matcher, files: seq<File>, start: Pos, j: nat, at: nat)
    requires j < |files| && at < |FileHits(m, files, start, j)|
    ensures var fh := FileHits(m, files, start, j);
            && FileHits(m, files, Pos(j, fh[at]), j) == fh[at..]
            && Positions(j, fh)[at..] == Positions(j, fh[at..])
  {
    var lines := Content(files[j]);
    HitsFrom(m, lines, if j == start.file then start.line else 1, |lines|, at);
  }

  /** Restarting at a hit gives that hit and the ones after it, across files. */
  lemma {:induction false} AllHitsFrom(m: Matcher, files: seq<File>, start: Pos, hi: nat, at: nat)
    requires hi <= |files| && at < |AllHits(m, files, start, hi)|
    ensures var h := AllHits(m, files, start, hi);
            start.file <= h[at].file < hi && AllHits(m, files, h[at], hi) == h[at..]
  {
    hide *;
    assert hi > start.file by {
      if hi <= start.file { NoHitsBefore(m, files, start, hi); }
    }
    if at < |AllHits(m, files, start, hi - 1)| {
      AllHitsFrom(m, files, start, hi - 1, at);
      EarlierFile(m, files, start, hi, at);
    } else {
      LastFile(m, files, start, hi, at);
    }
  }

  lemma FileHitsElsewhere(m: Matcher, files: seq<File>, p: Pos, q: Pos, j: nat)
    requires j < |files| && p.file != j && q.file != j
    ensures FileHits(m, files, p, j) == FileHits(m, files, q, j)
  {
  }

  lemma EarlierFile(m: Matcher, files: seq<File>, start: Pos, hi: nat, at: nat)
    requires start.file < hi <= |files| && at < |AllHits(m, files, start, hi - 1)|
    requires var h := AllHits(m, files, start, hi - 1);
             start.file <= h[at].file < hi - 1 && AllHits(m, files, h[at], hi - 1) == h[at..]
    ensures var h := AllHits(m, files, start, hi);
            at < |h| && start.file <= h[at].file < hi && AllHits(m, files, h[at], hi) == h[at..]
  {
    hide *;
    var h' := AllHits(m, files, start, hi - 1);
    var p := h'[at];
    AllHitsStep(m, files, start, hi - 1);
    AllHitsStep(m, files, p, hi - 1);
    FileHitsElsewhere(m, files, start, p, hi - 1);
    TakeSum(h', Positions(hi - 1, FileHits(m, files, start, hi - 1)), at);
  }

  lemma TakeSum<T>(a: seq<T>, b: seq<T>, at: nat)
    requires at < |a|
    ensures (a + b)[at] == a[at] && (a + b)[at..] == a[at..] + b
  {
  }

  lemma LastFile(m: Matcher, files: seq<File>, start: Pos, hi: nat, at: nat)
    requires start.file < hi <= |files| && |AllHits(m, files, start, hi - 1)| <= at < |AllHits(m, files, start, hi)|
    ensures var h := AllHits(m, files, start, hi);
            start.file <= h[at].file < hi && AllHits(m, files, h[at], hi) == h[at..]
  {
    hide *;
    var h' := AllHits(m, files, start, hi - 1);
    var fh := FileHits(m, files, start, hi - 1);
    var b := at - |h'|;
    AllHitsStep(m, files, start, hi - 1);
    DropSum(h', Positions(hi - 1, fh), at);
    PositionAt(hi - 1, fh, b);
    var p := Pos(hi - 1, fh[b]);
    FileHitsFrom(m, files, start, hi - 1, b);
    AllHitsStep(m, files, p, hi - 1);
    NoHitsBefore(m, files, p, hi - 1);
  }

  lemma DropSum<T>(a: seq<T>, b: seq<T>, at: nat)
    requires |a| <= at < |a| + |b|
    ensures (a + b)[at] == b[at - |a|] && (a + b)[at..] == b[at - |a|..]
  {
  }

  lemma PositionAt(file: nat, ns: seq<nat>, i: nat)
    requires i < |ns|
    ensures Positions(file, ns)[i] == Pos(file, ns[i])
  {
  }

  lemma NoHitsBefore(m: Matcher, files: seq<File>, start: Pos, hi: nat)
    requires hi <= |files| && hi <= start.file
    ensures AllHits(m, files, start, hi) == []
  {
  }

  /** What one search returned, with where it started and its Max. */
  datatype Page = Page(start: Pos, max: nat, lines: seq<Entry>, next: Option<Pos>)

  ghost function CountedBy(m: Matcher, files: seq<File>, p: Page): seq<Pos> {
    Counted(AllHits(m, files, p.start, |files|), p.max)
  }

  ghost predicate IsPage(m: Matcher, files: seq<File>, before: nat, after: nat, p: Page) {
    && p.max >= 1
    && p.lines == ShownNear(m, files, before, after, CountedBy(m, files, p), |files|)
    && p.next == NextOf(AllHits(m, files, p.start, |files|), p.max)
  }

  /** Searches over unchanged files, each from the cursor of the one before, until a search
      returns no cursor; Max may differ from page to page. */
  ghost predicate IsChain(m: Matcher, files: seq<File>, before: nat, after: nat, pages: seq<Page>) {
    && pages != []
    && (forall i :: 0 <= i < |pages| ==> IsPage(m, files, before, after, pages[i]))
    && (forall i :: 0 <= i < |pages| - 1 ==> pages[i].next == Some(pages[i + 1].start))
    && pages[|pages| - 1].next.None?
  }

  /** The page from a position on. */
  ghost function PageAt(m: Matcher, files: seq<File>, before: nat, after: nat, max: nat, start: Pos): Page {
    var hits := AllHits(m, files, start, |files|);
    Page(start, max, ShownNear(m, files, before, after, Counted(hits, max), |files|), NextOf(hits, max))
  }

  /** The pages one gets by following the cursors, page k asked for with Max maxes(k). */
  ghost function PagesFrom(m: Matcher, files: seq<File>, before: nat, after: nat, maxes: nat -> nat, k: nat, start: Pos): seq<Page>
    requires forall j :: maxes(j) >= 1
    decreases |AllHits(m, files, start, |files|)|
  {
    var hits := AllHits(m, files, start, |files|);
    var page := PageAt(m, files, before, after, maxes(k), start);
    if |hits| <= maxes(k) then [page]
    else
      AllHitsFrom(m, files, start, |files|, maxes(k));
      [page] + PagesFrom(m, files, before, after, maxes, k + 1, hits[maxes(k)])
  }

  lemma PageAtIsPage(m: Matcher, files: seq<File>, before: nat, after: nat, max: nat, start: Pos)
    requires max >= 1
    ensures var p := PageAt(m, files, before, after, max, start); var hits := AllHits(m, files, start, |files|);
            && IsPage(m, files, before, after, p) && p.start == start && p.max == max
            && p.next == if |hits| > max then Some(hits[max]) else None
  {
    hide AllHits, ShownNear;
  }

  lemma ChainOne(m: Matcher, files: seq<File>, before: nat, after: nat, page: Page)
    requires IsPage(m, files, before, after, page) && page.next.None?
    ensures IsChain(m, files, before, after, [page])
  {
    hide IsPage;
  }

  lemma ChainCons(m: Matcher, files: seq<File>, before: nat, after: nat, page: Page, rest: seq<Page>)
    requires IsPage(m, files, before, after, page) && IsChain(m, files, before, after, rest) && page.next == Some(rest[0].start)
    ensures IsChain(m, files, before, after, [page] + rest)
  {
    hide IsPage;
    var pages := [page] + rest;
    assert forall i :: 1 <= i < |pages| ==> pages[i] == rest[i - 1];
  }

  /** Page k + i of a chain has the Max it was asked for with. */
  ghost predicate AskedWith(pages: seq<Page>, maxes: nat -> nat, k: nat) {
    forall i :: 0 <= i < |pages| ==> pages[i].max == maxes(k + i)
  }

  lemma AskedCons(page: Page, rest: seq<Page>, maxes: nat -> nat, k: nat)
    requires page.max == maxes(k) && AskedWith(rest, maxes, k + 1)
    ensures AskedWith([page] + rest, maxes, k)
  {
    var pages := [page] + rest;
    forall i | 0 <= i < |pages|
      ensures pages[i].max == maxes(k + i)
    {
      if i > 0 {
        assert pages[i] == rest[i - 1] && rest[i - 1].max == maxes(k + 1 + (i - 1));
      }
    }
  }

  /** Following the cursors always comes to a last page, after at most one page per match:
      for every start and any Max on each page there is a complete chain. */
  lemma {:induction false} PagesEnd(m: Matcher, files: seq<File>, before: nat, after: nat, maxes: nat -> nat, k: nat, start: Pos)
    requires forall j :: maxes(j) >= 1
    ensures var pages := PagesFrom(m, files, before, after, maxes, k, start);
            && IsChain(m, files, before, after, pages) && pages[0].start == start && AskedWith(pages, maxes, k)
            && |pages| <= |AllHits(m, files, start, |files|)| + 1
    decreases |AllHits(m, files, start, |files|)|
  {
    hide AllHits, PageAt, IsPage, IsChain, AskedWith;
    var hits := AllHits(m, files, start, |files|);
    var page := PageAt(m, files, before, after, maxes(k), start);
    PageAtIsPage(m, files, before, after, maxes(k), start);
    if |hits| <= maxes(k) {
      ChainOne(m, files, before, after, page);
      AskedNone(maxes, k + 1);
      AskedCons(page, [], maxes, k);
      assert [page] + [] == [page];
    } else {
      AllHitsFrom(m, files, start, |files|, maxes(k));
      PagesEnd(m, files, before, after, maxes, k + 1, hits[maxes(k)]);
      var rest := PagesFrom(m, files, before, after, maxes, k + 1, hits[maxes(k)]);
      ChainNotEmpty(m, files, before, after, rest);
      ChainCons(m, files, before, after, page, rest);
      AskedCons(page, rest, maxes, k);
    }
  }

  lemma AskedNone(maxes: nat -> nat, k: nat)
    ensures AskedWith([], maxes, k)
  {
  }

  lemma ChainNotEmpty(m: Matcher, files: seq<File>, before: nat, after: nat, pages: seq<Page>)
    requires IsChain(m, files, before, after, pages)
    ensures pages != []
  {
    hide IsPage;
  }

  ghost function AllCounted(m: Matcher, files: seq<File>, pages: seq<Page>): seq<Pos> {
    if pages == [] then [] else CountedBy(m, files, pages[0]) + AllCounted(m, files, pages[1..])
  }

  /** The pages' counted hits are all matches from the first cursor on, in order, each
      once; every page but the last counts exactly its Max. */
  lemma {:induction false} PagesPartitionHits(m: Matcher, files: seq<File>, before: nat, after: nat, pages: seq<Page>)
    requires IsChain(m, files, before, after, pages)
    ensures AllCounted(m, files, pages) == AllHits(m, files, pages[0].start, |files|)
    ensures forall i :: 0 <= i < |pages| - 1 ==> |CountedBy(m, files, pages[i])| == pages[i].max
    decreases |pages|
  {
    hide ShownNear, AllHits;
    var h := AllHits(m, files, pages[0].start, |files|);
    assert IsPage(m, files, before, after, pages[0]);
    if |pages| == 1 {
      assert AllCounted(m, files, pages[1..]) == [];
    } else {
      var rest := pages[1..];
      assert forall i :: 0 <= i < |rest| ==> rest[i] == pages[i + 1];
      assert rest[|rest| - 1] == pages[|pages| - 1];
      assert pages[0].next == Some(pages[1].start);
      AllHitsFrom(m, files, pages[0].start, |files|, pages[0].max);
      PagesPartitionHits(m, files, before, after, rest);
      forall i | 0 <= i < |pages| - 1 ensures |CountedBy(m, files, pages[i])| == pages[i].max {
        assert i > 0 ==> pages[i] == rest[i - 1];
      }
    }
  }

  /** Entry e shows a line near hit p. */
  ghost predicate ShownBy(m: Matcher, files: seq<File>, before: nat, after: nat, p: Pos, e: Entry) {
    && p.file < |files| && p.line >= 0
    && 1 <= e.n <= |Content(files[p.file])| && p.line - before <= e.n <= p.line + after
    && e == Show(m, p.file, Content(files[p.file]), e.n)
  }

  lemma {:induction false} NearLinesMember(hits: seq<nat>, before: nat, after: nat, k: nat, n: nat)
    ensures n in NearLines(hits, before, after, k) <==> 1 <= n <= k && Near(hits, before, after, n)
  {
    if k > 0 {
      NearLinesMember(hits, before, after, k - 1, n);
    }
  }

  lemma {:induction false} LinesInMember(ps: seq<Pos>, file: nat, n: nat)
    ensures n in LinesIn(ps, file) <==> Pos(file, n) in ps
    decreases |ps|
  {
    if ps != [] {
      LinesInMember(ps[..|ps| - 1], file, n);
      assert ps == ps[..|ps| - 1] + [ps[|ps| - 1]];
    }
  }

  lemma NearInMember(m: Matcher, files: seq<File>, before: nat, after: nat, ps: seq<Pos>, j: nat, e: Entry)
    requires j < |files|
    ensures e in NearIn(m, files, before, after, ps, j) <==> exists p :: p in ps && p.file == j && ShownBy(m, files, before, after, p, e)
  {
    var lines := Content(files[j]);
    var hits := LinesIn(ps, j);
    var ns := NearLines(hits, before, after, |lines|);
    var shown := NearIn(m, files, before, after, ps, j);
    assert shown == ShowAll(m, j, lines, ns);
    if e in shown {
      var i :| 0 <= i < |shown| && shown[i] == e;
      assert ns[i] in ns && e == Show(m, j, lines, ns[i]);
      NearLinesMember(hits, before, after, |lines|, ns[i]);
      var h :| 0 <= h < |hits| && hits[h] - before <= ns[i] <= hits[h] + after;
      LinesInMember(ps, j, hits[h]);
      assert ShownBy(m, files, before, after, Pos(j, hits[h]), e);
    }
    if p :| p in ps && p.file == j && ShownBy(m, files, before, after, p, e) {
      LinesInMember(ps, j, p.line);
      var h :| 0 <= h < |hits| && hits[h] == p.line;
      NearLinesMember(hits, before, after, |lines|, e.n);
      var i :| 0 <= i < |ns| && ns[i] == e.n;
      assert shown[i] == e;
    }
  }

  lemma {:induction false} ShownNearMember(m: Matcher, files: seq<File>, before: nat, after: nat, ps: seq<Pos>, hi: nat, e: Entry)
    requires hi <= |files|
    ensures e in ShownNear(m, files, before, after, ps, hi) <==>
            exists p :: p in ps && p.file < hi && ShownBy(m, files, before, after, p, e)
  {
    hide ShownBy, NearIn;
    if hi > 0 {
      ShownNearMember(m, files, before, after, ps, hi - 1, e);
      NearInMember(m, files, before, after, ps, hi - 1, e);
    }
  }

  lemma {:induction false} CountedInSome(m: Matcher, files: seq<File>, pages: seq<Page>, p: Pos)
    ensures p in AllCounted(m, files, pages) <==> exists i :: 0 <= i < |pages| && p in CountedBy(m, files, pages[i])
    decreases |pages|
  {
    if pages != [] {
      var rest := pages[1..];
      CountedInSome(m, files, rest, p);
      if i :| 0 <= i < |pages| && p in CountedBy(m, files, pages[i]) {
        assert i > 0 ==> pages[i] == rest[i - 1];
      }
      if i :| 0 <= i < |rest| && p in CountedBy(m, files, rest[i]) {
        assert pages[i + 1] == rest[i];
      }
    }
  }

  /** The union of the pages' lines is what one unbounded search shows. */
  lemma PagesShowSame(m: Matcher, files: seq<File>, before: nat, after: nat, pages: seq<Page>, e: Entry)
    requires IsChain(m, files, before, after, pages)
    ensures (exists i :: 0 <= i < |pages| && e in pages[i].lines) <==>
            e in ShownNear(m, files, before, after, AllHits(m, files, pages[0].start, |files|), |files|)
  {
    hide ShownNear, AllHits, ShownBy, NextOf;
    var all := AllHits(m, files, pages[0].start, |files|);
    PagesPartitionHits(m, files, before, after, pages);
    ShownNearMember(m, files, before, after, all, |files|, e);
    if i :| 0 <= i < |pages| && e in pages[i].lines {
      assert IsPage(m, files, before, after, pages[i]);
      ShownNearMember(m, files, before, after, CountedBy(m, files, pages[i]), |files|, e);
      var p :| p in CountedBy(m, files, pages[i]) && p.file < |files| && ShownBy(m, files, before, after, p, e);
      CountedInSome(m, files, pages, p);
    }
    if p :| p in all && p.file < |files| && ShownBy(m, files, before, after, p, e) {
      CountedInSome(m, files, pages, p);
      var i :| 0 <= i < |pages| && p in CountedBy(m, files, pages[i]);
      assert IsPage(m, files, before, after, pages[i]);
      ShownNearMember(m, files, before, after, CountedBy(m, files, pages[i]), |files|, e);
    }
  }

  /** File by file below `hi`, in increasing order, each line once. */
  ghost predicate Ordered(s: seq<Entry>, hi: nat) {
    && (forall i :: 0 <= i < |s| ==> s[i].file < hi)
    && forall i, j :: 0 <= i < j < |s| ==> s[i].file < s[j].file || (s[i].file == s[j].file && s[i].n < s[j].n)
  }

  ghost predicate InOrder(s: seq<Entry>, file: nat) {
    && (forall i :: 0 <= i < |s| ==> s[i].file == file)
    && forall i, j :: 0 <= i < j < |s| ==> s[i].n < s[j].n
  }

  /** Within a page lines come file by file, in increasing order, each once. */
  lemma {:induction false} PageOrdered(m: Matcher, files: seq<File>, before: nat, after: nat, ps: seq<Pos>, hi: nat)
    requires hi <= |files|
    ensures Ordered(ShownNear(m, files, before, after, ps, hi), hi)
  {
    hide *;
    if hi == 0 {
      NothingOrdered(m, files, before, after, ps);
    } else {
      PageOrdered(m, files, before, after, ps, hi - 1);
      NearInOrdered(m, files, before, after, ps, hi - 1);
      ShownNearStep(m, files, before, after, ps, hi - 1);
      OrderedAppend(ShownNear(m, files, before, after, ps, hi - 1), NearIn(m, files, before, after, ps, hi - 1), hi - 1);
    }
  }

  lemma NothingOrdered(m: Matcher, files: seq<File>, before: nat, after: nat, ps: seq<Pos>)
    ensures Ordered(ShownNear(m, files, before, after, ps, 0), 0)
  {
  }

  lemma ShownNearStep(m: Matcher, files: seq<File>, before: nat, after: nat, ps: seq<Pos>, j: nat)
    requires j < |files|
    ensures ShownNear(m, files, before, after, ps, j + 1) ==
            ShownNear(m, files, before, after, ps, j) + NearIn(m, files, before, after, ps, j)
  {
  }

  lemma NearInOrdered(m: Matcher, files: seq<File>, before: nat, after: nat, ps: seq<Pos>, j: nat)
    requires j < |files|
    ensures InOrder(NearIn(m, files, before, after, ps, j), j)
  {
    hide NearLines, LinesIn;
    var lines := Content(files[j]);
    var ns := NearLines(LinesIn(ps, j), before, after, |lines|);
    NearLinesAscending(LinesIn(ps, j), before, after, |lines|);
    var b := NearIn(m, files, before, after, ps, j);
    assert forall i :: 0 <= i < |b| ==> b[i] == Show(m, j, lines, ns[i]);
  }

  /** Lines of one more file follow in order. */
  lemma OrderedAppend(a: seq<Entry>, b: seq<Entry>, file: nat)
    requires Ordered(a, file) && InOrder(b, file)
    ensures Ordered(a + b, file + 1)
  {
    var s := a + b;
    forall i | 0 <= i < |s| ensures s[i] == if i < |a| then a[i] else b[i - |a|] {
    }
  }

  lemma {:induction false} NearLinesAscending(hits: seq<nat>, before: nat, after: nat, k: nat)
    ensures Ascending(NearLines(hits, before, after, k))
    ensures forall i :: 0 <= i < |NearLines(hits, before, after, k)| ==> NearLines(hits, before, after, k)[i] <= k
  {
    if k > 0 {
      NearLinesAscending(hits, before, after, k - 1);
    }
  }

  /** The hits are exactly the matching lines from the cursor on. */
  lemma {:induction false} HitsExactly(m: Matcher, lines: seq<Bytes>, first: int, k: nat, n: nat)
    requires k <= |lines|
    ensures n in Hits(m, lines, first, k) <==> 1 <= n <= k && first <= n && m(lines[n - 1])
  {
    if k > 0 {
      HitsExactly(m, lines, first, k - 1, n);
    }
  }

  /** A shown line carries its file, its number, its text and whether it matches. */
  lemma ShowExactly(m: Matcher, file: nat, lines: seq<Bytes>, n: nat)
    requires 1 <= n <= |lines|
    ensures var e := Show(m, file, lines, n); e.file == file && e.n == n && e.text == lines[n - 1] && e.mark == m(lines[n - 1])
  {
  }

  /** The limits of a search: 50 lines of context, 1 to 200 matches, 200 files; a cursor names
      one of the files and a line from 1 on. */
  lemma LimitsExactly(files: seq<File>, q: Query)
    ensures LimitsOk(files, q) <==> 0 <= q.before <= 50 && 0 <= q.after <= 50 && 1 <= q.max <= 200 && |files| <= 200
    ensures CursorOk(files, q) <==> q.cursor.None? || (0 <= q.cursor.value.file < |files| && 1 <= q.cursor.value.line)
    ensures q.cursor.None? ==> Start(q) == Pos(0, 1)
    ensures q.cursor.Some? ==> Start(q) == q.cursor.value
  {
  }
}

/** Redaction: rules replace spans by numbered placeholders. The rules run in priority
    order, each over the stretches no earlier rule has taken; a private-key block becomes
    one placeholder. This module is the specification, as functions on values, and proves
    that redaction is invertible through its placeholder table, across lines and calls.

    A rule's regular expression is any function that returns ordered, non-overlapping
    spans; key markers, address parsing and the keep list are arbitrary too. */
module Redaction {
  import opened Base

  /** A match, or (-1, -1) when the rule's group took no part in it. */
  datatype Span = Span(a: int, b: int)
  datatype Rule = Rule(category: string, find: string -> seq<Span>)

  datatype Env = Env(keep: set<string>, off: set<string>, isAddr: string -> bool, keyBegin: string -> bool, keyEnd: string -> bool)

  /** Spans lie in the text, each one at or behind the end of those before it. */
  ghost predicate SpansOk(spans: seq<Span>, length: nat) {
    && (forall i :: 0 <= i < |spans| && spans[i].a >= 0 ==> spans[i].a <= spans[i].b <= length)
    && forall i, j :: 0 <= i < j < |spans| && spans[i].a >= 0 && spans[j].a >= 0 ==> spans[i].b <= spans[j].a
  }

  ghost predicate RuleOk(rule: Rule) {
    forall s: string :: SpansOk(rule.find(s), |s|)
  }

  // ----- the placeholder table

  /** By category, the placeholder of each original value. */
  type Table = map<string, map<string, string>>

  function Name(category: string, k: nat): string {
    "<" + category + "#" + Decimal(k) + ">"
  }

  /** The last '#' stands before the digits, so the digits cannot be longer on one side. */
  lemma NotLonger(c: string, p: string, d: string, q: string)
    requires c + "#" + p == d + "#" + q && forall i :: 0 <= i < |q| ==> IsDigit(q[i])
    ensures |q| <= |p|
  {
    var x := c + "#" + p;
    assert x[|c|] == '#';
    assert forall i :: |d| < i < |x| ==> x[i] == q[i - |d| - 1];
  }

  lemma NameInjective(c: string, k: nat, d: string, n: nat)
    requires Name(c, k) == Name(d, n)
    ensures c == d && k == n
  {
    var x, y := Name(c, k), Name(d, n);
    var p, q := Decimal(k), Decimal(n);
    assert x[1..|x| - 1] == c + "#" + p && y[1..|y| - 1] == d + "#" + q;
    NotLonger(c, p, d, q);
    NotLonger(d, q, c, p);
    var z := c + "#" + p;
    assert z[..|c|] == c && z[..|d|] == d && z[|c| + 1..] == p && z[|d| + 1..] == q;
    DecimalInjective(k, n);
  }

  /** A placeholder is the category and a number from 1 on without leading zeros, as
      `<category#number>`. */
  lemma NamePattern(c: string, k: nat)
    requires k >= 1
    ensures var p := Name(c, k);
            && p[..|c| + 2] == "<" + c + "#" && p[|p| - 1] == '>'
            && var digits := p[|c| + 2..|p| - 1];
               && |digits| >= 1 && '1' <= digits[0] <= '9' && (forall i :: 0 <= i < |digits| ==> IsDigit(digits[i]))
               && ParseDecimal(digits) == Some(k)
  {
    var p, d := Name(c, k), Decimal(k);
    assert p[|c| + 2..|p| - 1] == d;
    NoLeadingZero(k);
    DecimalRoundTrip(k);
  }

  lemma {:induction false} NoLeadingZero(k: nat)
    requires k >= 1
    ensures '1' <= Decimal(k)[0] <= '9'
  {
    if k >= 10 {
      NoLeadingZero(k / 10);
    }
  }

  /** `order` lists the values of a category in the order of their numbers 1, 2, 3, ... */
  ghost predicate Numbered(category: string, inner: map<string, string>, order: seq<string>) {
    && |order| == |inner| && Distinct(order)
    && (forall i :: 0 <= i < |order| ==> order[i] in inner && inner[order[i]] == Name(category, i + 1))
    && (forall v :: v in inner ==> v in order)
  }

  /** The numbers in use in a category are exactly 1..n, each for one value. */
  ghost predicate InnerOk(category: string, inner: map<string, string>) {
    exists order :: Numbered(category, inner, order)
  }

  ghost predicate TableOk(t: Table) {
    forall c :: c in t ==> InnerOk(c, t[c])
  }

  function Inner(t: Table, category: string): map<string, string> {
    if category in t then t[category] else map[]
  }

  function Has(t: Table, category: string, value: string): bool {
    category in t && value in t[category]
  }

  /** Engine.placeholder. */
  function Assign(t: Table, category: string, value: string): (r: (Table, string)) {
    if Has(t, category, value) then (t, t[category][value])
    else
      var p := Name(category, |Inner(t, category)| + 1);
      (t[category := Inner(t, category)[value := p]], p)
  }

  ghost predicate Grows(t: Table, u: Table) {
    forall c, v :: Has(t, c, v) ==> Has(u, c, v) && u[c][v] == t[c][v]
  }

  lemma GrowsTransitive(t: Table, u: Table, w: Table)
    requires Grows(t, u) && Grows(u, w)
    ensures Grows(t, w)
  {
  }

  lemma MapAdd(m: map<string, string>, k: string, v: string)
    requires k !in m
    ensures |m[k := v]| == |m| + 1
  {
    assert m[k := v].Keys == m.Keys + {k};
    assert |m[k := v]| == |m[k := v].Keys| && |m| == |m.Keys|;
  }

  lemma NumberedAdd(category: string, inner: map<string, string>, order: seq<string>, value: string)
    requires Numbered(category, inner, order) && value !in inner
    ensures Numbered(category, inner[value := Name(category, |inner| + 1)], order + [value])
  {
    hide Name;
    var more, longer := inner[value := Name(category, |inner| + 1)], order + [value];
    MapAdd(inner, value, Name(category, |inner| + 1));
    forall i | 0 <= i < |longer| ensures longer[i] in more && more[longer[i]] == Name(category, i + 1) {
      if i < |order| {
        assert longer[i] == order[i];
      }
    }
    forall i, j | 0 <= i < j < |longer| ensures longer[i] != longer[j] {
      assert longer[i] == order[i];
      assert j < |order| ==> longer[j] == order[j];
    }
    forall v | v in more ensures v in longer {
      assert v != value ==> v in order;
    }
  }

  lemma InnerAdd(category: string, inner: map<string, string>, value: string)
    requires InnerOk(category, inner) && value !in inner
    ensures InnerOk(category, inner[value := Name(category, |inner| + 1)])
  {
    var order :| Numbered(category, inner, order);
    hide Numbered, Name;
    NumberedAdd(category, inner, order, value);
  }

  lemma NoneOk(category: string)
    ensures InnerOk(category, map[])
  {
    assert Numbered(category, map[], []);
  }

  lemma AssignOk(t: Table, category: string, value: string)
    requires TableOk(t)
    ensures var r := Assign(t, category, value);
            TableOk(r.0) && Grows(t, r.0) && Has(r.0, category, value) && r.0[category][value] == r.1
  {
    hide Name, InnerOk;
    if !Has(t, category, value) {
      NoneOk(category);
      InnerAdd(category, Inner(t, category), value);
    }
  }

  /** In each category the numbers in use are exactly 1..n. */
  lemma NumbersInUse(t: Table, category: string, k: nat)
    requires TableOk(t) && category in t
    ensures (exists v :: v in t[category] && t[category][v] == Name(category, k)) <==> 1 <= k <= |t[category]|
  {
    hide Name;
    var inner := t[category];
    var order :| Numbered(category, inner, order);
    if v :| v in inner && inner[v] == Name(category, k) {
      var i :| 0 <= i < |order| && order[i] == v;
      NameInjective(category, k, category, i + 1);
    }
    if 1 <= k <= |inner| {
      assert inner[order[k - 1]] == Name(category, k);
    }
  }

  /** Distinct (category, value) pairs never share a placeholder. */
  lemma PlaceholdersDistinct(t: Table, c: string, v: string, d: string, w: string)
    requires TableOk(t) && Has(t, c, v) && Has(t, d, w) && t[c][v] == t[d][w]
    ensures c == d && v == w
  {
    hide Name;
    var a :| Numbered(c, t[c], a);
    var b :| Numbered(d, t[d], b);
    var i :| 0 <= i < |a| && a[i] == v;
    var j :| 0 <= j < |b| && b[j] == w;
    NameInjective(c, i + 1, d, j + 1);
    if i < |b| {
      assert t[d][b[i]] == Name(d, i + 1);
    }
    SameNumber(c, t[c], a, b, i);
  }

  /** Two numberings of a category agree. */
  lemma SameNumber(c: string, inner: map<string, string>, a: seq<string>, b: seq<string>, i: nat)
    requires Numbered(c, inner, a) && Numbered(c, inner, b) && i < |a|
    ensures a[i] == b[i]
  {
    hide Name;
    var j :| 0 <= j < |a| && a[j] == b[i];
    NameInjective(c, j + 1, c, i + 1);
  }

  function Pairs(t: Table): set<(string, string)> {
    set c, v | c in t && v in t[c] :: (c, v)
  }

  lemma PairsDistinct(t: Table)
    requires TableOk(t)
    ensures forall q, r :: q in Pairs(t) && r in Pairs(t) && t[q.0][q.1] == t[r.0][r.1] ==> q == r
  {
    hide TableOk;
    forall q, r | q in Pairs(t) && r in Pairs(t) && t[q.0][q.1] == t[r.0][r.1] ensures q == r {
      PlaceholdersDistinct(t, q.0, q.1, r.0, r.1);
    }
  }

  /** The part of the mapping that some of the pairs make. */
  ghost function PartialMapping(t: Table, s: set<(string, string)>): map<string, string>
    requires TableOk(t) && s <= Pairs(t)
  {
    PairsDistinct(t);
    map q | q in s :: t[q.0][q.1] := q.1
  }

  /** Engine.Mapping: from each placeholder back to its value. */
  ghost function MappingOf(t: Table): map<string, string>
    requires TableOk(t)
  {
    PartialMapping(t, Pairs(t))
  }

  lemma PartialMappingAdd(t: Table, s: set<(string, string)>, q: (string, string))
    requires TableOk(t) && s <= Pairs(t) && q in Pairs(t) && q !in s
    ensures PartialMapping(t, s + {q}) == PartialMapping(t, s)[t[q.0][q.1] := q.1]
  {
    hide TableOk;
    PairsDistinct(t);
  }

  /** The mapping leads from every placeholder in use to its value, and holds nothing else. */
  lemma MappingExact(t: Table, p: string, v: string)
    requires TableOk(t)
    ensures p in MappingOf(t) && MappingOf(t)[p] == v <==> exists c :: Has(t, c, v) && t[c][v] == p
  {
    hide TableOk;
    PairsDistinct(t);
    var m := MappingOf(t);
    if p in m && m[p] == v {
      var q :| q in Pairs(t) && t[q.0][q.1] == p && q.1 == v;
      assert Has(t, q.0, v);
    }
    if c :| Has(t, c, v) && t[c][v] == p {
      assert (c, v) in Pairs(t);
    }
  }

  // ----- one line

  datatype Rep = Rep(start: nat, end: nat, text: string)

  /** Work on a line: the table, the positions taken, the replacements so far. */
  datatype Work = Work(table: Table, taken: seq<bool>, reps: seq<Rep>)

  function Mark(taken: seq<bool>, a: nat, b: nat): (r: seq<bool>)
    requires a <= b <= |taken|
    ensures |r| == |taken|
  {
    seq(|taken|, i requires 0 <= i < |taken| => if a <= i < b then true else taken[i])
  }

  /** A match that is to be replaced: a non-empty group, not kept, an address if it must be. */
  predicate Wanted(env: Env, rule: Rule, line: string, start: nat, s: Span) {
    && 0 <= s.a < s.b && start + s.b <= |line|
    && line[start + s.a..start + s.b] !in env.keep
    && (rule.category == "ip" ==> env.isAddr(line[start + s.a..start + s.b]))
  }

  function ApplySpan(env: Env, rule: Rule, line: string, start: nat, s: Span, w: Work): (r: Work)
    requires |w.taken| == |line|
    ensures |r.taken| == |line|
  {
    if !Wanted(env, rule, line, start, s) then w
    else
      var a, b := start + s.a, start + s.b;
      var p := Assign(w.table, rule.category, line[a..b]);
      Work(p.0, Mark(w.taken, a, b), w.reps + [Rep(a, b, p.1)])
  }

  function ApplySpans(env: Env, rule: Rule, line: string, start: nat, spans: seq<Span>, w: Work): (r: Work)
    requires |w.taken| == |line|
    ensures |r.taken| == |line|
    decreases |spans|
  {
    if spans == [] then w
    else ApplySpan(env, rule, line, start, spans[|spans| - 1], ApplySpans(env, rule, line, start, spans[..|spans| - 1], w))
  }

  /** End of the untaken stretch that begins at i. */
  function RunEnd(taken: seq<bool>, i: nat): (e: nat)
    requires i <= |taken|
    ensures i <= e <= |taken| && (forall k :: i <= k < e ==> !taken[k]) && (i < |taken| && !taken[i] ==> i < e)
    decreases |taken| - i
  {
    if i == |taken| || taken[i] then i else RunEnd(taken, i + 1)
  }

  /** One rule, from position `start` on. */
  function ApplyRule(env: Env, rule: Rule, line: string, start: nat, w: Work): (r: Work)
    requires |w.taken| == |line| && start <= |line|
    ensures |r.taken| == |line|
    decreases |line| - start
  {
    if start == |line| then w
    else if w.taken[start] then ApplyRule(env, rule, line, start + 1, w)
    else
      var end := RunEnd(w.taken, start);
      ApplyRule(env, rule, line, end, ApplySpans(env, rule, line, start, rule.find(line[start..end]), w))
  }

  function ApplyRules(env: Env, rules: seq<Rule>, line: string, w: Work): (r: Work)
    requires |w.taken| == |line|
    ensures |r.taken| == |line|
  {
    if rules == [] then w else ApplyRule(env, rules[|rules| - 1], line, 0, ApplyRules(env, rules[..|rules| - 1], line, w))
  }

  // ----- replacements of a line

  predicate Apart(r: Rep, s: Rep) { r.end <= s.start || s.end <= r.start }

  /** The replacement stands for a value of the table. */
  ghost predicate RepOk(line: string, t: Table, r: Rep) {
    && r.start < r.end <= |line|
    && exists c :: Has(t, c, line[r.start..r.end]) && t[c][line[r.start..r.end]] == r.text
  }

  ghost predicate WorkOk(line: string, w: Work) {
    && |w.taken| == |line| && TableOk(w.table)
    && (forall i :: 0 <= i < |w.reps| ==> RepOk(line, w.table, w.reps[i]))
    && (forall i, k :: 0 <= i < |w.reps| && w.reps[i].start <= k < w.reps[i].end <= |line| ==> w.taken[k])
    && (forall i, j :: 0 <= i < j < |w.reps| ==> Apart(w.reps[i], w.reps[j]))
  }

  lemma RepOkGrows(line: string, t: Table, u: Table, r: Rep)
    requires RepOk(line, t, r) && Grows(t, u)
    ensures RepOk(line, u, r)
  {
  }

  /** A replacement of untaken positions lies apart from every earlier one. */
  lemma NewRepApart(line: string, w: Work, a: nat, b: nat, text: string)
    requires WorkOk(line, w) && a < b <= |line| && forall k :: a <= k < b ==> !w.taken[k]
    ensures forall i :: 0 <= i < |w.reps| ==> Apart(w.reps[i], Rep(a, b, text))
  {
    hide RepOk, TableOk;
    forall i | 0 <= i < |w.reps| ensures Apart(w.reps[i], Rep(a, b, text)) {
      var r := w.reps[i];
      RepRange(line, w.table, r);
      var k := if a < r.start then r.start else a;
      assert r.start <= k < r.end ==> w.taken[k];
    }
  }

  lemma RepRange(line: string, t: Table, r: Rep)
    requires RepOk(line, t, r)
    ensures r.start < r.end <= |line|
  {
  }

  /** A further replacement, of untaken positions, by a value of a grown table. */
  lemma AddRepOk(line: string, w: Work, t: Table, a: nat, b: nat, text: string)
    requires WorkOk(line, w) && TableOk(t) && Grows(w.table, t)
    requires a < b <= |line| && (forall k :: a <= k < b ==> !w.taken[k]) && RepOk(line, t, Rep(a, b, text))
    ensures WorkOk(line, Work(t, Mark(w.taken, a, b), w.reps + [Rep(a, b, text)]))
  {
    hide TableOk, Grows, RepOk, Apart;
    NewRepApart(line, w, a, b, text);
    forall i | 0 <= i < |w.reps| ensures RepOk(line, t, w.reps[i]) {
      RepOkGrows(line, w.table, t, w.reps[i]);
    }
    var r := Work(t, Mark(w.taken, a, b), w.reps + [Rep(a, b, text)]);
    forall i, k | 0 <= i < |r.reps| && r.reps[i].start <= k < r.reps[i].end <= |line| ensures r.taken[k] {
      assert i < |w.reps| ==> r.reps[i] == w.reps[i];
    }
  }

  lemma ApplySpanOk(env: Env, rule: Rule, line: string, start: nat, s: Span, w: Work)
    requires WorkOk(line, w)
    requires s.a >= 0 && s.a < s.b ==> start + s.b <= |line| && forall k :: start + s.a <= k < start + s.b ==> !w.taken[k]
    ensures var r := ApplySpan(env, rule, line, start, s, w); WorkOk(line, r) && Grows(w.table, r.table)
  {
    if Wanted(env, rule, line, start, s) {
      hide TableOk, Grows, Assign, WorkOk;
      var a, b := start + s.a, start + s.b;
      var p := Assign(w.table, rule.category, line[a..b]);
      TableOfWork(line, w);
      AssignOk(w.table, rule.category, line[a..b]);
      AddRepOk(line, w, p.0, a, b, p.1);
    }
  }

  lemma TableOfWork(line: string, w: Work)
    requires WorkOk(line, w)
    ensures TableOk(w.table) && Grows(w.table, w.table)
  {
  }

  /** Spans in an untaken stretch: each finds its own place still untaken. */
  lemma {:induction false} ApplySpansOk(env: Env, rule: Rule, line: string, start: nat, end: nat, spans: seq<Span>, w: Work)
    requires WorkOk(line, w) && start <= end <= |line| && SpansOk(spans, end - start)
    requires forall k :: start <= k < end ==> !w.taken[k]
    ensures var r := ApplySpans(env, rule, line, start, spans, w);
            && WorkOk(line, r) && Grows(w.table, r.table)
            && forall k :: start <= k < end && (forall i :: 0 <= i < |spans| && spans[i].a >= 0 ==> start + spans[i].b <= k) ==> !r.taken[k]
    decreases |spans|
  {
    if spans != [] {
      var n := |spans| - 1;
      var s := spans[n];
      ApplySpansOk(env, rule, line, start, end, spans[..n], w);
      var v := ApplySpans(env, rule, line, start, spans[..n], w);
      ApplySpanOk(env, rule, line, start, s, v);
      GrowsTransitive(w.table, v.table, ApplySpan(env, rule, line, start, s, v).table);
    }
  }

  lemma {:induction false} ApplyRuleOk(env: Env, rule: Rule, line: string, start: nat, w: Work)
    requires WorkOk(line, w) && RuleOk(rule) && start <= |line|
    ensures var r := ApplyRule(env, rule, line, start, w); WorkOk(line, r) && Grows(w.table, r.table)
    decreases |line| - start
  {
    if start < |line| {
      if w.taken[start] {
        ApplyRuleOk(env, rule, line, start + 1, w);
      } else {
        var end := RunEnd(w.taken, start);
        var spans := rule.find(line[start..end]);
        assert SpansOk(spans, |line[start..end]|);
        ApplySpansOk(env, rule, line, start, end, spans, w);
        var v := ApplySpans(env, rule, line, start, spans, w);
        ApplyRuleOk(env, rule, line, end, v);
        GrowsTransitive(w.table, v.table, ApplyRule(env, rule, line, end, v).table);
      }
    }
  }

  lemma {:induction false} ApplyRulesOk(env: Env, rules: seq<Rule>, line: string, w: Work)
    requires WorkOk(line, w) && forall i :: 0 <= i < |rules| ==> RuleOk(rules[i])
    ensures var r := ApplyRules(env, rules, line, w); WorkOk(line, r) && Grows(w.table, r.table)
    decreases |rules|
  {
    if rules != [] {
      var n := |rules| - 1;
      ApplyRulesOk(env, rules[..n], line, w);
      var v := ApplyRules(env, rules[..n], line, w);
      ApplyRuleOk(env, rules[n], line, 0, v);
      GrowsTransitive(w.table, v.table, ApplyRule(env, rules[n], line, 0, v).table);
    }
  }

  // ----- the output of a line

  /** The sort by start position. */
  function Insert(r: Rep, s: seq<Rep>): seq<Rep> {
    if s == [] || r.start < s[0].start then [r] + s else [s[0]] + Insert(r, s[1..])
  }

  function SortByStart(s: seq<Rep>): seq<Rep> {
    if s == [] then [] else Insert(s[|s| - 1], SortByStart(s[..|s| - 1]))
  }

  /** One behind the other from `pos` on, each standing for a value of the table. */
  ghost predicate InLine(line: string, t: Table, s: seq<Rep>, pos: nat)
    decreases |s|
  {
    pos <= |line| && (s != [] ==> pos <= s[0].start && RepOk(line, t, s[0]) && InLine(line, t, s[1..], s[0].end))
  }

  lemma {:induction false} InsertInLine(line: string, t: Table, r: Rep, s: seq<Rep>, pos: nat)
    requires InLine(line, t, s, pos) && RepOk(line, t, r) && pos <= r.start
    requires forall i :: 0 <= i < |s| ==> Apart(s[i], r)
    ensures InLine(line, t, Insert(r, s), pos)
    ensures forall x :: x in Insert(r, s) <==> x == r || x in s
    decreases |s|
  {
    hide RepOk;
    RepRange(line, t, r);
    if s == [] {
      assert [r][1..] == [];
    } else if r.start < s[0].start {
      assert ([r] + s)[1..] == s;
      assert Apart(s[0], r);
      RepRange(line, t, s[0]);
    } else {
      assert Apart(s[0], r);
      RepRange(line, t, s[0]);
      InsertInLine(line, t, r, s[1..], s[0].end);
      assert ([s[0]] + Insert(r, s[1..]))[1..] == Insert(r, s[1..]);
      assert s == [s[0]] + s[1..];
    }
  }

  lemma {:induction false} SortInLine(line: string, t: Table, s: seq<Rep>)
    requires forall i :: 0 <= i < |s| ==> RepOk(line, t, s[i])
    requires forall i, j :: 0 <= i < j < |s| ==> Apart(s[i], s[j])
    ensures InLine(line, t, SortByStart(s), 0)
    ensures forall x :: x in SortByStart(s) <==> x in s
    decreases |s|
  {
    hide RepOk;
    if s != [] {
      var n := |s| - 1;
      var rest := s[..n];
      SortInLine(line, t, rest);
      assert s == rest + [s[n]];
      var sorted := SortByStart(rest);
      forall i | 0 <= i < |sorted| ensures Apart(sorted[i], s[n]) {
        assert sorted[i] in rest;
        var k :| 0 <= k < |rest| && rest[k] == sorted[i];
        assert s[k] == rest[k];
      }
      InsertInLine(line, t, s[n], sorted, 0);
    }
  }

  /** Output text, with the inserted placeholders told apart from copied text. */
  datatype Piece = Text(s: string) | Hole(placeholder: string)

  function Pieces(line: string, s: seq<Rep>, pos: nat): seq<Piece>
    decreases |s|
  {
    if pos > |line| then []
    else if s == [] || s[0].start < pos || s[0].start > |line| then [Text(line[pos..])]
    else [Text(line[pos..s[0].start]), Hole(s[0].text)] + Pieces(line, s[1..], s[0].end)
  }

  function Render(ps: seq<Piece>): string {
    if ps == [] then "" else (if ps[0].Text? then ps[0].s else ps[0].placeholder) + Render(ps[1..])
  }

  /** Every inserted placeholder replaced by its value. */
  function Expand(ps: seq<Piece>, m: map<string, string>): string {
    if ps == [] then ""
    else (if ps[0].Text? then ps[0].s else if ps[0].placeholder in m then m[ps[0].placeholder] else "") + Expand(ps[1..], m)
  }

  lemma HoleExpands(line: string, t: Table, u: Table, r: Rep)
    requires RepOk(line, t, r) && Grows(t, u) && TableOk(u)
    ensures r.text in MappingOf(u) && MappingOf(u)[r.text] == line[r.start..r.end]
  {
    hide TableOk, MappingOf;
    var c :| Has(t, c, line[r.start..r.end]) && t[c][line[r.start..r.end]] == r.text;
    assert Has(u, c, line[r.start..r.end]);
    MappingExact(u, r.text, line[r.start..r.end]);
  }

  /** Expanding the pieces of a line gives the rest of the line back. */
  lemma {:induction false} PiecesExpand(line: string, t: Table, u: Table, s: seq<Rep>, pos: nat)
    requires InLine(line, t, s, pos) && Grows(t, u) && TableOk(u)
    ensures Expand(Pieces(line, s, pos), MappingOf(u)) == line[pos..]
    decreases |s|
  {
    hide TableOk, Grows, MappingOf, RepOk;
    var m := MappingOf(u);
    if s == [] {
      assert [Text(line[pos..])][1..] == [];
      assert Expand([Text(line[pos..])], m) == line[pos..] + Expand([], m);
    } else {
      var r := s[0];
      RepRange(line, t, r);
      HoleExpands(line, t, u, r);
      PiecesExpand(line, t, u, s[1..], r.end);
      ExpandTwo(line[pos..r.start], r.text, Pieces(line, s[1..], r.end), m);
      assert line[pos..] == line[pos..r.start] + (line[r.start..r.end] + line[r.end..]);
    }
  }

  lemma ExpandTwo(text: string, p: string, rest: seq<Piece>, m: map<string, string>)
    requires p in m
    ensures Expand([Text(text), Hole(p)] + rest, m) == text + (m[p] + Expand(rest, m))
  {
    var ps := [Text(text), Hole(p)] + rest;
    assert ps[1..] == [Hole(p)] + rest && ps[1..][1..] == rest;
  }

  /** One line without a key block: its pieces and the table afterwards. */
  function RedactLine(env: Env, rules: seq<Rule>, t: Table, line: string): (Table, seq<Piece>) {
    var w := ApplyRules(env, rules, line, Work(t, seq(|line|, _ => false), []));
    (w.table, Pieces(line, SortByStart(w.reps), 0))
  }

  lemma RedactLineOk(env: Env, rules: seq<Rule>, t: Table, line: string)
    requires TableOk(t) && forall i :: 0 <= i < |rules| ==> RuleOk(rules[i])
    ensures var r := RedactLine(env, rules, t, line);
            && TableOk(r.0) && Grows(t, r.0)
            && forall u :: Grows(r.0, u) && TableOk(u) ==> Expand(r.1, MappingOf(u)) == line
  {
    hide TableOk, Grows, MappingOf, RepOk, Apart, ApplyRules, RuleOk, SortByStart, InLine, Expand, Pieces;
    var w0 := Work(t, seq(|line|, _ => false), []);
    ApplyRulesOk(env, rules, line, w0);
    var w := ApplyRules(env, rules, line, w0);
    SortInLine(line, w.table, w.reps);
    forall u | Grows(w.table, u) && TableOk(u)
      ensures Expand(Pieces(line, SortByStart(w.reps), 0), MappingOf(u)) == line
    {
      PiecesExpand(line, w.table, u, SortByStart(w.reps), 0);
    }
  }

  // ----- all lines

  function Join(lines: seq<string>): string {
    if lines == [] then ""
    else if |lines| == 1 then lines[0]
    else lines[0] + "\n" + Join(lines[1..])
  }

  /** The line of the key block's end: the first end marker within 64 lines, or the first
      line itself. */
  function KeyEnd(env: Env, lines: seq<string>, i: nat): (e: nat)
    requires i < |lines|
    ensures i <= e < |lines|
  {
    KeyEndFrom(env, lines, i, i)
  }

  function KeyEndFrom(env: Env, lines: seq<string>, i: nat, j: nat): (e: nat)
    requires i <= j && i < |lines|
    ensures i <= e < |lines|
    decreases |lines| - j
  {
    if j >= |lines| || j > i + 64 then i
    else if env.keyEnd(lines[j]) then j
    else KeyEndFrom(env, lines, i, j + 1)
  }

  datatype Redacted = Redacted(table: Table, out: seq<seq<Piece>>, collapsed: nat)

  function Prepend(ps: seq<Piece>, collapsed: nat, r: Redacted): Redacted {
    Redacted(r.table, [ps] + r.out, collapsed + r.collapsed)
  }

  predicate KeyBlock(env: Env, lines: seq<string>, i: nat)
    requires i < |lines|
  {
    "key" !in env.off && env.keyBegin(lines[i]) && Join(lines[i..KeyEnd(env, lines, i) + 1]) !in env.keep
  }

  /** One turn of Engine.Redact: a key block or a line, and the last input line it used. */
  datatype Turn = Turn(table: Table, pieces: seq<Piece>, end: nat)

  function TurnAt(env: Env, rules: seq<Rule>, t: Table, lines: seq<string>, i: nat): (r: Turn)
    requires i < |lines|
    ensures i <= r.end < |lines|
  {
    if KeyBlock(env, lines, i) then
      var end := KeyEnd(env, lines, i);
      var p := Assign(t, "key", Join(lines[i..end + 1]));
      Turn(p.0, [Hole(p.1)], end)
    else
      var r := RedactLine(env, rules, t, lines[i]);
      Turn(r.0, r.1, i)
  }

  /** Engine.Redact from line i on. */
  function RedactFrom(env: Env, rules: seq<Rule>, t: Table, lines: seq<string>, i: nat): Redacted
    decreases |lines| - i
  {
    if i >= |lines| then Redacted(t, [], 0)
    else
      var r := TurnAt(env, rules, t, lines, i);
      Prepend(r.pieces, r.end - i, RedactFrom(env, rules, r.table, lines, r.end + 1))
  }

  function ExpandAll(out: seq<seq<Piece>>, m: map<string, string>): (r: seq<string>)
    ensures |r| == |out|
  {
    seq(|out|, i requires 0 <= i < |out| => Expand(out[i], m))
  }

  /** Joining a group first changes nothing. */
  lemma {:induction false} JoinGroup(xs: seq<string>, ys: seq<string>)
    requires xs != []
    ensures Join([Join(xs)] + ys) == Join(xs + ys)
    decreases |xs|
  {
    if |xs| == 1 {
      assert xs + ys == [xs[0]] + ys;
    } else {
      var rest := xs[1..];
      JoinGroup(rest, ys);
      JoinCons(xs[0], rest);
      assert xs == [xs[0]] + rest;
      assert xs + ys == [xs[0]] + (rest + ys);
      JoinCons(xs[0], rest + ys);
      JoinFirst(xs[0] + "\n", Join(rest), ys);
    }
  }

  lemma JoinCons(x: string, ys: seq<string>)
    ensures Join([x] + ys) == if ys == [] then x else x + "\n" + Join(ys)
  {
    assert ([x] + ys)[1..] == ys;
  }

  lemma JoinFirst(x: string, y: string, ys: seq<string>)
    ensures Join([x + y] + ys) == x + Join([y] + ys)
  {
    JoinCons(x + y, ys);
    JoinCons(y, ys);
    if ys != [] {
      assert (x + y) + "\n" + Join(ys) == x + (y + "\n" + Join(ys));
    }
  }

  lemma KeyExpands(t: Table, value: string)
    requires TableOk(t)
    ensures var p := Assign(t, "key", value);
            forall u :: Grows(p.0, u) && TableOk(u) ==> Expand([Hole(p.1)], MappingOf(u)) == value
  {
    hide TableOk, Grows, MappingOf, Assign;
    var p := Assign(t, "key", value);
    AssignOk(t, "key", value);
    forall u | Grows(p.0, u) && TableOk(u) ensures Expand([Hole(p.1)], MappingOf(u)) == value {
      GrownHas(p.0, u, "key", value);
      MappingExact(u, p.1, value);
      assert [Hole(p.1)][1..] == [];
      assert Expand([], MappingOf(u)) == "";
    }
  }

  lemma GrownHas(t: Table, u: Table, c: string, v: string)
    requires Grows(t, u) && Has(t, c, v)
    ensures Has(u, c, v) && u[c][v] == t[c][v]
  {
  }

  /** Everything a redaction from line i on promises about table `u` that grew from its own. */
  ghost predicate Inverted(lines: seq<string>, i: nat, r: Redacted, u: Table) {
    i <= |lines| && TableOk(u) && Join(ExpandAll(r.out, MappingOf(u))) == Join(lines[i..])
  }

  lemma TurnOk(env: Env, rules: seq<Rule>, t: Table, lines: seq<string>, i: nat)
    requires TableOk(t) && i < |lines| && forall k :: 0 <= k < |rules| ==> RuleOk(rules[k])
    ensures var r := TurnAt(env, rules, t, lines, i);
            && TableOk(r.table) && Grows(t, r.table)
            && forall u :: Grows(r.table, u) && TableOk(u) ==> Expand(r.pieces, MappingOf(u)) == Join(lines[i..r.end + 1])
  {
    hide TableOk, Grows, RuleOk, RedactLine, Assign, Expand, MappingOf;
    if KeyBlock(env, lines, i) {
      var value := Join(lines[i..KeyEnd(env, lines, i) + 1]);
      AssignOk(t, "key", value);
      KeyExpands(t, value);
    } else {
      RedactLineOk(env, rules, t, lines[i]);
      assert lines[i..i + 1] == [lines[i]];
    }
  }

  lemma {:induction false} RedactFromOk(env: Env, rules: seq<Rule>, t: Table, lines: seq<string>, i: nat)
    requires TableOk(t) && i <= |lines| && forall k :: 0 <= k < |rules| ==> RuleOk(rules[k])
    ensures var r := RedactFrom(env, rules, t, lines, i);
            && TableOk(r.table) && Grows(t, r.table)
            && |r.out| + r.collapsed == |lines| - i && (r.out == [] <==> i == |lines|)
            && forall u :: Grows(r.table, u) && TableOk(u) ==> Inverted(lines, i, r, u)
    decreases |lines| - i
  {
    hide TableOk, Grows, RuleOk, TurnAt, Inverted, Expand, MappingOf;
    if i == |lines| {
      NothingRedacted(t, lines);
    } else {
      var s := TurnAt(env, rules, t, lines, i);
      TurnOk(env, rules, t, lines, i);
      RedactFromOk(env, rules, s.table, lines, s.end + 1);
      var r := RedactFrom(env, rules, s.table, lines, s.end + 1);
      GrowsTransitive(t, s.table, r.table);
      forall u | Grows(r.table, u) && TableOk(u) ensures Inverted(lines, i, Prepend(s.pieces, s.end - i, r), u) {
        GrowsTransitive(s.table, r.table, u);
        InvertedStep(lines, i, s.end, s.pieces, r, u);
      }
    }
  }

  lemma NothingRedacted(t: Table, lines: seq<string>)
    requires TableOk(t)
    ensures Grows(t, t)
    ensures forall u :: TableOk(u) ==> Inverted(lines, |lines|, Redacted(t, [], 0), u)
  {
    forall u | TableOk(u) ensures Inverted(lines, |lines|, Redacted(t, [], 0), u) {
      assert ExpandAll([], MappingOf(u)) == [] && lines[|lines|..] == [];
    }
  }

  lemma InvertedStep(lines: seq<string>, i: nat, end: nat, ps: seq<Piece>, r: Redacted, u: Table)
    requires i <= end < |lines| && Inverted(lines, end + 1, r, u) && (r.out == [] <==> end + 1 == |lines|)
    requires Expand(ps, MappingOf(u)) == Join(lines[i..end + 1])
    ensures Inverted(lines, i, Prepend(ps, end - i, r), u)
  {
    hide TableOk, MappingOf, Expand;
    var m := MappingOf(u);
    var first, rest := lines[i..end + 1], lines[end + 1..];
    assert ExpandAll([ps] + r.out, m) == [Join(first)] + ExpandAll(r.out, m);
    JoinCons(Join(first), ExpandAll(r.out, m));
    JoinGroup(first, rest);
    JoinCons(Join(first), rest);
    assert lines[i..] == first + rest;
  }

  /** Redaction is invertible: for any rules, keep list and lines, expanding each inserted
      placeholder through the mapping, of this call or of any later one, and joining the
      lines gives back the joined input; and output lines plus collapsed lines are the
      input lines. */
  lemma RedactionInvertible(env: Env, rules: seq<Rule>, t: Table, lines: seq<string>, u: Table)
    requires TableOk(t) && forall k :: 0 <= k < |rules| ==> RuleOk(rules[k])
    requires Grows(RedactFrom(env, rules, t, lines, 0).table, u) && TableOk(u)
    ensures var r := RedactFrom(env, rules, t, lines, 0);
            && Join(ExpandAll(r.out, MappingOf(u))) == Join(lines)
            && |r.out| + r.collapsed == |lines|
  {
    hide TableOk, Grows, MappingOf, RuleOk;
    RedactFromOk(env, rules, t, lines, 0);
    assert Inverted(lines, 0, RedactFrom(env, rules, t, lines, 0), u);
    assert lines[0..] == lines;
  }

  /** A value keeps its placeholder across calls, and the table stays in order. */
  lemma PlaceholdersStable(env: Env, rules: seq<Rule>, t: Table, lines: seq<string>, c: string, v: string)
    requires TableOk(t) && forall k :: 0 <= k < |rules| ==> RuleOk(rules[k])
    ensures var u := RedactFrom(env, rules, t, lines, 0).table;
            TableOk(u) && Grows(t, u) && (Has(t, c, v) ==> Has(u, c, v) && u[c][v] == t[c][v])
  {
    hide TableOk, RuleOk;
    RedactFromOk(env, rules, t, lines, 0);
  }

  // ----- exactly what is replaced

  /** Some replacement covers position p. */
  predicate Covered(reps: seq<Rep>, p: nat) { exists i :: 0 <= i < |reps| && reps[i].start <= p < reps[i].end }

  /** A stretch of a line that no replacement touches, and that cannot be made longer. */
  predicate Stretch(line: string, reps: seq<Rep>, s: nat, e: nat) {
    && s < e <= |line|
    && (forall p :: s <= p < e ==> !Covered(reps, p))
    && (s == 0 || Covered(reps, s - 1)) && (e == |line| || Covered(reps, e))
  }

  /** A value that a rule's match must not leave in clear. */
  predicate Secret(env: Env, rule: Rule, value: string) {
    value !in env.keep && (rule.category == "ip" ==> env.isAddr(value))
  }

  /** The rule matches a..b of the line as its i-th match in the stretch s..e. */
  predicate Match(env: Env, rule: Rule, line: string, s: nat, e: nat, i: nat, a: nat, b: nat) {
    && s <= e <= |line| && i < |rule.find(line[s..e])| && a < b <= |line|
    && rule.find(line[s..e])[i] == Span(a - s, b - s) && s <= a && Secret(env, rule, line[a..b])
  }

  /** The rule has to replace a..b, given what earlier rules replaced. */
  ghost predicate Due(env: Env, rule: Rule, line: string, reps: seq<Rep>, a: nat, b: nat) {
    exists s: nat, e: nat, i: nat :: Stretch(line, reps, s, e) && Match(env, rule, line, s, e, i, a, b)
  }

  /** The replacements hold one of a..b, by the placeholder of its text in the category. */
  ghost predicate ReplacedAs(line: string, t: Table, reps: seq<Rep>, category: string, a: nat, b: nat) {
    a <= b <= |line| && Has(t, category, line[a..b]) && Rep(a, b, t[category][line[a..b]]) in reps
  }

  predicate HasRep(reps: seq<Rep>, a: nat, b: nat) { exists i :: 0 <= i < |reps| && reps[i].start == a && reps[i].end == b }

  /** The marks in the taken array are the positions of the replacements. */
  ghost predicate MarksExact(w: Work) { forall p :: 0 <= p < |w.taken| ==> (w.taken[p] <==> Covered(w.reps, p)) }

  lemma CoveredStep(reps: seq<Rep>, r: Rep, p: nat)
    ensures Covered(reps + [r], p) <==> Covered(reps, p) || r.start <= p < r.end
  {
    var all := reps + [r];
    assert all[|reps|] == r;
    assert forall i :: 0 <= i < |reps| ==> all[i] == reps[i];
  }

  lemma HasRepStep(reps: seq<Rep>, r: Rep, a: nat, b: nat)
    ensures HasRep(reps + [r], a, b) <==> HasRep(reps, a, b) || (r.start == a && r.end == b)
  {
    var all := reps + [r];
    assert all[|reps|] == r;
    assert forall i :: 0 <= i < |reps| ==> all[i] == reps[i];
  }

  lemma SpanExact(env: Env, rule: Rule, line: string, start: nat, s: Span, w: Work)
    requires |w.taken| == |line| && MarksExact(w)
    ensures var r := ApplySpan(env, rule, line, start, s, w);
            && MarksExact(r)
            && forall p :: 0 <= p < |line| && !(s.a >= 0 && start + s.a <= p < start + s.b) ==> r.taken[p] == w.taken[p]
  {
    hide Assign, Covered;
    if Wanted(env, rule, line, start, s) {
      var r := ApplySpan(env, rule, line, start, s, w);
      forall p | 0 <= p < |line| ensures r.taken[p] <==> Covered(r.reps, p) {
        CoveredStep(w.reps, r.reps[|w.reps|], p);
      }
    }
  }

  /** A span adds a replacement exactly when its text is a non-empty secret. */
  lemma SpanAdds(env: Env, rule: Rule, line: string, start: nat, s: Span, w: Work, a: nat, b: nat)
    requires |w.taken| == |line| && (s.a >= 0 ==> s.a <= s.b && start + s.b <= |line|)
    ensures var r := ApplySpan(env, rule, line, start, s, w);
            && (HasRep(r.reps, a, b) <==>
                  (HasRep(w.reps, a, b) || (start <= a < b <= |line| && s == Span(a - start, b - start) && Secret(env, rule, line[a..b]))))
            && (start <= a < b <= |line| && s == Span(a - start, b - start) && Secret(env, rule, line[a..b]) ==>
                  ReplacedAs(line, r.table, r.reps, rule.category, a, b))
  {
    hide HasRep;
    if Wanted(env, rule, line, start, s) {
      var p := Assign(w.table, rule.category, line[start + s.a..start + s.b]);
      HasRepStep(w.reps, Rep(start + s.a, start + s.b, p.1), a, b);
    }
  }

  /** A match among some spans of a stretch that begins at `start`. */
  ghost predicate Among(env: Env, rule: Rule, line: string, start: nat, spans: seq<Span>, a: nat, b: nat) {
    start <= a < b <= |line| && Secret(env, rule, line[a..b]) && exists i :: 0 <= i < |spans| && spans[i] == Span(a - start, b - start)
  }

  lemma AmongStep(env: Env, rule: Rule, line: string, start: nat, spans: seq<Span>, a: nat, b: nat)
    requires spans != []
    ensures var n := |spans| - 1;
            Among(env, rule, line, start, spans, a, b) <==>
            Among(env, rule, line, start, spans[..n], a, b) ||
            (start <= a < b <= |line| && spans[n] == Span(a - start, b - start) && Secret(env, rule, line[a..b]))
  {
    hide Secret;
    var n := |spans| - 1;
    assert forall i :: 0 <= i < n ==> spans[..n][i] == spans[i];
  }

  lemma {:induction false} SpansMarks(env: Env, rule: Rule, line: string, start: nat, end: nat, spans: seq<Span>, w: Work)
    requires |w.taken| == |line| && MarksExact(w) && start <= end <= |line|
    requires forall i :: 0 <= i < |spans| && spans[i].a >= 0 ==> spans[i].a <= spans[i].b <= end - start
    ensures var r := ApplySpans(env, rule, line, start, spans, w);
            MarksExact(r) && forall p :: (0 <= p < start || end <= p < |line|) ==> r.taken[p] == w.taken[p]
    decreases |spans|
  {
    hide MarksExact, ApplySpan;
    if spans != [] {
      var n := |spans| - 1;
      SpansMarks(env, rule, line, start, end, spans[..n], w);
      SpanExact(env, rule, line, start, spans[n], ApplySpans(env, rule, line, start, spans[..n], w));
    }
  }

  lemma {:induction false} SpansAdd(env: Env, rule: Rule, line: string, start: nat, spans: seq<Span>, w: Work, a: nat, b: nat)
    requires |w.taken| == |line| && start <= |line|
    requires forall i :: 0 <= i < |spans| && spans[i].a >= 0 ==> spans[i].a <= spans[i].b && start + spans[i].b <= |line|
    ensures var r := ApplySpans(env, rule, line, start, spans, w);
            && (HasRep(r.reps, a, b) <==> HasRep(w.reps, a, b) || Among(env, rule, line, start, spans, a, b))
    decreases |spans|
  {
    hide HasRep, Among, ApplySpan, Secret;
    if spans == [] {
      NoneAmong(env, rule, line, start, a, b);
    } else {
      var n := |spans| - 1;
      SpansAdd(env, rule, line, start, spans[..n], w, a, b);
      AmongStep(env, rule, line, start, spans, a, b);
      SpanAdds(env, rule, line, start, spans[n], ApplySpans(env, rule, line, start, spans[..n], w), a, b);
    }
  }

  lemma NoneAmong(env: Env, rule: Rule, line: string, start: nat, a: nat, b: nat)
    ensures !Among(env, rule, line, start, [], a, b)
  {
  }

  // ----- stretches

  predicate StretchOf(taken: seq<bool>, s: nat, e: nat) {
    && s < e <= |taken| && (forall p :: s <= p < e ==> !taken[p])
    && (s == 0 || taken[s - 1]) && (e == |taken| || taken[e])
  }

  /** A position where a stretch can begin, or that lies in none. */
  predicate Boundary(taken: seq<bool>, i: nat) {
    i <= |taken| && (i == 0 || i == |taken| || taken[i - 1] || taken[i])
  }

  ghost predicate DueFrom(env: Env, rule: Rule, line: string, taken: seq<bool>, start: nat, a: nat, b: nat) {
    exists s: nat, e: nat, i: nat :: start <= s && StretchOf(taken, s, e) && Match(env, rule, line, s, e, i, a, b)
  }

  lemma {:induction false} RunEndMaximal(taken: seq<bool>, i: nat)
    requires i <= |taken|
    ensures var e := RunEnd(taken, i); e == |taken| || taken[e]
    decreases |taken| - i
  {
    if i < |taken| && !taken[i] {
      RunEndMaximal(taken, i + 1);
    }
  }

  lemma {:induction false} RunEndSame(t: seq<bool>, u: seq<bool>, i: nat)
    requires |t| == |u| && i <= |t| && forall p :: i <= p < |t| ==> t[p] == u[p]
    ensures RunEnd(t, i) == RunEnd(u, i)
    decreases |t| - i
  {
    if i < |t| && !t[i] {
      RunEndSame(t, u, i + 1);
    }
  }

  /** What is due from an untaken boundary on: the matches in the stretch there, and what is
      due behind it. */
  lemma DueSplits(env: Env, rule: Rule, line: string, taken: seq<bool>, start: nat, a: nat, b: nat)
    requires |taken| == |line| && start < |line| && !taken[start] && Boundary(taken, start) && RuleOk(rule)
    ensures var end := RunEnd(taken, start);
            && Boundary(taken, end)
            && (DueFrom(env, rule, line, taken, start, a, b) <==>
                  Among(env, rule, line, start, rule.find(line[start..end]), a, b) || DueFrom(env, rule, line, taken, end, a, b))
  {
    hide Secret, RuleOk;
    var end := RunEnd(taken, start);
    RunEndMaximal(taken, start);
    assert StretchOf(taken, start, end);
    if Among(env, rule, line, start, rule.find(line[start..end]), a, b) {
      var spans := rule.find(line[start..end]);
      var i :| 0 <= i < |spans| && spans[i] == Span(a - start, b - start);
      assert Match(env, rule, line, start, end, i, a, b);
    }
    if DueFrom(env, rule, line, taken, start, a, b) {
      var s: nat, e: nat, i: nat :| start <= s && StretchOf(taken, s, e) && Match(env, rule, line, s, e, i, a, b);
      if s == start {
        assert e == end;
      } else if s < end {
        assert false;
      }
    }
  }

  lemma DueSkips(env: Env, rule: Rule, line: string, taken: seq<bool>, start: nat, a: nat, b: nat)
    requires |taken| == |line| && start < |line| && taken[start]
    ensures Boundary(taken, start + 1)
    ensures DueFrom(env, rule, line, taken, start, a, b) <==> DueFrom(env, rule, line, taken, start + 1, a, b)
  {
    hide Match;
  }

  lemma NoneDue(env: Env, rule: Rule, line: string, taken: seq<bool>, a: nat, b: nat)
    requires |taken| == |line|
    ensures !DueFrom(env, rule, line, taken, |line|, a, b)
  {
    hide Match;
  }

  lemma SpansFit(rule: Rule, line: string, start: nat, end: nat)
    requires RuleOk(rule) && start <= end <= |line|
    ensures var spans := rule.find(line[start..end]);
            forall i :: 0 <= i < |spans| && spans[i].a >= 0 ==> spans[i].a <= spans[i].b <= end - start
  {
    assert SpansOk(rule.find(line[start..end]), |line[start..end]|);
  }

  /** One rule, from a boundary on, adds exactly what is due from there. */
  lemma {:induction false} RuleAdds(env: Env, rule: Rule, line: string, start: nat, taken: seq<bool>, w: Work, a: nat, b: nat)
    requires RuleOk(rule) && |w.taken| == |taken| == |line| && start <= |line| && Boundary(taken, start)
    requires forall p :: start <= p < |line| ==> w.taken[p] == taken[p]
    requires MarksExact(w)
    ensures var r := ApplyRule(env, rule, line, start, w);
            && MarksExact(r)
            && (HasRep(r.reps, a, b) <==> HasRep(w.reps, a, b) || DueFrom(env, rule, line, taken, start, a, b))
    decreases |line| - start
  {
    hide RuleOk, MarksExact, HasRep, DueFrom, Among, ApplySpans, Boundary, Secret;
    if start == |line| {
      NoneDue(env, rule, line, taken, a, b);
    } else if w.taken[start] {
      DueSkips(env, rule, line, taken, start, a, b);
      RuleAdds(env, rule, line, start + 1, taken, w, a, b);
    } else {
      var end := RunEnd(w.taken, start);
      RunEndSame(w.taken, taken, start);
      var spans := rule.find(line[start..end]);
      SpansFit(rule, line, start, end);
      DueSplits(env, rule, line, taken, start, a, b);
      SpansMarks(env, rule, line, start, end, spans, w);
      SpansAdd(env, rule, line, start, spans, w, a, b);
      RuleAdds(env, rule, line, end, taken, ApplySpans(env, rule, line, start, spans, w), a, b);
    }
  }

  // ----- texts

  lemma SpanTexts(env: Env, rule: Rule, line: string, start: nat, s: Span, w: Work, c: string, a: nat, b: nat)
    requires |w.taken| == |line| && ReplacedAs(line, w.table, w.reps, c, a, b)
    ensures var r := ApplySpan(env, rule, line, start, s, w); ReplacedAs(line, r.table, r.reps, c, a, b)
  {
  }

  lemma {:induction false} SpansTexts(env: Env, rule: Rule, line: string, start: nat, spans: seq<Span>, w: Work, c: string, a: nat, b: nat)
    requires |w.taken| == |line| && ReplacedAs(line, w.table, w.reps, c, a, b)
    ensures var r := ApplySpans(env, rule, line, start, spans, w); ReplacedAs(line, r.table, r.reps, c, a, b)
    decreases |spans|
  {
    hide ReplacedAs, ApplySpan;
    if spans != [] {
      var n := |spans| - 1;
      SpansTexts(env, rule, line, start, spans[..n], w, c, a, b);
      SpanTexts(env, rule, line, start, spans[n], ApplySpans(env, rule, line, start, spans[..n], w), c, a, b);
    }
  }

  lemma {:induction false} RuleTexts(env: Env, rule: Rule, line: string, start: nat, w: Work, c: string, a: nat, b: nat)
    requires |w.taken| == |line| && start <= |line| && ReplacedAs(line, w.table, w.reps, c, a, b)
    ensures var r := ApplyRule(env, rule, line, start, w); ReplacedAs(line, r.table, r.reps, c, a, b)
    decreases |line| - start
  {
    hide ReplacedAs, ApplySpans;
    if start < |line| {
      if w.taken[start] {
        RuleTexts(env, rule, line, start + 1, w, c, a, b);
      } else {
        var end := RunEnd(w.taken, start);
        var spans := rule.find(line[start..end]);
        SpansTexts(env, rule, line, start, spans, w, c, a, b);
        RuleTexts(env, rule, line, end, ApplySpans(env, rule, line, start, spans, w), c, a, b);
      }
    }
  }

  lemma {:induction false} AmongTexts(env: Env, rule: Rule, line: string, start: nat, spans: seq<Span>, w: Work, a: nat, b: nat)
    requires |w.taken| == |line| && start <= |line| && Among(env, rule, line, start, spans, a, b)
    requires forall i :: 0 <= i < |spans| && spans[i].a >= 0 ==> spans[i].a <= spans[i].b && start + spans[i].b <= |line|
    ensures var r := ApplySpans(env, rule, line, start, spans, w); ReplacedAs(line, r.table, r.reps, rule.category, a, b)
    decreases |spans|
  {
    hide ReplacedAs, ApplySpan, Among, Secret;
    if spans == [] {
      NoneAmong(env, rule, line, start, a, b);
    } else {
      var n := |spans| - 1;
      var v := ApplySpans(env, rule, line, start, spans[..n], w);
      AmongStep(env, rule, line, start, spans, a, b);
      if Among(env, rule, line, start, spans[..n], a, b) {
        AmongTexts(env, rule, line, start, spans[..n], w, a, b);
        SpanTexts(env, rule, line, start, spans[n], v, rule.category, a, b);
      } else {
        SpanAdds(env, rule, line, start, spans[n], v, a, b);
      }
    }
  }

  lemma {:induction false} DueTexts(env: Env, rule: Rule, line: string, start: nat, taken: seq<bool>, w: Work, a: nat, b: nat)
    requires RuleOk(rule) && |w.taken| == |taken| == |line| && start <= |line| && Boundary(taken, start)
    requires forall p :: start <= p < |line| ==> w.taken[p] == taken[p]
    requires MarksExact(w) && DueFrom(env, rule, line, taken, start, a, b)
    ensures var r := ApplyRule(env, rule, line, start, w); ReplacedAs(line, r.table, r.reps, rule.category, a, b)
    decreases |line| - start
  {
    hide RuleOk, MarksExact, DueFrom, Among, ApplySpans, Boundary, Secret, ReplacedAs;
    if start == |line| {
      NoneDue(env, rule, line, taken, a, b);
    } else if w.taken[start] {
      DueSkips(env, rule, line, taken, start, a, b);
      DueTexts(env, rule, line, start + 1, taken, w, a, b);
    } else {
      var end := RunEnd(w.taken, start);
      RunEndSame(w.taken, taken, start);
      var spans := rule.find(line[start..end]);
      SpansFit(rule, line, start, end);
      DueSplits(env, rule, line, taken, start, a, b);
      SpansMarks(env, rule, line, start, end, spans, w);
      var v := ApplySpans(env, rule, line, start, spans, w);
      if Among(env, rule, line, start, spans, a, b) {
        AmongTexts(env, rule, line, start, spans, w, a, b);
        RuleTexts(env, rule, line, end, v, rule.category, a, b);
      } else {
        DueTexts(env, rule, line, end, taken, v, a, b);
      }
    }
  }

  // ----- all rules of a line

  function NoWork(t: Table, line: string): Work { Work(t, seq(|line|, _ => false), []) }

  /** The work on a line after the first k rules. */
  function WorkAfter(env: Env, rules: seq<Rule>, t: Table, line: string, k: nat): (w: Work)
    requires k <= |rules|
    ensures |w.taken| == |line|
  {
    ApplyRules(env, rules[..k], line, NoWork(t, line))
  }

  lemma WorkStep(env: Env, rules: seq<Rule>, t: Table, line: string, k: nat)
    requires k < |rules|
    ensures WorkAfter(env, rules, t, line, k + 1) == ApplyRule(env, rules[k], line, 0, WorkAfter(env, rules, t, line, k))
  {
    hide ApplyRule;
    assert rules[..k + 1][..k] == rules[..k];
  }

  lemma SameStretches(line: string, w: Work)
    requires |w.taken| == |line| && MarksExact(w)
    ensures forall s: nat, e: nat :: Stretch(line, w.reps, s, e) <==> StretchOf(w.taken, s, e)
  {
    hide Covered;
    forall s: nat, e: nat
      ensures Stretch(line, w.reps, s, e) <==> StretchOf(w.taken, s, e)
    {
      if s < e <= |line| {
        assert forall p :: s <= p < e ==> (w.taken[p] <==> Covered(w.reps, p));
      }
    }
  }

  lemma DueIsDueFrom(env: Env, rule: Rule, line: string, w: Work, a: nat, b: nat)
    requires |w.taken| == |line| && MarksExact(w)
    ensures Due(env, rule, line, w.reps, a, b) <==> DueFrom(env, rule, line, w.taken, 0, a, b)
  {
    hide Stretch, StretchOf, Match;
    SameStretches(line, w);
  }

  lemma {:induction false} WorkMarks(env: Env, rules: seq<Rule>, t: Table, line: string, k: nat)
    requires k <= |rules| && forall i :: 0 <= i < |rules| ==> RuleOk(rules[i])
    ensures MarksExact(WorkAfter(env, rules, t, line, k))
  {
    hide RuleOk, MarksExact, ApplyRule;
    if k == 0 {
      FreshMarks(t, line);
    } else {
      WorkMarks(env, rules, t, line, k - 1);
      WorkStep(env, rules, t, line, k - 1);
      var w := WorkAfter(env, rules, t, line, k - 1);
      RuleAdds(env, rules[k - 1], line, 0, w.taken, w, 0, 0);
    }
  }

  lemma FreshMarks(t: Table, line: string)
    ensures MarksExact(NoWork(t, line))
  {
  }

  /** Rule k replaces exactly its secret matches in the stretches that earlier rules left,
      and keeps what those replaced. */
  lemma RuleReplacesExactly(env: Env, rules: seq<Rule>, t: Table, line: string, k: nat, a: nat, b: nat)
    requires k < |rules| && forall i :: 0 <= i < |rules| ==> RuleOk(rules[i])
    ensures var before, after := WorkAfter(env, rules, t, line, k), WorkAfter(env, rules, t, line, k + 1);
            && (HasRep(after.reps, a, b) <==> HasRep(before.reps, a, b) || Due(env, rules[k], line, before.reps, a, b))
            && (Due(env, rules[k], line, before.reps, a, b) ==> ReplacedAs(line, after.table, after.reps, rules[k].category, a, b))
  {
    hide RuleOk, MarksExact, HasRep, Due, DueFrom, ReplacedAs, ApplyRule, WorkAfter;
    var w := WorkAfter(env, rules, t, line, k);
    WorkMarks(env, rules, t, line, k);
    WorkStep(env, rules, t, line, k);
    DueIsDueFrom(env, rules[k], line, w, a, b);
    RuleAdds(env, rules[k], line, 0, w.taken, w, a, b);
    if Due(env, rules[k], line, w.reps, a, b) {
      DueTexts(env, rules[k], line, 0, w.taken, w, a, b);
    }
  }

  lemma {:induction false} ReplacedStays(env: Env, rules: seq<Rule>, t: Table, line: string, j: nat, k: nat, c: string, a: nat, b: nat)
    requires j <= k <= |rules|
    requires var w := WorkAfter(env, rules, t, line, j); ReplacedAs(line, w.table, w.reps, c, a, b)
    ensures var w := WorkAfter(env, rules, t, line, k); ReplacedAs(line, w.table, w.reps, c, a, b)
    decreases k
  {
    hide ReplacedAs, ApplyRule, WorkAfter;
    if j < k {
      ReplacedStays(env, rules, t, line, j, k - 1, c, a, b);
      WorkStep(env, rules, t, line, k - 1);
      RuleTexts(env, rules[k - 1], line, 0, WorkAfter(env, rules, t, line, k - 1), c, a, b);
    }
  }

  /** Every replacement is some rule's. */
  lemma {:induction false} ReplacedByRule(env: Env, rules: seq<Rule>, t: Table, line: string, k: nat, a: nat, b: nat)
    requires k <= |rules| && HasRep(WorkAfter(env, rules, t, line, k).reps, a, b) && forall i :: 0 <= i < |rules| ==> RuleOk(rules[i])
    ensures exists j: nat :: j < k && Due(env, rules[j], line, WorkAfter(env, rules, t, line, j).reps, a, b)
  {
    hide RuleOk, Due, ApplyRule;
    if k > 0 {
      RuleReplacesExactly(env, rules, t, line, k - 1, a, b);
      if HasRep(WorkAfter(env, rules, t, line, k - 1).reps, a, b) {
        ReplacedByRule(env, rules, t, line, k - 1, a, b);
      }
    }
  }

  // ----- in the output

  /** The output holds, in place of line[a..b], the placeholder p: what comes before it stands
      for line[..a], and with it for line[..b]. */
  ghost predicate HoleAt(ps: seq<Piece>, m: map<string, string>, line: string, a: nat, b: nat, p: string, x: nat) {
    x < |ps| && a <= b <= |line| && ps[x] == Hole(p) && Expand(ps[..x], m) == line[..a] && Expand(ps[..x + 1], m) == line[..b]
  }

  lemma {:induction false} ExpandAppend(a: seq<Piece>, b: seq<Piece>, m: map<string, string>)
    ensures Expand(a + b, m) == Expand(a, m) + Expand(b, m)
    decreases |a|
  {
    if a == [] {
      assert a + b == b;
    } else {
      assert (a + b)[1..] == a[1..] + b;
      ExpandAppend(a[1..], b, m);
    }
  }

  lemma ExpandPiece(ps: seq<Piece>, x: nat, m: map<string, string>)
    requires x < |ps|
    ensures Expand(ps[..x + 1], m) == Expand(ps[..x], m) + Expand([ps[x]], m)
  {
    hide Expand;
    assert ps[..x + 1] == ps[..x] + [ps[x]];
    ExpandAppend(ps[..x], [ps[x]], m);
  }

  /** Pieces that stand for the line from `pos` on show each replacement at its place. */
  lemma {:induction false} PiecesShow(line: string, t: Table, u: Table, s: seq<Rep>, pos: nat, r: Rep) returns (x: nat)
    requires InLine(line, t, s, pos) && Grows(t, u) && TableOk(u) && r in s
    ensures var ps, m := Pieces(line, s, pos), MappingOf(u);
            && r.start < r.end <= |line| && pos <= r.start && x < |ps| && ps[x] == Hole(r.text)
            && Expand(ps[..x], m) == line[pos..r.start] && Expand(ps[..x + 1], m) == line[pos..r.end]
    decreases |s|
  {
    hide TableOk, Grows, MappingOf, RepOk, Expand;
    var m := MappingOf(u);
    var f := s[0];
    RepRange(line, t, f);
    HoleExpands(line, t, u, f);
    var rest := Pieces(line, s[1..], f.end);
    var ps := Pieces(line, s, pos);
    var two := [Text(line[pos..f.start]), Hole(f.text)];
    assert ps == two + rest;
    ExpandOne(line[pos..f.start], f.text, m);
    assert line[pos..f.end] == line[pos..f.start] + line[f.start..f.end];
    if r == f {
      x := 1;
      assert ps[..1] == [Text(line[pos..f.start])] && ps[..2] == two;
    } else {
      assert r in s[1..];
      var y := PiecesShow(line, t, u, s[1..], f.end, r);
      x := y + 2;
      assert ps[..x] == two + rest[..y] && ps[..x + 1] == two + rest[..y + 1];
      ExpandAppend(two, rest[..y], m);
      ExpandAppend(two, rest[..y + 1], m);
      assert line[pos..r.start] == line[pos..f.end] + line[f.end..r.start];
      assert line[pos..r.end] == line[pos..f.end] + line[f.end..r.end];
    }
  }

  lemma ExpandOne(text: string, p: string, m: map<string, string>)
    requires p in m
    ensures Expand([Text(text)], m) == text && Expand([Text(text), Hole(p)], m) == text + m[p]
  {
    var two := [Text(text), Hole(p)];
    assert [Text(text)][1..] == [] && two[1..] == [Hole(p)] && [Hole(p)][1..] == [];
    assert Expand([], m) == "" && Expand([Hole(p)], m) == m[p] + "" == m[p];
    assert Expand([Text(text)], m) == text + "" == text;
  }

  /** Every hole is one of the replacements, at its place. */
  lemma {:induction false} HolesAreReps(line: string, t: Table, u: Table, s: seq<Rep>, pos: nat, x: nat) returns (r: Rep)
    requires InLine(line, t, s, pos) && Grows(t, u) && TableOk(u) && x < |Pieces(line, s, pos)| && Pieces(line, s, pos)[x].Hole?
    ensures var ps, m := Pieces(line, s, pos), MappingOf(u);
            && r in s && r.start < r.end <= |line| && pos <= r.start && ps[x] == Hole(r.text)
            && Expand(ps[..x], m) == line[pos..r.start] && Expand(ps[..x + 1], m) == line[pos..r.end]
    decreases |s|
  {
    hide TableOk, Grows, MappingOf, RepOk, Expand;
    var m := MappingOf(u);
    var f := s[0];
    RepRange(line, t, f);
    HoleExpands(line, t, u, f);
    var rest := Pieces(line, s[1..], f.end);
    var ps := Pieces(line, s, pos);
    var two := [Text(line[pos..f.start]), Hole(f.text)];
    assert ps == two + rest;
    ExpandOne(line[pos..f.start], f.text, m);
    assert line[pos..f.end] == line[pos..f.start] + line[f.start..f.end];
    if x < 2 {
      r := f;
      assert ps[..1] == [Text(line[pos..f.start])] && ps[..2] == two;
    } else {
      r := HolesAreReps(line, t, u, s[1..], f.end, x - 2);
      assert ps[..x] == two + rest[..x - 2] && ps[..x + 1] == two + rest[..x - 1];
      ExpandAppend(two, rest[..x - 2], m);
      ExpandAppend(two, rest[..x - 1], m);
      assert line[pos..r.start] == line[pos..f.end] + line[f.end..r.start];
      assert line[pos..r.end] == line[pos..f.end] + line[f.end..r.end];
    }
  }

  lemma LineSorted(env: Env, rules: seq<Rule>, t: Table, line: string)
    requires TableOk(t) && forall i :: 0 <= i < |rules| ==> RuleOk(rules[i])
    ensures var w := WorkAfter(env, rules, t, line, |rules|);
            && RedactLine(env, rules, t, line) == (w.table, Pieces(line, SortByStart(w.reps), 0))
            && TableOk(w.table) && InLine(line, w.table, SortByStart(w.reps), 0)
            && forall r :: r in SortByStart(w.reps) <==> r in w.reps
  {
    hide TableOk, RepOk, RuleOk, ApplyRules, SortByStart, InLine, Pieces;
    assert rules[..|rules|] == rules;
    ApplyRulesOk(env, rules, line, NoWork(t, line));
    SortInLine(line, WorkAfter(env, rules, t, line, |rules|).table, WorkAfter(env, rules, t, line, |rules|).reps);
  }

  /** No secret match survives: whatever a rule of any priority matches in what earlier rules
      left of the line, and is neither kept nor, for an address rule, no address, stands in
      the output as the placeholder of its value in the rule's category, at its place. */
  lemma SecretsReplaced(env: Env, rules: seq<Rule>, t: Table, line: string, k: nat, a: nat, b: nat) returns (x: nat)
    requires TableOk(t) && k < |rules| && forall i :: 0 <= i < |rules| ==> RuleOk(rules[i])
    requires Due(env, rules[k], line, WorkAfter(env, rules, t, line, k).reps, a, b)
    ensures var r := RedactLine(env, rules, t, line);
            && TableOk(r.0) && a < b <= |line| && Has(r.0, rules[k].category, line[a..b])
            && HoleAt(r.1, MappingOf(r.0), line, a, b, r.0[rules[k].category][line[a..b]], x)
  {
    hide TableOk, MappingOf, RuleOk, Due, RedactLine, InLine, Pieces, SortByStart, ApplyRules, WorkAfter, Expand, HasRep, Grows;
    RuleReplacesExactly(env, rules, t, line, k, a, b);
    ReplacedStays(env, rules, t, line, k + 1, |rules|, rules[k].category, a, b);
    LineSorted(env, rules, t, line);
    var w := WorkAfter(env, rules, t, line, |rules|);
    GrowsSelf(w.table);
    x := PiecesShow(line, w.table, w.table, SortByStart(w.reps), 0, Rep(a, b, w.table[rules[k].category][line[a..b]]));
    assert line[0..a] == line[..a] && line[0..b] == line[..b];
  }

  lemma GrowsSelf(t: Table)
    ensures Grows(t, t)
  {
  }

  /** And nothing else is replaced: every placeholder in the output stands for a match that
      was due to some rule. */
  lemma OnlySecretsReplaced(env: Env, rules: seq<Rule>, t: Table, line: string, x: nat) returns (k: nat, a: nat, b: nat)
    requires TableOk(t) && forall i :: 0 <= i < |rules| ==> RuleOk(rules[i])
    requires x < |RedactLine(env, rules, t, line).1| && RedactLine(env, rules, t, line).1[x].Hole?
    ensures k < |rules| && Due(env, rules[k], line, WorkAfter(env, rules, t, line, k).reps, a, b)
    ensures var r := RedactLine(env, rules, t, line);
            TableOk(r.0) && HoleAt(r.1, MappingOf(r.0), line, a, b, r.1[x].placeholder, x)
  {
    hide TableOk, MappingOf, RuleOk, Due, RedactLine, InLine, Pieces, SortByStart, ApplyRules, WorkAfter, Expand, Grows;
    LineSorted(env, rules, t, line);
    var w := WorkAfter(env, rules, t, line, |rules|);
    GrowsSelf(w.table);
    var r := HolesAreReps(line, w.table, w.table, SortByStart(w.reps), 0, x);
    a, b := r.start, r.end;
    assert r in w.reps;
    assert HasRep(w.reps, a, b);
    ReplacedByRule(env, rules, t, line, |rules|, a, b);
    k :| k < |rules| && Due(env, rules[k], line, WorkAfter(env, rules, t, line, k).reps, a, b);
    assert line[0..a] == line[..a] && line[0..b] == line[..b];
  }

  /** The first rule sees the whole line. */
  lemma FirstRuleReplaces(env: Env, rules: seq<Rule>, t: Table, line: string, i: nat, a: nat, b: nat) returns (x: nat)
    requires TableOk(t) && rules != [] && forall i :: 0 <= i < |rules| ==> RuleOk(rules[i])
    requires i < |rules[0].find(line)| && rules[0].find(line)[i] == Span(a, b) && a < b <= |line| && Secret(env, rules[0], line[a..b])
    ensures var r := RedactLine(env, rules, t, line);
            && TableOk(r.0) && Has(r.0, rules[0].category, line[a..b])
            && HoleAt(r.1, MappingOf(r.0), line, a, b, r.0[rules[0].category][line[a..b]], x)
  {
    hide TableOk, MappingOf, RuleOk, RedactLine, HoleAt;
    assert WorkAfter(env, rules, t, line, 0).reps == [];
    assert line[0..|line|] == line;
    assert Stretch(line, [], 0, |line|) && Match(env, rules[0], line, 0, |line|, i, a, b);
    x := SecretsReplaced(env, rules, t, line, 0, a, b);
  }

  // ----- key blocks

  /** Line j is the first end marker from line i on, at most 64 lines behind it; or there is
      none, and j is i. */
  predicate BlockEnds(env: Env, lines: seq<string>, i: nat, j: nat) {
    i <= j < |lines| &&
    ((j <= i + 64 && env.keyEnd(lines[j]) && forall k :: i <= k < j ==> !env.keyEnd(lines[k])) ||
     (j == i && forall k :: i <= k < |lines| && k <= i + 64 ==> !env.keyEnd(lines[k])))
  }

  lemma {:induction false} KeyEndExact(env: Env, lines: seq<string>, i: nat, from: nat, j: nat)
    requires i <= from && i < |lines| && BlockEnds(env, lines, i, j)
    requires forall k :: i <= k < from && k < |lines| ==> !env.keyEnd(lines[k])
    ensures KeyEndFrom(env, lines, i, from) == j
    decreases |lines| - from
  {
    if from < |lines| && from <= i + 64 && !env.keyEnd(lines[from]) {
      KeyEndExact(env, lines, i, from + 1, j);
    }
  }

  /** A key block that is neither switched off nor kept becomes one placeholder for all its
      lines: from the begin marker to the first end marker within 64 lines, or the begin
      line alone. */
  lemma KeyBlockCollapses(env: Env, rules: seq<Rule>, t: Table, lines: seq<string>, i: nat, j: nat)
    requires TableOk(t) && BlockEnds(env, lines, i, j)
    requires "key" !in env.off && env.keyBegin(lines[i]) && Join(lines[i..j + 1]) !in env.keep
    ensures var r := TurnAt(env, rules, t, lines, i);
            && r.end == j && Has(r.table, "key", Join(lines[i..j + 1]))
            && r.pieces == [Hole(r.table["key"][Join(lines[i..j + 1])])]
  {
    hide TableOk, Join;
    KeyEndExact(env, lines, i, i, j);
    AssignOk(t, "key", Join(lines[i..j + 1]));
  }

  /** Every other line is redacted by the rules, alone. */
  lemma OtherLinesByRules(env: Env, rules: seq<Rule>, t: Table, lines: seq<string>, i: nat, j: nat)
    requires BlockEnds(env, lines, i, j)
    requires "key" in env.off || !env.keyBegin(lines[i]) || Join(lines[i..j + 1]) in env.keep
    ensures var r := TurnAt(env, rules, t, lines, i);
            r.end == i && (r.table, r.pieces) == RedactLine(env, rules, t, lines[i])
  {
    hide Join, RedactLine;
    KeyEndExact(env, lines, i, i, j);
  }

  /** A redaction is one turn after the other, each beginning behind the last line of the one
      before with the table it left. */
  lemma TurnsFollow(env: Env, rules: seq<Rule>, t: Table, lines: seq<string>, i: nat)
    ensures var r := RedactFrom(env, rules, t, lines, i);
            if i >= |lines| then r == Redacted(t, [], 0)
            else
              var turn := TurnAt(env, rules, t, lines, i);
              var rest := RedactFrom(env, rules, turn.table, lines, turn.end + 1);
              r.table == rest.table && r.out == [turn.pieces] + rest.out && r.collapsed == turn.end - i + rest.collapsed
  {
    hide TurnAt;
  }

  /** There is always exactly one end to a block. */
  lemma BlockEndsOnce(env: Env, lines: seq<string>, i: nat)
    requires i < |lines|
    ensures BlockEnds(env, lines, i, KeyEnd(env, lines, i))
    ensures forall j: nat :: BlockEnds(env, lines, i, j) ==> j == KeyEnd(env, lines, i)
  {
    KeyEndIsEnd(env, lines, i, i);
    forall j: nat | BlockEnds(env, lines, i, j)
      ensures j == KeyEnd(env, lines, i)
    {
      KeyEndExact(env, lines, i, i, j);
    }
  }

  lemma {:induction false} KeyEndIsEnd(env: Env, lines: seq<string>, i: nat, from: nat)
    requires i <= from && i < |lines| && forall k :: i <= k < from && k < |lines| ==> !env.keyEnd(lines[k])
    ensures BlockEnds(env, lines, i, KeyEndFrom(env, lines, i, from))
    decreases |lines| - from
  {
    if from < |lines| && from <= i + 64 && !env.keyEnd(lines[from]) {
      KeyEndIsEnd(env, lines, i, from + 1);
    }
  }

  /** The output is written piece by piece, text as it is and placeholders as they are. */
  lemma {:induction false} RenderAppend(a: seq<Piece>, b: seq<Piece>)
    ensures Render(a + b) == Render(a) + Render(b)
    ensures forall s: string :: Render([Text(s)]) == s && Render([Hole(s)]) == s
    decreases |a|
  {
    forall s: string
      ensures Render([Text(s)]) == s && Render([Hole(s)]) == s
    {
      assert [Text(s)][1..] == [] && [Hole(s)][1..] == [] && Render([]) == "";
    }
    if a == [] {
      assert a + b == b;
    } else {
      assert (a + b)[1..] == a[1..] + b;
      RenderAppend(a[1..], b);
    }
  }

  /** Lines are joined by newlines. */
  lemma {:induction false} JoinAppend(xs: seq<string>, ys: seq<string>)
    requires xs != [] && ys != []
    ensures Join(xs + ys) == Join(xs) + "\n" + Join(ys)
    ensures forall x: string :: Join([x]) == x
    decreases |xs|
  {
    if |xs| == 1 {
      assert (xs + ys)[1..] == ys;
    } else {
      assert (xs + ys)[1..] == xs[1..] + ys;
      JoinAppend(xs[1..], ys);
    }
  }
}

/** The redaction engine and the saved mapping, updated in place. */
module RedactEngine {
  import opened Base
  import opened Redaction

  predicate HasHole(ps: seq<Piece>) {
    exists i :: 0 <= i < |ps| && ps[i].Hole?
  }

  function CountHoles(out: seq<seq<Piece>>): nat {
    if out == [] then 0 else (if HasHole(out[0]) then 1 else 0) + CountHoles(out[1..])
  }

  function RenderAll(out: seq<seq<Piece>>): (r: seq<string>)
    ensures |r| == |out|
  {
    seq(|out|, i requires 0 <= i < |out| => Render(out[i]))
  }

  datatype Result = Result(lines: seq<string>, linesRedacted: nat, linesCollapsed: nat)

  class Engine {
    const rules: seq<Rule>
    const env: Env
    var values: Table

    ghost predicate Valid()
      reads this
    {
      TableOk(values) && forall i :: 0 <= i < |rules| ==> RuleOk(rules[i])
    }

    constructor (rules: seq<Rule>, env: Env)
      requires forall i :: 0 <= i < |rules| ==> RuleOk(rules[i])
      ensures Valid() && values == map[] && this.rules == rules && this.env == env
    {
      this.rules, this.env, values := rules, env, map[];
    }

    method Placeholder(category: string, value: string) returns (p: string)
      modifies this`values
      ensures (values, p) == Assign(old(values), category, value)
    {
      if category !in values {
        values := values[category := map[]];
      }
      if value in values[category] {
        return values[category][value];
      }
      p := Name(category, |values[category]| + 1);
      values := values[category := values[category][value := p]];
      assert values == old(values)[category := Inner(old(values), category)[value := p]];
    }

    /** Pairs come in no particular order, as map iteration does. */
    method Mapping() returns (m: map<string, string>)
      requires TableOk(values)
      ensures m == MappingOf(values)
    {
      hide TableOk, PartialMapping;
      m := map[];
      var todo := Pairs(values);
      ghost var done: set<(string, string)> := {};
      NoMapping(values);
      while todo != {}
        invariant done <= Pairs(values) && todo == Pairs(values) - done
        invariant m == PartialMapping(values, done)
        decreases |todo|
      {
        var q :| q in todo;
        PartialMappingAdd(values, done, q);
        m := m[values[q.0][q.1] := q.1];
        todo := todo - {q};
        done := done + {q};
      }
      assert done == Pairs(values);
    }

    /** One match: skipped, or replaced and its positions marked taken. */
    method Replace(rule: Rule, line: string, start: nat, s: Span, taken: array<bool>, reps: seq<Rep>) returns (reps': seq<Rep>)
      requires taken.Length == |line|
      modifies this`values, taken
      ensures Work(values, taken[..], reps') == ApplySpan(env, rule, line, start, s, Work(old(values), old(taken[..]), reps))
    {
      reps' := reps;
      if Wanted(env, rule, line, start, s) {
        var a, b := start + s.a, start + s.b;
        var p := Placeholder(rule.category, line[a..b]);
        reps' := reps + [Rep(a, b, p)];
        for j := a to b
          modifies taken
          invariant forall k :: 0 <= k < taken.Length ==> taken[k] == (a <= k < j || old(taken[k]))
        {
          taken[j] := true;
        }
        assert taken[..] == Mark(old(taken[..]), a, b);
      }
    }

    method ReplaceAll(rule: Rule, line: string, start: nat, spans: seq<Span>, taken: array<bool>, reps: seq<Rep>) returns (reps': seq<Rep>)
      requires taken.Length == |line|
      modifies this`values, taken
      ensures Work(values, taken[..], reps') == ApplySpans(env, rule, line, start, spans, Work(old(values), old(taken[..]), reps))
    {
      reps' := reps;
      for i := 0 to |spans|
        invariant Work(values, taken[..], reps') == ApplySpans(env, rule, line, start, spans[..i], Work(old(values), old(taken[..]), reps))
      {
        assert spans[..i + 1][..i] == spans[..i];
        reps' := Replace(rule, line, start, spans[i], taken, reps');
      }
      assert spans[..|spans|] == spans;
    }

    /** One rule over the untaken stretches of the line. */
    method RunRule(rule: Rule, line: string, taken: array<bool>, reps: seq<Rep>) returns (reps': seq<Rep>)
      requires taken.Length == |line|
      modifies this`values, taken
      ensures Work(values, taken[..], reps') == ApplyRule(env, rule, line, 0, Work(old(values), old(taken[..]), reps))
    {
      reps' := reps;
      var start := 0;
      ghost var goal := ApplyRule(env, rule, line, 0, Work(values, taken[..], reps));
      while start < |line|
        invariant start <= |line|
        invariant goal == ApplyRule(env, rule, line, start, Work(values, taken[..], reps'))
      {
        if taken[start] {
          start := start + 1;
        } else {
          var end := start;
          while end < |line| && !taken[end]
            invariant start <= end <= |line|
            invariant RunEnd(taken[..], start) == RunEnd(taken[..], end)
          {
            end := end + 1;
          }
          reps' := ReplaceAll(rule, line, start, rule.find(line[start..end]), taken, reps');
          start := end;
        }
      }
    }

    /** Writes the line with its replacements, in order of their position. */
    method Write(line: string, sorted: seq<Rep>, ghost t: Table) returns (out: string)
      requires InLine(line, t, sorted, 0)
      ensures out == Render(Pieces(line, sorted, 0))
    {
      out := "";
      var pos: nat := 0;
      for i := 0 to |sorted|
        invariant InLine(line, t, sorted[i..], pos)
        invariant Render(Pieces(line, sorted, 0)) == out + Render(Pieces(line, sorted[i..], pos))
      {
        var r := sorted[i];
        assert sorted[i..][0] == r && sorted[i..][1..] == sorted[i + 1..];
        RepRange(line, t, r);
        RenderTwo(line[pos..r.start], r.text, Pieces(line, sorted[i + 1..], r.end));
        out := out + line[pos..r.start] + r.text;
        pos := r.end;
      }
      assert sorted[|sorted|..] == [];
      assert [Text(line[pos..])][1..] == [];
      assert Render([Text(line[pos..])]) == line[pos..] + Render([]);
      out := out + line[pos..];
    }

    /** A line outside a key block. */
    method RedactOne(line: string) returns (out: string, changed: bool)
      requires Valid()
      modifies this`values
      ensures Valid() && Grows(old(values), values)
      ensures var r := RedactLine(env, rules, old(values), line);
              values == r.0 && out == Render(r.1) && changed == HasHole(r.1)
    {
      ghost var w0 := Work(values, seq(|line|, _ => false), []);
      var taken := new bool[|line|](_ => false);
      var reps: seq<Rep> := [];
      for i := 0 to |rules|
        invariant fresh(taken) && taken.Length == |line|
        invariant Work(values, taken[..], reps) == ApplyRules(env, rules[..i], line, w0)
      {
        assert rules[..i + 1][..i] == rules[..i];
        reps := RunRule(rules[i], line, taken, reps);
      }
      assert rules[..|rules|] == rules;
      ApplyRulesOk(env, rules, line, w0);
      SortInLine(line, values, reps);
      var sorted := SortByStart(reps);
      out := Write(line, sorted, values);
      changed := reps != [];
      HoleIffReplaced(line, values, reps);
    }

    method FindKeyEnd(lines: seq<string>, i: nat) returns (end: nat)
      requires i < |lines|
      ensures end == KeyEnd(env, lines, i)
    {
      end := i;
      var j := i;
      while j < |lines| && j <= i + 64
        invariant i <= j && KeyEnd(env, lines, i) == KeyEndFrom(env, lines, i, j)
      {
        if env.keyEnd(lines[j]) {
          return j;
        }
        j := j + 1;
      }
    }

    /** One turn: a key block that is not kept, or a line. */
    method Next(lines: seq<string>, i: nat) returns (line: string, changed: bool, end: nat)
      requires Valid() && i < |lines|
      modifies this`values
      ensures Valid() && Grows(old(values), values)
      ensures var turn := TurnAt(env, rules, old(values), lines, i);
              values == turn.table && line == Render(turn.pieces) && changed == HasHole(turn.pieces) && end == turn.end
    {
      hide RedactLine, Render, HasHole, TableOk, Assign, Grows, RuleOk;
      line, end := lines[i], i;
      if "key" !in env.off && env.keyBegin(line) {
        end := FindKeyEnd(lines, i);
        var value := Join(lines[i..end + 1]);
        if value !in env.keep {
          AssignOk(values, "key", value);
          line := Placeholder("key", value);
          RenderHole(line);
          return line, true, end;
        }
        end := i;
      }
      line, changed := RedactOne(line);
    }

    method Redact(lines: seq<string>) returns (r: Result)
      requires Valid()
      modifies this`values
      ensures Valid() && Grows(old(values), values)
      ensures var spec := RedactFrom(env, rules, old(values), lines, 0);
              && values == spec.table && r.lines == RenderAll(spec.out)
              && r.linesRedacted == CountHoles(spec.out) && r.linesCollapsed == spec.collapsed
    {
      hide TurnAt, Render, RenderAll, HasHole, CountHoles, RedactFrom, Progress, TableOk, RuleOk, Grows;
      var out: seq<string> := [];
      var redacted, collapsed: nat, i: nat := 0, 0, 0;
      ghost var spec := RedactFrom(env, rules, values, lines, 0);
      ghost var done: seq<seq<Piece>> := [];
      GrowsSame(values);
      ProgressStart(spec);
      while i < |lines|
        invariant i <= |lines| && Valid() && Grows(old(values), values)
        invariant out == RenderAll(done) && redacted == CountHoles(done)
        invariant Progress(spec, done, collapsed, RedactFrom(env, rules, values, lines, i))
      {
        ghost var before := values;
        ghost var ps := TurnAt(env, rules, values, lines, i).pieces;
        ProgressStep(env, rules, values, lines, i, spec, done, collapsed);
        var line, changed, end := Next(lines, i);
        GrowsTransitive(old(values), before, values);
        RenderSnoc(done, ps);
        out := out + [line];
        if changed {
          redacted := redacted + 1;
        }
        collapsed := collapsed + (end - i);
        i := end + 1;
        done := done + [ps];
      }
      ProgressEnd(env, rules, values, lines, spec, done, collapsed);
      return Result(out, redacted, collapsed);
    }
  }

  /** What is done, followed by the rest, is the whole. */
  ghost predicate Progress(spec: Redacted, done: seq<seq<Piece>>, collapsed: nat, rest: Redacted) {
    spec == Redacted(rest.table, done + rest.out, collapsed + rest.collapsed)
  }

  lemma ProgressStart(spec: Redacted)
    ensures Progress(spec, [], 0, spec) && RenderAll([]) == [] && CountHoles([]) == 0
  {
  }

  lemma ProgressStep(env: Env, rules: seq<Rule>, t: Table, lines: seq<string>, i: nat, spec: Redacted, done: seq<seq<Piece>>, collapsed: nat)
    requires i < |lines| && Progress(spec, done, collapsed, RedactFrom(env, rules, t, lines, i))
    ensures var turn := TurnAt(env, rules, t, lines, i);
            Progress(spec, done + [turn.pieces], collapsed + (turn.end - i), RedactFrom(env, rules, turn.table, lines, turn.end + 1))
  {
    hide TurnAt;
    var turn := TurnAt(env, rules, t, lines, i);
    var rest := RedactFrom(env, rules, turn.table, lines, turn.end + 1).out;
    assert done + ([turn.pieces] + rest) == (done + [turn.pieces]) + rest;
  }

  lemma ProgressEnd(env: Env, rules: seq<Rule>, t: Table, lines: seq<string>, spec: Redacted, done: seq<seq<Piece>>, collapsed: nat)
    requires Progress(spec, done, collapsed, RedactFrom(env, rules, t, lines, |lines|))
    ensures spec == Redacted(t, done, collapsed)
  {
    assert done + [] == done;
  }

  lemma GrowsSame(t: Table)
    ensures Grows(t, t)
  {
  }

  lemma NoMapping(t: Table)
    requires TableOk(t)
    ensures PartialMapping(t, {}) == map[]
  {
  }

  lemma RenderHole(p: string)
    ensures Render([Hole(p)]) == p && HasHole([Hole(p)])
  {
    assert [Hole(p)][1..] == [] && [Hole(p)][0].Hole?;
    assert Render([]) == "" && p + "" == p;
  }

  lemma RenderTwo(text: string, p: string, rest: seq<Piece>)
    ensures Render([Text(text), Hole(p)] + rest) == text + (p + Render(rest))
  {
    var ps := [Text(text), Hole(p)] + rest;
    assert ps[1..] == [Hole(p)] + rest && ps[1..][1..] == rest;
  }

  lemma {:induction false} CountHolesSnoc(done: seq<seq<Piece>>, ps: seq<Piece>)
    ensures CountHoles(done + [ps]) == CountHoles(done) + (if HasHole(ps) then 1 else 0)
    decreases |done|
  {
    if done == [] {
      assert done + [ps] == [ps] && [ps][1..] == [];
    } else {
      assert (done + [ps])[1..] == done[1..] + [ps];
      CountHolesSnoc(done[1..], ps);
    }
  }

  lemma RenderSnoc(done: seq<seq<Piece>>, ps: seq<Piece>)
    ensures RenderAll(done + [ps]) == RenderAll(done) + [Render(ps)]
    ensures CountHoles(done + [ps]) == CountHoles(done) + (if HasHole(ps) then 1 else 0)
  {
    CountHolesSnoc(done, ps);
  }

  lemma HoleIffReplaced(line: string, t: Table, reps: seq<Rep>)
    requires InLine(line, t, SortByStart(reps), 0)
    requires forall x :: x in SortByStart(reps) <==> x in reps
    ensures HasHole(Pieces(line, SortByStart(reps), 0)) <==> reps != []
  {
    var s := SortByStart(reps);
    if reps != [] {
      assert reps[0] in s;
      RepRange(line, t, s[0]);
      assert Pieces(line, s, 0)[1] == Hole(s[0].text);
    }
  }

  // ----- the saved mapping

  /** The collector's copy of the mapping on disk, written only when its size changed. */
  class Audit {
    var mappingSize: int
    var saved: map<string, string>

    /** Nothing saved yet, or what was saved is the mapping of an earlier table. */
    ghost predicate Follows(t: Table)
      reads this
      requires TableOk(t)
    {
      mappingSize == -1 ||
      exists earlier :: TableOk(earlier) && Grows(earlier, t) && saved == MappingOf(earlier) && mappingSize == |saved|
    }

    constructor ()
      ensures mappingSize == -1
    {
      mappingSize, saved := -1, map[];
    }

    /** audit.mapping: `ok` is whether the write succeeds, if there is one. When it returns
        without an error the saved mapping is the engine's, although only sizes were
        compared. */
    method SaveMapping(values: map<string, string>, ok: bool, ghost t: Table) returns (saved': bool)
      requires TableOk(t) && values == MappingOf(t) && Follows(t)
      modifies this
      ensures saved' ==> saved == MappingOf(t) && mappingSize == |saved|
      ensures !saved' ==> saved == old(saved) && mappingSize == old(mappingSize)
      ensures Follows(t)
      ensures saved' <==> ok || |values| == old(mappingSize)
    {
      if |values| == mappingSize {
        ghost var earlier :| TableOk(earlier) && Grows(earlier, t) && saved == MappingOf(earlier) && mappingSize == |saved|;
        SameSizeSameMapping(earlier, t);
        return true;
      }
      if !ok {
        return false;
      }
      saved, mappingSize := values, |values|;
      assert TableOk(t) && Grows(t, t);
      return true;
    }
  }

  /** A later table never loses what an earlier one had. */
  lemma FollowsGrows(a: Audit, t: Table, u: Table)
    requires TableOk(t) && TableOk(u) && Grows(t, u) && a.Follows(t)
    ensures a.Follows(u)
  {
    if a.mappingSize != -1 {
      var earlier :| TableOk(earlier) && Grows(earlier, t) && a.saved == MappingOf(earlier) && a.mappingSize == |a.saved|;
      GrowsTransitive(earlier, t, u);
    }
  }

  /** The table only grows, so mappings of the same size are the same mapping. */
  lemma SameSizeSameMapping(t: Table, u: Table)
    requires TableOk(t) && TableOk(u) && Grows(t, u) && |MappingOf(t)| == |MappingOf(u)|
    ensures MappingOf(t) == MappingOf(u)
  {
    hide TableOk, MappingOf;
    var m, n := MappingOf(t), MappingOf(u);
    forall p | p in m ensures p in n && n[p] == m[p] {
      MappingExact(t, p, m[p]);
      MappingExact(u, p, m[p]);
    }
    assert m.Keys <= n.Keys && |m.Keys| == |n.Keys|;
    SubsetSameSize(m.Keys, n.Keys);
  }

  lemma SubsetSameSize(a: set<string>, b: set<string>)
    requires a <= b && |a| == |b|
    ensures a == b
  {
    assert b == a + (b - a) && |b| == |a| + |b - a|;
  }
}

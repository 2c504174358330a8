/** The collector's live session: it opens envelopes, prepares and approves jobs, widens the
    scope, runs what was approved and posts one result per job. Every method is proved to
    show only events the monitor of ServeRuns allows, whatever the operator, the file
    system, the relay and the local disk do. */
module Serve {
  import opened Base
  import opened ServeScope
  import opened ServeRuns
  import P = Protocol
  import R = Redaction
  import E = RedactEngine
  import Envelopes

  const MAX_RESULT_TEXT := 0x4_0000

  datatype Key = KeyA | KeyO | KeyD | KeyV | KeyS | OtherKey

  function KeyOf(v: Verdict): Key {
    match v
    case Approve => KeyA
    case Once => KeyO
    case Deny => KeyD
  }

  /** A key that ends the approval screen. */
  predicate Answers(ws: seq<Widening>, key: Key) { key == KeyA || key == KeyD || (key == KeyO && OnceOffered(ws)) }

  /** Reading from `was` to `now` skips keys that are not choices, up to the first that is one
      or to the end of the input. */
  ghost predicate FirstChoice(choices: set<Key>, was: seq<Key>, now: seq<Key>, key: Option<Key>) {
    && |now| <= |was| && now == was[|was| - |now|..]
    && (key.None? ==> now == [])
    && (forall k :: 0 <= k < |was| - |now| - (if key.Some? then 1 else 0) ==> was[k] !in choices)
    && (key.Some? ==> key.value in choices && |now| < |was| && was[|was| - |now| - 1] == key.value)
  }

  /** The input has come down to `now`, and no key read so far answers the screen. */
  ghost predicate StillAsked(ws: seq<Widening>, keys: seq<Key>, now: seq<Key>) {
    && |now| <= |keys| && now == keys[|keys| - |now|..]
    && forall k :: 0 <= k < |keys| - |now| ==> !Answers(ws, keys[k])
  }

  /** The last key read is the verdict's, and no key read before it answers the screen. */
  ghost predicate Answered(ws: seq<Widening>, keys: seq<Key>, now: seq<Key>, v: Verdict) {
    && |now| < |keys| && now == keys[|keys| - |now|..] && keys[|keys| - |now| - 1] == KeyOf(v)
    && forall k :: 0 <= k < |keys| - |now| - 1 ==> !Answers(ws, keys[k])
  }

  lemma NothingRead(ws: seq<Widening>, keys: seq<Key>)
    ensures StillAsked(ws, keys, keys)
  {
  }

  /** One more choice after an unanswered stretch: it answers, or the screen stays unanswered. */
  lemma NextChoice(ws: seq<Widening>, keys: seq<Key>, was: seq<Key>, now: seq<Key>, choices: set<Key>, key: Key)
    requires StillAsked(ws, keys, was) && FirstChoice(choices, was, now, Some(key))
    requires forall k :: Answers(ws, k) ==> k in choices
    ensures |now| < |was| && key in choices
    ensures forall v :: KeyOf(v) == key ==> Answered(ws, keys, now, v)
    ensures !Answers(ws, key) ==> StillAsked(ws, keys, now)
  {
    var d := |keys| - |was|;
    assert now == keys[|keys| - |now|..];
    forall k | 0 <= k < |keys| - |now| ensures if k < |keys| - |now| - 1 then !Answers(ws, keys[k]) else keys[k] == key {
      if k >= d { assert was[k - d] == keys[k]; }
    }
  }

  /** How running a job turned out, its lines, and whether they hold strings to inspect. */
  datatype Outcome = Outcome(ok: bool, lines: seq<string>, flagged: bool)

  /** A job after preparation: clear to run, faulty, or waiting for a wider scope. */
  datatype Row = Clear(paths: seq<Path>) | Faulty | Pending

  /** The JSON form of results and jobs, and the ciphertext the cipher yields for a number
      and a plaintext. */
  datatype Codec = Codec(encode: Result -> Bytes, decode: Bytes -> Incoming, seal: (nat, Bytes) -> Bytes)

  ghost predicate CodecOk(c: Codec) {
    && (forall r :: c.encode(r) != [])
    && forall n, p :: |c.seal(n, p)| == |p| + Envelopes.TAG_BYTES
  }

  predicate FitsEnvelope(data: Bytes) { |data| <= Envelopes.MAX_RESULT_BYTES - Envelopes.TAG_BYTES }

  /** A chat join promotes level 0 to level 1; nothing else changes the level. */
  function JoinLevel(level: nat, via: string): nat {
    if via == "chat" && level == 0 then 1 else level
  }

  /** A session joined through a chat never runs at level 0, where nobody is asked. */
  lemma ChatIsAsked(level: nat, via: string)
    ensures JoinLevel(level, via) == 0 <==> level == 0 && via != "chat"
    ensures level <= 1 ==> JoinLevel(level, via) <= 1
  {
  }

  // ----- the size of a result

  function TextSize(lines: seq<string>): nat {
    if lines == [] then 0 else TextSize(lines[..|lines| - 1]) + |lines[|lines| - 1]| + 1
  }

  lemma {:induction false} TextSizeGrows(lines: seq<string>, j: nat, k: nat)
    requires j <= k <= |lines|
    ensures TextSize(lines[..j]) <= TextSize(lines[..k])
    decreases k
  {
    if j < k {
      assert lines[..k][..k - 1] == lines[..k - 1];
      TextSizeGrows(lines, j, k - 1);
    }
  }

  /** A result cut to n lines is small enough in both respects. */
  predicate Small(c: Codec, r: Result, n: nat)
    requires n <= |r.lines|
  {
    TextSize(r.lines[..n]) <= MAX_RESULT_TEXT && FitsEnvelope(c.encode(r.(lines := r.lines[..n])))
  }

  /** capResult keeps as many lines as are small enough, from the front; a result without
      lines is left as it is. */
  method CapResult(c: Codec, r: Result) returns (n: nat)
    ensures n <= |r.lines| && (n > 0 ==> Small(c, r, n))
    ensures forall k :: n < k <= |r.lines| ==> !Small(c, r, k)
  {
    var size := 0;
    n := |r.lines|;
    for i := 0 to |r.lines|
      invariant size == TextSize(r.lines[..i]) <= MAX_RESULT_TEXT && n == |r.lines|
    {
      assert r.lines[..i + 1][..i] == r.lines[..i];
      size := size + |r.lines[i]| + 1;
      if size > MAX_RESULT_TEXT {
        n := i;
        break;
      }
    }
    ghost var cut := n;
    forall k | cut < k <= |r.lines|
      ensures TextSize(r.lines[..k]) > MAX_RESULT_TEXT
    {
      TextSizeGrows(r.lines, cut + 1, k);
    }
    while n > 0 && !FitsEnvelope(c.encode(r.(lines := r.lines[..n])))
      invariant n <= cut && forall k :: n < k <= |r.lines| ==> !Small(c, r, k)
      decreases n
    {
      n := n - 1;
    }
    TextSizeGrows(r.lines, n, cut);
  }

  // ----- granting

  /** The paths of a grant that are not there yet, each once. */
  function NotYet(target: seq<Path>, grant: seq<Path>): seq<Path> {
    if grant == [] then []
    else
      var extra := NotYet(target, grant[..|grant| - 1]);
      var p := grant[|grant| - 1];
      if p in target || p in extra then extra else extra + [p]
  }

  function GrantOf(w: Widening, once: bool): seq<Path> { if once then w.paths else w.dirs }

  /** A list after the grants of all widenings. */
  function Extended(target: seq<Path>, ws: seq<Widening>, once: bool): seq<Path> {
    if ws == [] then target
    else
      var t := Extended(target, ws[..|ws| - 1], once);
      t + NotYet(t, GrantOf(ws[|ws| - 1], once))
  }

  lemma {:induction false} NotYetExact(target: seq<Path>, grant: seq<Path>)
    ensures forall p :: p in NotYet(target, grant) <==> p in grant && p !in target
    ensures Distinct(NotYet(target, grant))
  {
    if grant != [] {
      NotYetExact(target, grant[..|grant| - 1]);
      assert grant == grant[..|grant| - 1] + [grant[|grant| - 1]];
    }
  }

  lemma AppendDistinct<T>(a: seq<T>, b: seq<T>)
    requires Distinct(a) && Distinct(b) && forall x :: x in b ==> x !in a
    ensures Distinct(a + b)
  {
    var c := a + b;
    forall i, j | 0 <= i < j < |c|
      ensures c[i] != c[j]
    {
      if i < |a| <= j {
        assert c[i] in a && c[j] in b;
      }
    }
  }

  ghost predicate Granted(ws: seq<Widening>, once: bool, p: Path) {
    exists i :: 0 <= i < |ws| && p in GrantOf(ws[i], once)
  }

  lemma GrantedStep(ws: seq<Widening>, once: bool, p: Path)
    requires ws != []
    ensures Granted(ws, once, p) <==> Granted(ws[..|ws| - 1], once, p) || p in GrantOf(ws[|ws| - 1], once)
  {
    hide GrantOf;
    var n := |ws| - 1;
    assert forall i :: 0 <= i < n ==> ws[..n][i] == ws[i];
  }

  /** Widening keeps the list, adds everything offered, nothing else, and nothing twice. */
  lemma {:induction false} ExtendedExact(target: seq<Path>, ws: seq<Widening>, once: bool)
    ensures target <= Extended(target, ws, once)
    ensures forall p :: p in Extended(target, ws, once) <==> p in target || Granted(ws, once, p)
    ensures Distinct(target) ==> Distinct(Extended(target, ws, once))
  {
    hide Granted, NotYet, GrantOf, Distinct;
    if ws == [] {
      NoneGranted(once);
    } else {
      var n := |ws| - 1;
      ExtendedExact(target, ws[..n], once);
      var t := Extended(target, ws[..n], once);
      var extra := NotYet(t, GrantOf(ws[n], once));
      NotYetExact(t, GrantOf(ws[n], once));
      if Distinct(target) {
        AppendDistinct(t, extra);
      }
      forall p
        ensures p in t + extra <==> p in target || Granted(ws, once, p)
      {
        GrantedStep(ws, once, p);
      }
    }
  }

  lemma NoneGranted(once: bool)
    ensures forall p :: !Granted([], once, p)
  {
  }

  lemma NotYetOffered(ws: seq<Widening>, k: nat, target: seq<Path>, once: bool)
    requires k < |ws|
    ensures var extra := NotYet(target, GrantOf(ws[k], once));
            if once then AllNamesOffered(ws, extra) else AllDirsOffered(ws, extra)
  {
    NotYetExact(target, GrantOf(ws[k], once));
    var extra := NotYet(target, GrantOf(ws[k], once));
    assert forall i :: 0 <= i < |extra| ==> extra[i] in extra;
  }

  // ----- rows

  /** Rows that may run were prepared so, and there is a reason for those that may not. */
  ghost predicate RowsCleared(s: Setup, span: Window, first: Files, granted: bool, jobs: seq<Job>, kind: int, files: Files, rows: seq<Row>) {
    |rows| == |jobs| && forall i :: 0 <= i < |rows| ==> RowOk(s, span, first, granted, jobs[i], kind, files, rows[i])
  }

  ghost predicate RowOk(s: Setup, span: Window, first: Files, granted: bool, job: Job, kind: int, files: Files, row: Row) {
    match row
    case Clear(paths) => Validated(s, span, first, granted, files, job, kind, paths)
    case Faulty => Refusable(s, span, first, granted, files, job, kind)
    case Pending => true
  }

  /** The job that a widening's row on the screen stands for. */
  predicate RowOf(rowJob: seq<nat>, w: Widening, i: nat) {
    1 <= w.row <= |rowJob| && rowJob[w.row - 1] == i
  }

  /** Every widening stands for a job, and every pending job has one. */
  ghost predicate Linked(rows: seq<Row>, rowJob: seq<nat>, ws: seq<Widening>) {
    && (forall k :: 0 <= k < |rowJob| ==> rowJob[k] < |rows|)
    && (forall k :: 0 <= k < |ws| ==> 1 <= ws[k].row <= |rowJob|)
    && (forall i :: 0 <= i < |rows| && rows[i].Pending? ==> exists k :: 0 <= k < |ws| && RowOf(rowJob, ws[k], i))
  }

  ghost predicate OffersJustified(s: Setup, span: Window, files: Files, jobs: seq<Job>, ws: seq<Widening>) {
    forall k :: 0 <= k < |ws| ==> OfferJustified(s, span, files, jobs, ws[k])
  }

  ghost predicate OfferJustified(s: Setup, span: Window, files: Files, jobs: seq<Job>, w: Widening) {
    exists j :: 0 <= j < |jobs| && Justified(s, span, files, jobs[j], w)
  }

  lemma OffersOfTasks(s: Setup, a: Window, b: Window, files: Files, jobs: seq<Job>, ws: seq<Widening>)
    requires OffersJustified(s, a, files, jobs, ws) && Longer(a, b)
    ensures AllJustified(s, b, files, JobTasks(jobs), ws)
  {
    hide Justified, Longer;
    forall i | 0 <= i < |ws|
      ensures JustifiedBy(s, b, files, JobTasks(jobs), ws[i])
    {
      assert OfferJustified(s, a, files, jobs, ws[i]);
      var j :| 0 <= j < |jobs| && Justified(s, a, files, jobs[j], ws[i]);
      JustifiedLater(s, a, b, files, jobs[j], ws[i]);
      assert JobTasks(jobs)[j].job == Some(jobs[j]);
    }
  }

  // ----- windows only get longer

  predicate Longer(a: Window, b: Window) { a.lo == b.lo && a.hi <= b.hi }

  lemma JustifiedLater(s: Setup, a: Window, b: Window, files: Files, job: Job, w: Widening)
    requires Justified(s, a, files, job, w) && Longer(a, b)
    ensures Justified(s, b, files, job, w)
  {
    hide OutsideRequest, GrantedDirs, GrantedNames;
    assert forall k: nat :: During(a, k) ==> During(b, k);
  }

  lemma ValidatedLater(s: Setup, a: Window, b: Window, first: Files, granted: bool, files: Files, job: Job, kind: int, paths: seq<Path>)
    requires Validated(s, a, first, granted, files, job, kind, paths) && Longer(a, b)
    ensures Validated(s, b, first, granted, files, job, kind, paths)
  {
    hide ReadyAt;
    assert forall k: nat :: During(a, k) ==> During(b, k);
  }

  lemma RefusableLater(s: Setup, a: Window, b: Window, first: Files, granted: bool, files: Files, job: Job, kind: int)
    requires Refusable(s, a, first, granted, files, job, kind) && Longer(a, b)
    ensures Refusable(s, b, first, granted, files, job, kind)
  {
    hide RefusedAt, UnreadyAt;
    assert forall k: nat :: During(a, k) ==> During(b, k);
  }

  lemma RowLater(s: Setup, a: Window, b: Window, first: Files, granted: bool, job: Job, kind: int, files: Files, row: Row)
    requires RowOk(s, a, first, granted, job, kind, files, row) && Longer(a, b)
    ensures RowOk(s, b, first, granted, job, kind, files, row)
  {
    hide Validated, Refusable, Longer;
    match row
    case Clear(paths) => ValidatedLater(s, a, b, first, granted, files, job, kind, paths);
    case Faulty => RefusableLater(s, a, b, first, granted, files, job, kind);
    case Pending =>
  }

  lemma RowsLater(s: Setup, a: Window, b: Window, first: Files, granted: bool, jobs: seq<Job>, kind: int, files: Files, rows: seq<Row>)
    requires RowsCleared(s, a, first, granted, jobs, kind, files, rows) && Longer(a, b)
    ensures RowsCleared(s, b, first, granted, jobs, kind, files, rows)
  {
    hide RowOk, Longer;
    forall i | 0 <= i < |rows|
      ensures RowOk(s, b, first, granted, jobs[i], kind, files, rows[i])
    {
      RowLater(s, a, b, first, granted, jobs[i], kind, files, rows[i]);
    }
  }

  lemma OffersLater(s: Setup, a: Window, b: Window, files: Files, jobs: seq<Job>, ws: seq<Widening>)
    requires OffersJustified(s, a, files, jobs, ws) && Longer(a, b)
    ensures OffersJustified(s, b, files, jobs, ws)
  {
    hide Justified, Longer;
    forall i | 0 <= i < |ws|
      ensures OfferJustified(s, b, files, jobs, ws[i])
    {
      assert OfferJustified(s, a, files, jobs, ws[i]);
      var j :| 0 <= j < |jobs| && Justified(s, a, files, jobs[j], ws[i]);
      JustifiedLater(s, a, b, files, jobs[j], ws[i]);
    }
  }

  lemma FitsLater(s: Setup, at: nat, later: nat, files: Files, p: Phase, r: Result)
    requires p.Handling? && p.todo != [] && Fits(s, at, files, p, r) && at <= later
    ensures Fits(s, later, files, p, r)
  {
    hide Refusable;
    if r.status == StRejected && p.todo[0].job.Some? {
      RefusableLater(s, Window(p.since, at), Window(p.since, later), p.first, Granting(p, files), files, p.todo[0].job.value, p.kind);
    }
  }

  // ----- after a grant

  lemma RowsStayCleared(s: Setup, span: Window, first: Files, jobs: seq<Job>, kind: int, files: Files, rows: seq<Row>)
    requires RowsCleared(s, span, first, false, jobs, kind, first, rows)
    ensures RowsCleared(s, span, first, true, jobs, kind, files, rows)
  {
    hide ReadyAt, RefusedAt, UnreadyAt;
    forall i | 0 <= i < |rows|
      ensures RowOk(s, span, first, true, jobs[i], kind, files, rows[i])
    {
      assert RowOk(s, span, first, false, jobs[i], kind, first, rows[i]);
    }
  }

  lemma NoPending(rows: seq<Row>, rowJob: seq<nat>)
    requires Linked(rows, rowJob, [])
    ensures forall i :: 0 <= i < |rows| ==> !rows[i].Pending?
  {
  }

  /** After widening, what the operator agreed to is in the scope. */
  lemma NowGranted(p: Phase, target: seq<Path>, files: Files, once: bool)
    requires p.Handling? && p.asked && p.verdict == if once then Once else Approve
    requires (if once then files.paths else files.allowed) == Extended(target, p.offers, once)
    ensures Granting(p, files)
  {
    ExtendedExact(target, p.offers, once);
    forall i, d | 0 <= i < |p.offers| && d in GrantOf(p.offers[i], once)
      ensures d in Extended(target, p.offers, once)
    {
      assert Granted(p.offers, once, d);
    }
  }

  lemma JustifiedGrant(s: Setup, span: Window, files: Files, job: Job, w: Widening, k: nat, l: nat)
    requires OutsideRequest(files, job) && During(span, k) && During(span, l)
    requires GrantedDirs(s, job, w, k) && (w.paths != [] ==> GrantedNames(s, job, w, l))
    ensures Justified(s, span, files, job, w)
  {
    hide GrantedDirs, GrantedNames, OutsideRequest;
  }

  lemma ReadyNow(s: Setup, span: Window, first: Files, job: Job, kind: int, paths: seq<Path>, k: nat)
    requires During(span, k) && PrepareIn(s.world(k), first, job, kind) == Ready(paths)
    ensures Validated(s, span, first, false, first, job, kind, paths)
  {
    hide PrepareIn;
    assert ReadyAt(s, first, job, kind, paths, k);
  }

  lemma ReadyAgain(s: Setup, span: Window, first: Files, files: Files, job: Job, kind: int, paths: seq<Path>, k: nat)
    requires During(span, k) && PrepareIn(s.world(k), files, job, kind) == Ready(paths)
    ensures Validated(s, span, first, true, files, job, kind, paths)
  {
    hide PrepareIn;
    assert ReadyAt(s, files, job, kind, paths, k);
  }

  lemma RefusedNow(s: Setup, span: Window, first: Files, job: Job, kind: int, k: nat, l: nat)
    requires During(span, k) && During(span, l) && RefusedAt(s, first, job, kind, k, l)
    ensures Refusable(s, span, first, false, first, job, kind)
  {
    hide RefusedAt;
  }

  lemma RefusedAgain(s: Setup, span: Window, first: Files, files: Files, job: Job, kind: int, k: nat)
    requires During(span, k) && !PrepareIn(s.world(k), files, job, kind).Ready?
    ensures Refusable(s, span, first, true, files, job, kind)
  {
    hide RefusedAt, PrepareIn;
    assert UnreadyAt(s, files, job, kind, k);
  }

  class Session {
    const setup: Setup
    const id: Envelopes.SessionID
    const codec: Codec
    const fails: nat -> bool             // does the n-th write or post fail?
    const runs: nat -> Outcome           // how does a run at that moment turn out?
    const others: nat -> seq<P.Step>     // what the MCP does before the collector's n-th step
    const engine: E.Engine
    const audit: E.Audit
    var clock: nat
    var turn: nat
    var input: seq<Key>                  // what the operator will type
    var files: Files
    var nextJob: nat
    var nextResult: nat
    var jobs: nat
    var sent: nat
    var denied: nat
    var rejected: nat
    var net: P.World                     // both endpoints, with the logs of the ideal cipher
    ghost var steps: seq<P.Step>
    ghost var received: seq<Envelopes.Envelope>
    ghost var trace: seq<Event>
    ghost var mon: Monitor

    /** The monitor accepts the trace so far. */
    ghost predicate Watched()
      reads this`trace, this`mon
    {
      Watch(setup, trace) == Some(mon)
    }

    /** The counters count the posted results. */
    ghost predicate CountedFor(results: seq<Result>)
      reads this`nextResult, this`jobs, this`sent, this`denied, this`rejected
    {
      && nextResult == |results| + 1 && jobs == |results|
      && sent == Count(results, StOk) && denied == Count(results, StDenied)
      && rejected == Count(results, StRejected)
    }

    /** The weaker relation that a failed write or post leaves behind as well. */
    ghost predicate Bounded()
      reads this`nextResult, this`jobs, this`sent, this`denied, this`rejected
    {
      jobs == nextResult - 1 >= sent + denied + rejected
    }

    /** The endpoints' state is reached by a run of the protocol. */
    ghost predicate Reached()
      reads this`net, this`steps, this`received
    {
      net == P.Exec(P.Init(id), steps) && net.id == id && Received(steps) == received
    }

    /** What was sealed under the result key are the posted results in order, and perhaps
        one whose post failed; what was handled are the envelopes that began. */
    ghost predicate Recorded()
      reads this`net, this`mon
    {
      && |mon.results| <= |net.resultLog| <= |mon.results| + 1
      && (forall k :: 0 <= k < |mon.results| ==> net.resultLog[k].plaintext == codec.encode(mon.results[k]))
      && |net.handled| == |mon.begun|
      && (forall i :: 0 <= i < |mon.begun| ==> mon.begun[i] == Opening(net.handled[i].kind, codec.decode(net.handled[i].plaintext)))
    }

    /** The engine's table is the monitor's, and the saved mapping is that of an earlier one. */
    ghost predicate Mapped()
      reads this`mon, engine, audit
    {
      && engine.Valid() && engine.rules == setup.rules && engine.env == setup.env
      && mon.table == engine.values && audit.Follows(engine.values)
    }

    /** Everything agrees, after an envelope or in the middle of one. */
    ghost predicate Settled()
      reads this`trace, this`mon, this`nextJob, this`nextResult, this`jobs, this`sent, this`denied, this`rejected, this`net, this`steps, this`received, engine, audit
    {
      && CodecOk(codec) && Watched() && CountedFor(mon.results) && Reached() && Recorded() && Mapped()
      && |net.resultLog| == |mon.results| && net.collector.nextResult == nextResult
      && nextJob == net.collector.nextJob == |mon.begun| + 1
      && net.collector.busy == mon.phase.Handling? && (mon.phase.Handling? ==> net.collector.current == |mon.begun|)
    }

    ghost predicate InOrder()
      reads this`trace, this`mon, this`nextJob, this`nextResult, this`jobs, this`sent, this`denied, this`rejected, this`net, this`steps, this`received, engine, audit
    {
      Settled() && net.collector.running
    }

    /** What a failure leaves. */
    ghost predicate Broken()
      reads this`trace, this`mon, this`nextJob, this`nextResult, this`jobs, this`sent, this`denied, this`rejected, this`net, this`steps, this`received, engine, audit
    {
      && Watched() && Bounded() && Reached() && Recorded() && Mapped()
      && nextJob == net.collector.nextJob == |mon.begun| + 1
    }

    /** Something outside went wrong: a write or post failed, the operator's input ended, the
        result numbers are used up, or a result without lines does not fit an envelope. */
    ghost predicate Excused()
      reads this`clock, this`input, this`nextResult
    {
      || input == [] || nextResult > Envelopes.MAX_SESSION_SEQ
      || (exists k: nat :: k < clock && fails(k))
      || (exists r: Result :: r.lines == [] && !FitsEnvelope(codec.encode(r)))
    }

    /** In the middle of an envelope. */
    ghost predicate Live()
      reads this, engine, audit
    {
      InOrder() && mon.phase.Handling? && mon.phase.since <= mon.now <= clock && mon.files == files
    }

    /** An envelope that cannot be finished. */
    ghost predicate Lost()
      reads this, engine, audit
    {
      Broken() && mon.phase.Handling? && mon.files == files && Excused()
    }

    /** Between envelopes. */
    ghost predicate Idle()
      reads this, engine, audit
    {
      Settled() && mon.phase.Waiting? && mon.now <= clock && mon.files == files && files.paths == setup.files.paths
    }

    /** After the join: `level` is what the operator set, `via` how the MCP joined. */
    constructor (level: nat, via: string, setup: Setup, id: Envelopes.SessionID, codec: Codec, fails: nat -> bool, runs: nat -> Outcome,
                 others: nat -> seq<P.Step>, input: seq<Key>)
      requires CodecOk(codec) && RulesOk(setup)
      requires level <= 1 && setup.level == JoinLevel(level, via)
      ensures setup.level <= 1 && (via == "chat" ==> setup.level == 1)
      ensures Idle() && net.collector.running && trace == [] && steps == [] && received == [] && files == setup.files && nextJob == 1
      ensures this.setup == setup && this.id == id && this.codec == codec && fresh(engine) && fresh(audit)
    {
      this.setup, this.id, this.codec, this.fails, this.runs := setup, id, codec, fails, runs;
      this.others, this.input := others, input;
      engine := new E.Engine(setup.rules, setup.env);
      audit := new E.Audit();
      clock, turn, files := 0, 0, setup.files;
      nextJob, nextResult, jobs, sent, denied, rejected := 1, 1, 0, 0, 0, 0;
      net, steps, received := P.Init(id), [], [];
      trace, mon := [], Initial(setup);
    }

    lemma CountedBounds()
      requires InOrder()
      ensures Broken()
    {
      hide Watch, P.Exec, P.Init, Count, R.TableOk;
      CountsAddUp(mon.results);
    }

    ghost method Emit(e: Event)
      requires Watched() && May(setup, mon, e)
      modifies this`trace, this`mon
      ensures Watched() && trace == old(trace) + [e] && mon == Next(setup, old(mon), e)
    {
      hide May, Next, Watch;
      WatchStep(setup, trace, e);
      trace, mon := trace + [e], Next(setup, mon, e);
    }

    /** An event that touches neither results nor envelopes nor the table. */
    ghost method Note(e: Event)
      requires InOrder() && May(setup, mon, e) && (e.Asked? || e.Added? || e.AddedOnce?)
      modifies this`trace, this`mon
      ensures InOrder() && trace == old(trace) + [e] && mon == Next(setup, old(mon), e)
    {
      hide May, Next, Watch, P.Exec, P.Init, Count, R.TableOk, CodecOk;
      QuietStep(setup, mon, e);
      Emit(e);
    }

    method Trouble() returns (bad: bool)
      modifies this`clock
      ensures clock == old(clock) + 1
      ensures bad ==> Excused()
    {
      bad := fails(clock);
      clock := clock + 1;
    }

    /** The MCP goes on, as it likes, between the collector's steps. */
    method Others()
      requires Reached()
      modifies this`turn, this`net, this`steps
      ensures Reached() && net.collector == old(net.collector) && net.resultLog == old(net.resultLog) && net.handled == old(net.handled)
    {
      hide P.Apply, P.Init, P.Exec, Received;
      var more := P.McpOnly(others(turn));
      P.McpLeavesCollector(net, more);
      P.ExecAppend(P.Init(id), steps, more);
      McpReceivesNothing(steps, more);
      net := P.Exec(net, more);
      steps := steps + more;
      turn := turn + 1;
    }

    /** One step of the collector in the protocol. */
    method Advance(s: P.Step)
      requires Reached() && !s.CollectorReceive?
      modifies this`net, this`steps
      ensures Reached() && net == P.Apply(old(net), s)
    {
      hide P.Apply, P.Init, P.Exec, Received;
      P.ExecOne(P.Init(id), steps, s);
      P.ApplyKeepsID(net, s);
      ReceivedStep(steps, s);
      net := P.Apply(net, s);
      steps := steps + [s];
    }

    /** An envelope reaches the collector. */
    method Take(e: Envelopes.Envelope)
      requires Reached()
      modifies this`net, this`steps, this`received
      ensures Reached() && net == P.Apply(old(net), P.CollectorReceive(e)) && received == old(received) + [e]
    {
      hide P.Apply, P.Init, P.Exec, Received;
      var s := P.CollectorReceive(e);
      P.ExecOne(P.Init(id), steps, s);
      P.ApplyKeepsID(net, s);
      ReceivedStep(steps, s);
      net := P.Apply(net, s);
      steps, received := steps + [s], received + [e];
    }

    // ----- results

    /** The result at hand is due and fits what happened. */
    ghost predicate Due(r: Result)
      reads this`mon, this`clock
    {
      && mon.phase.Handling? && mon.phase.todo != [] && mon.phase.todo[0].id == r.id
      && Fits(setup, clock, mon.files, mon.phase, r)
    }

    /** Saves the mapping if it grew. */
    method SaveMapping() returns (failed: bool)
      requires Mapped()
      modifies this`clock, audit
      ensures Mapped() && clock == old(clock) + 1
      ensures failed ==> Excused()
      ensures !failed ==> SavedFor(mon.table, audit.saved)
    {
      hide R.TableOk, R.MappingOf, R.RuleOk, R.Grows;
      var values := engine.Mapping();
      var ok := audit.SaveMapping(values, !fails(clock), engine.values);
      clock := clock + 1;
      failed := !ok;
    }

    /** Writes the local copy of a result and the mapping, and encodes the result. */
    method Record(r: Result) returns (failed: bool)
      requires InOrder()
      modifies this`clock, audit
      ensures InOrder() && clock >= old(clock)
      ensures failed ==> Excused()
      ensures !failed ==> SavedFor(mon.table, audit.saved)
    {
      hide Watch, P.Exec, P.Init, Count, CodecOk, SavedFor, R.TableOk, R.MappingOf, R.Grows;
      failed := Trouble();          // audit.result
      if failed { return; }
      failed := SaveMapping();      // audit.mapping
    }

    /** Seals and posts one result under the next number. The number and the counters move
        only if everything went well; a failure leaves them and may leave one sealed result
        that the counters do not show. */
    method Send(r: Result) returns (failed: bool)
      requires Live() && Due(r) && (r.lines == [] || FitsEnvelope(codec.encode(r)))
      modifies this`clock, this`turn, this`nextResult, this`jobs, this`sent, this`denied, this`rejected, this`trace, this`mon, this`net, this`steps, audit
      ensures clock >= old(clock) && old(trace) <= trace && mon.files == old(mon.files)
      ensures failed ==> Lost() && nextResult == old(nextResult) && jobs == old(jobs) && sent == old(sent) && denied == old(denied) && rejected == old(rejected)
      ensures !failed ==> Live() && mon.results == old(mon.results) + [r] && nextResult == old(nextResult) + 1
      ensures !failed ==> mon.phase == old(mon.phase).(todo := old(mon.phase.todo)[1..], ran := false, lines := [])
    {
      hide InOrder, Broken, Fits, SavedFor, May, Next;
      CountedBounds();
      if nextResult > Envelopes.MAX_SESSION_SEQ {
        return true;
      }
      failed := Record(r);
      CountedBounds();
      if failed { return; }
      FitsLater(setup, old(clock), clock, mon.files, mon.phase, r);
      failed := Seal(r);
    }

    /** Seals a recorded result and posts it. */
    method Seal(r: Result) returns (failed: bool)
      requires Live() && Due(r) && (r.lines == [] || FitsEnvelope(codec.encode(r)))
      requires nextResult <= Envelopes.MAX_SESSION_SEQ && SavedFor(mon.table, audit.saved)
      modifies this`clock, this`turn, this`nextResult, this`jobs, this`sent, this`denied, this`rejected, this`trace, this`mon, this`net, this`steps
      ensures clock >= old(clock) && old(trace) <= trace && mon.files == old(mon.files)
      ensures failed ==> Lost() && nextResult == old(nextResult) && jobs == old(jobs) && sent == old(sent) && denied == old(denied) && rejected == old(rejected)
      ensures !failed ==> Live() && mon.results == old(mon.results) + [r] && nextResult == old(nextResult) + 1
      ensures !failed ==> mon.phase == old(mon.phase).(todo := old(mon.phase.todo)[1..], ran := false, lines := [])
    {
      hide InOrder, Broken, Fits, SavedFor;
      CountedBounds();
      var data := codec.encode(r);
      var cipher := codec.seal(nextResult, data);
      Sizes(data, nextResult);
      var sealed := Envelopes.SealSession(id, nextResult, Envelopes.CLASS_READ, data, cipher, Envelopes.MAX_RESULT_BYTES);
      SealsIfFits(id, nextResult, data, cipher);
      if sealed.None? {
        return true;
      }
      InBetween();
      CountedBounds();
      failed := Trouble();          // post
      if failed {
        PostLost(data, cipher);
        return;
      }
      FitsLater(setup, old(clock), clock, mon.files, mon.phase, r);
      failed := PostDone(r, cipher);
    }

    lemma Sizes(data: Bytes, number: nat)
      requires InOrder()
      ensures |codec.seal(number, data)| == |data| + Envelopes.TAG_BYTES && 1 <= nextResult
      ensures forall r :: codec.encode(r) != []
    {
      hide Watch, P.Exec, P.Init, Received, Count, R.TableOk;
    }

    /** The MCP goes on while an envelope is handled. */
    method InBetween()
      requires InOrder()
      modifies this`turn, this`net, this`steps
      ensures InOrder()
    {
      hide Watch, P.Exec, P.Init, Received, Count, R.TableOk, CodecOk;
      Others();
    }

    /** The post failed: the result is sealed, and nobody knows whether it arrived. */
    method PostLost(data: Bytes, cipher: Bytes)
      requires InOrder() && mon.phase.Handling? && nextResult <= Envelopes.MAX_SESSION_SEQ && |cipher| == |data| + Envelopes.TAG_BYTES
      requires Envelopes.SealSession(id, nextResult, Envelopes.CLASS_READ, data, cipher, Envelopes.MAX_RESULT_BYTES).Some?
      modifies this`net, this`steps
      ensures Broken()
    {
      hide Watch, P.Exec, P.Init, P.Apply, Received, Count, R.TableOk, R.Grows, CodecOk, Envelopes.SealSession;
      CountedBounds();
      SendStep(net, data, cipher, P.PostFailed);
      Advance(P.CollectorSend(data, cipher, P.PostFailed));
    }

    /** The post went through; the audit entry may still fail. */
    method PostDone(r: Result, cipher: Bytes) returns (failed: bool)
      requires Live() && Due(r) && nextResult <= Envelopes.MAX_SESSION_SEQ && SavedFor(mon.table, audit.saved)
      requires |cipher| == |codec.encode(r)| + Envelopes.TAG_BYTES
      requires Envelopes.SealSession(id, nextResult, Envelopes.CLASS_READ, codec.encode(r), cipher, Envelopes.MAX_RESULT_BYTES).Some?
      modifies this`clock, this`nextResult, this`jobs, this`sent, this`denied, this`rejected, this`trace, this`mon, this`net, this`steps
      ensures clock >= old(clock) && old(trace) <= trace && mon.files == old(mon.files)
      ensures failed ==> Lost() && nextResult == old(nextResult) && jobs == old(jobs) && sent == old(sent) && denied == old(denied) && rejected == old(rejected)
      ensures !failed ==> Live() && mon.results == old(mon.results) + [r] && nextResult == old(nextResult) + 1
      ensures !failed ==> mon.phase == old(mon.phase).(todo := old(mon.phase.todo)[1..], ran := false, lines := [])
    {
      hide InOrder, Broken, Settled, Fits, SavedFor, May, Next, Ahead, Count, Envelopes.SealSession;
      CountedBounds();
      ghost var before := mon;
      ghost var at := clock;
      CountedNow();
      PostStep(setup, mon, nextResult, r, audit.saved, at);
      failed := Trouble();          // audit.event
      EmitPosted(r, at, cipher, if failed then P.AuditFailed else P.Delivered);
      if failed {
        StillBroken();
        return;
      }
      Tally(r, before.results);
      Resettle();
    }

    lemma CountedNow()
      requires InOrder()
      ensures CountedFor(mon.results) && Bounded()
    {
      hide Watch, P.Exec, P.Init, Received, R.TableOk, R.Grows;
      CountsAddUp(mon.results);
    }

    lemma StillBroken()
      requires Ahead(false) && Bounded()
      ensures Broken()
    {
      hide Watch, P.Exec, P.Init, Received, Count, R.TableOk, R.Grows;
    }

    /** The counters have caught up with the posted results. */
    lemma Resettle()
      requires Ahead(true) && CountedFor(mon.results)
      ensures InOrder()
    {
      hide Watch, P.Exec, P.Init, Received, Count, R.TableOk, R.Grows;
    }

    /** A result was posted that the counters do not show yet. */
    ghost predicate Ahead(running: bool)
      reads this`trace, this`mon, this`nextJob, this`net, this`steps, this`received, engine, audit
    {
      && CodecOk(codec) && Watched() && Reached() && Recorded() && Mapped() && mon.phase.Handling?
      && nextJob == net.collector.nextJob == |mon.begun| + 1
      && (running ==> net.collector.running && |net.resultLog| == |mon.results| && net.collector.nextResult == |mon.results| + 1 &&
                      net.collector.busy && net.collector.current == |mon.begun|)
    }

    /** The event of a post, and the collector's step in the protocol. */
    method EmitPosted(r: Result, ghost at: nat, cipher: Bytes, post: P.Post)
      requires InOrder() && mon.phase.Handling? && May(setup, mon, Posted(nextResult, r, audit.saved, at)) && nextResult <= Envelopes.MAX_SESSION_SEQ
      requires |cipher| == |codec.encode(r)| + Envelopes.TAG_BYTES
      requires Envelopes.SealSession(id, nextResult, Envelopes.CLASS_READ, codec.encode(r), cipher, Envelopes.MAX_RESULT_BYTES).Some?
      modifies this`trace, this`mon, this`net, this`steps
      ensures trace == old(trace) + [Posted(nextResult, r, audit.saved, at)]
      ensures mon == Next(setup, old(mon), Posted(nextResult, r, audit.saved, at))
      ensures Ahead(post.Delivered?)
    {
      hide Watch, May, Next, P.Exec, P.Init, P.Apply, Received, Count, R.TableOk, R.Grows, CodecOk, Envelopes.SealSession;
      PostedStep(setup, mon, Posted(nextResult, r, audit.saved, at));
      Emit(Posted(nextResult, r, audit.saved, at));
      SendStep(net, codec.encode(r), cipher, post);
      Advance(P.CollectorSend(codec.encode(r), cipher, post));
    }

    method Tally(r: Result, ghost before: seq<Result>)
      requires CountedFor(before)
      modifies this`nextResult, this`jobs, this`sent, this`denied, this`rejected
      ensures CountedFor(before + [r])
    {
      CountStep(before, r, StOk);
      CountStep(before, r, StDenied);
      CountStep(before, r, StRejected);
      nextResult := nextResult + 1;
      jobs := jobs + 1;
      match r.status {
        case StOk => sent := sent + 1;
        case StDenied => denied := denied + 1;
        case StRejected => rejected := rejected + 1;
        case StError =>
      }
    }

    /** One rejection for the message at hand. */
    method Reject(id: string) returns (failed: bool)
      requires Live() && Due(Result(id, StRejected, []))
      modifies this`clock, this`turn, this`nextResult, this`jobs, this`sent, this`denied, this`rejected, this`trace, this`mon, this`net, this`steps, audit
      ensures clock >= old(clock) && old(trace) <= trace && mon.files == old(mon.files)
      ensures failed ==> Lost()
      ensures !failed ==> Live() && mon.results == old(mon.results) + [Result(id, StRejected, [])]
      ensures !failed ==> mon.phase == old(mon.phase).(todo := old(mon.phase.todo)[1..], ran := false, lines := [])
    {
      hide InOrder, Broken, Fits;
      CountedBounds();
      failed := Trouble();
      if failed { return; }
      FitsLater(setup, old(clock), clock, mon.files, mon.phase, Result(id, StRejected, []));
      failed := Send(Result(id, StRejected, []));
    }

    // ----- the operator

    /** Reads keys until one of the choices; None when the input ends. */
    method Ask(choices: set<Key>) returns (key: Option<Key>)
      modifies this`input
      ensures FirstChoice(choices, old(input), input, key) && (key.None? ==> input == [])
    {
      while input != []
        invariant |input| <= |old(input)| && input == old(input)[|old(input)| - |input|..]
        invariant forall k :: 0 <= k < |old(input)| - |input| ==> old(input)[k] !in choices
        decreases |input|
      {
        var k := input[0];
        input := input[1..];
        if k in choices {
          return Some(k);
        }
      }
      return None;
    }

    /** The scan that decides whether "allow once" is on the screen. */
    method CanAllowOnce(ws: seq<Widening>) returns (once: bool)
      ensures once <==> OnceOffered(ws)
    {
      for k := 0 to |ws|
        invariant forall i :: 0 <= i < k ==> ws[i].paths != []
      {
        if |ws[k].paths| == 0 {
          return false;
        }
      }
      return |ws| > 0;
    }

    /** The approval screen: the first key that answers decides, and "allow once" answers
        exactly where every row can be served by names alone. */
    method Approval(ws: seq<Widening>) returns (v: Verdict, failed: bool)
      modifies this`input, this`clock
      ensures v == Once ==> OnceOffered(ws)
      ensures failed ==> Excused()
      ensures clock >= old(clock)
      ensures !failed ==> Answered(ws, old(input), input, v)
    {
      hide OnceOffered, FirstChoice, StillAsked, Answered;
      var once := CanAllowOnce(ws);
      var choices := if once then {KeyA, KeyO, KeyD, KeyV} else {KeyA, KeyD, KeyV};
      NothingRead(ws, input);
      while true
        invariant StillAsked(ws, old(input), input) && clock >= old(clock)
        decreases |input|
      {
        ghost var before := input;
        var key := Ask(choices);
        if key.None? {
          return Deny, true;
        }
        NextChoice(ws, old(input), before, input, choices, key.value);
        match key.value {
          case KeyA => return Approve, false;
          case KeyO => return Once, false;
          case KeyD => return Deny, false;
          case _ =>
        }
        var bad := Trouble();       // paging the parameters
        if bad {
          return Deny, true;
        }
      }
    }

    // ----- preparing

    /** One job: prepare it, and if it only lacks scope at level 1, find what to offer. */
    method PrepareOne(job: Job, kind: int, row: nat, ghost since: nat) returns (r: Row, w: Option<Widening>)
      requires since <= clock
      modifies this`clock
      ensures clock >= old(clock) && RowOk(setup, Window(since, clock), files, false, job, kind, files, r)
      ensures r.Pending? <==> w.Some?
      ensures w.Some? ==> setup.level != 0 && w.value.row == row && Justified(setup, Window(since, clock), files, job, w.value)
    {
      hide PrepareIn, ScopeGrant, PathGrant, Cleared, OutsideRequest, RequestedDir, RequestedName, Justified, Refusable, Validated;
      var at := clock;
      PreparedIsCleared(setup.world(at), files, job, kind);
      var p := Prepare(setup.world(at), files, job, kind);
      clock := clock + 1;
      match p {
        case Ready(paths) =>
          ReadyNow(setup, Window(since, clock), files, job, kind, paths, at);
          return Clear(paths), None;
        case Invalid =>
          RefusedNow(setup, Window(since, clock), files, job, kind, at, at);
          return Faulty, None;
        case OutOfScope(dir, target) =>
          if setup.level == 0 {
            RefusedNow(setup, Window(since, clock), files, job, kind, at, at);
            return Faulty, None;
          }
          var k := clock;
          var dirs := ScopeGrant(setup.world(k), dir);
          clock := clock + 1;
          if dirs.None? {
            RefusedNow(setup, Window(since, clock), files, job, kind, at, k);
            return Faulty, None;
          }
          var l := clock;
          var names := if target.Some? then PathGrant(setup.world(l), target.value) else None;
          var offer := Widening(row, dirs.value, if names.Some? then names.value else []);
          clock := clock + 1;
          JustifiedGrant(setup, Window(since, clock), files, job, offer, k, l);
          return Pending, Some(offer);
      }
    }

    /** One row per job; every pending one has a widening that leads back to it. */
    method PrepareAll(todo: seq<Job>, kind: int, ghost since: nat) returns (rows: seq<Row>, rowJob: seq<nat>, ws: seq<Widening>, failed: bool)
      requires since <= clock
      modifies this`clock
      ensures clock >= old(clock)
      ensures !failed ==> RowsCleared(setup, Window(since, clock), files, false, todo, kind, files, rows) && Linked(rows, rowJob, ws)
      ensures !failed ==> OffersJustified(setup, Window(since, clock), files, todo, ws)
      ensures setup.level == 0 || rowJob == [] ==> ws == []
      ensures !failed && rowJob == [] ==> forall i :: 0 <= i < |rows| ==> rows[i].Faulty?
      ensures failed ==> Excused()
    {
      hide RowOk, Justified, RowsCleared, OffersJustified, Linked;
      rows, rowJob, ws := [], [], [];
      NothingPrepared(setup, Window(since, clock), files, todo, kind);
      for i := 0 to |todo|
        invariant |rows| == i && (setup.level == 0 || rowJob == [] ==> ws == []) && clock >= old(clock)
        invariant rowJob == [] ==> forall j :: 0 <= j < |rows| ==> rows[j].Faulty?
        invariant RowsCleared(setup, Window(since, clock), files, false, todo[..i], kind, files, rows) && Linked(rows, rowJob, ws)
        invariant OffersJustified(setup, Window(since, clock), files, todo, ws)
      {
        ghost var span := Window(since, clock);
        var r, w := PrepareOne(todo[i], kind, |rowJob| + 1, since);
        ghost var middle := Window(since, clock);
        var bad := Trouble();       // audit "received"
        if bad {
          return rows, rowJob, ws, true;
        }
        ghost var now := Window(since, clock);
        RowsLater(setup, span, now, files, false, todo[..i], kind, files, rows);
        RowLater(setup, middle, now, files, false, todo[i], kind, files, r);
        OffersLater(setup, span, now, files, todo, ws);
        RowAdded(setup, now, todo, kind, files, rows, r, i);
        if w.Some? {
          JustifiedLater(setup, middle, now, files, todo[i], w.value);
          LinkPending(rows, rowJob, ws, w.value);
          OfferAdded(setup, now, files, todo, ws, w.value, i);
          ws := ws + [w.value];
          rowJob := rowJob + [i];
        } else if r.Clear? {
          LinkClear(rows, rowJob, ws, r);
          rowJob := rowJob + [i];
        } else {
          LinkFaulty(rows, rowJob, ws);
        }
        rows := rows + [r];
      }
      assert todo[..|todo|] == todo;
      failed := false;
    }

    /** Widens the scope by what was offered: directories for good, or single names. */
    method Widen(ws: seq<Widening>, once: bool) returns (failed: bool)
      requires Live() && mon.phase.asked && mon.phase.offers == ws && mon.phase.verdict == if once then Once else Approve
      modifies this`clock, this`files, this`trace, this`mon
      ensures Live() && clock >= old(clock) && mon.phase == old(mon.phase) && (failed ==> Excused())
      ensures Wider(old(files), files) && old(trace) <= trace
      ensures once ==> files.allowed == old(files.allowed)
      ensures !once ==> files.paths == old(files.paths)
      ensures !failed && once ==> files.paths == Extended(old(files.paths), ws, true)
      ensures !failed && !once ==> files.allowed == Extended(old(files.allowed), ws, false)
    {
      hide InOrder, May, Next, NotYet;
      var added := false;
      assert ws[..|ws|] == ws;
      for k := 0 to |ws|
        invariant Live() && clock >= old(clock) && mon.phase == old(mon.phase)
        invariant Wider(old(files), files) && old(trace) <= trace
        invariant once ==> files == old(files).(paths := Extended(old(files.paths), ws[..k], true))
        invariant !once ==> files == old(files).(allowed := Extended(old(files.allowed), ws[..k], false))
      {
        assert ws[..k + 1][..k] == ws[..k];
        var target := if once then files.paths else files.allowed;
        var extra := FindFresh(target, GrantOf(ws[k], once));
        if |extra| == 0 {
          continue;
        }
        NotYetOffered(ws, k, target, once);
        GrantStep(setup, mon, extra, once);
        added := true;
        if once {
          files := files.(paths := files.paths + extra);
          Note(AddedOnce(extra));
        } else {
          files := files.(allowed := files.allowed + extra);
          Note(Added(extra));
        }
        failed := Trouble();        // audit.event
        if failed { return; }
      }
      if !added || once {
        return false;
      }
      failed := Trouble();          // session.json
    }

    method FindFresh(target: seq<Path>, grant: seq<Path>) returns (extra: seq<Path>)
      ensures extra == NotYet(target, grant)
    {
      extra := [];
      assert grant[..|grant|] == grant;
      for i := 0 to |grant|
        invariant extra == NotYet(target, grant[..i])
      {
        assert grant[..i + 1][..i] == grant[..i];
        if grant[i] !in target && grant[i] !in extra {
          extra := extra + [grant[i]];
        }
      }
    }

    /** Prepares the pending rows again, now against the wider scope. */
    method PrepareAgain(first: Files, todo: seq<Job>, kind: int, before: seq<Row>, rowJob: seq<nat>, ws: seq<Widening>, ghost since: nat) returns (rows: seq<Row>)
      requires since <= clock && RowsCleared(setup, Window(since, clock), first, true, todo, kind, files, before) && Linked(before, rowJob, ws)
      modifies this`clock
      ensures clock >= old(clock)
      ensures RowsCleared(setup, Window(since, clock), first, true, todo, kind, files, rows) && forall i :: 0 <= i < |rows| ==> !rows[i].Pending?
    {
      hide PrepareIn, RowOk;
      rows := before;
      for k := 0 to |ws|
        invariant clock >= old(clock) && |rows| == |before|
        invariant RowsCleared(setup, Window(since, clock), first, true, todo, kind, files, rows)
        invariant forall i :: 0 <= i < |rows| && rows[i].Pending? ==> before[i].Pending?
        invariant forall i, j :: 0 <= i < |rows| && rows[i].Pending? && 0 <= j < k ==> !RowOf(rowJob, ws[j], i)
      {
        var i := rowJob[ws[k].row - 1];
        var at := clock;
        var p := Prepare(setup.world(at), files, todo[i], kind);
        clock := clock + 1;
        RowsLater(setup, Window(since, at), Window(since, clock), first, true, todo, kind, files, rows);
        RowAgain(setup, Window(since, clock), first, todo[i], kind, files, at);
        rows := rows[i := if p.Ready? then Clear(p.paths) else Faulty];
      }
    }

    // ----- running

    /** Runs an approved job and redacts its lines. */
    method Execute(job: Job, paths: seq<Path>) returns (ok: bool, lines: seq<string>, flagged: bool)
      requires Live() && mon.phase.todo != [] && mon.phase.todo[0] == Task(job.id, Some(job)) && !mon.phase.ran && mon.phase.verdict != Deny
      requires Validated(setup, Window(mon.phase.since, clock), mon.phase.first, Granting(mon.phase, files), files, job, mon.phase.kind, paths)
      modifies this`clock, this`trace, this`mon, engine`values
      ensures Live() && clock >= old(clock) && old(trace) <= trace && mon.files == old(mon.files)
      ensures mon.phase == old(mon.phase).(ran := true, lines := lines) && mon.results == old(mon.results)
      ensures var outcome := runs(old(clock));
              ok == outcome.ok && flagged == outcome.flagged && trace == old(trace) + [Ran(job, paths, outcome.lines, old(clock))]
    {
      hide InOrder, May, Next, Validated, Granting, R.RedactFrom, E.RenderAll;
      var at := clock;
      var outcome := runs(at);
      ok, flagged := outcome.ok, outcome.flagged;
      clock := clock + 1;
      RunStep(setup, mon, job, paths, outcome.lines, at);
      lines := RedactRun(job, paths, outcome.lines, at);
    }

    /** The event of a run, and the redaction of its lines. */
    method RedactRun(job: Job, paths: seq<Path>, raw: seq<string>, ghost at: nat) returns (lines: seq<string>)
      requires InOrder() && mon.phase.Handling? && May(setup, mon, Ran(job, paths, raw, at))
      modifies this`trace, this`mon, engine`values
      ensures InOrder() && trace == old(trace) + [Ran(job, paths, raw, at)] && mon == Next(setup, old(mon), Ran(job, paths, raw, at))
      ensures lines == E.RenderAll(R.RedactFrom(setup.env, setup.rules, old(mon.table), raw, 0).out)
    {
      hide Watch, May, Next, P.Exec, P.Init, Received, Count, CodecOk, R.TableOk, R.RuleOk, R.Grows, R.RedactFrom, E.RenderAll;
      RanStep(setup, mon, Ran(job, paths, raw, at));
      ghost var before := engine.values;
      Emit(Ran(job, paths, raw, at));
      var redacted := engine.Redact(raw);
      lines := redacted.lines;
      E.FollowsGrows(audit, before, engine.values);
    }

    /** Runs one approved job and posts its result, unless the operator drops it. */
    method RunApproved(job: Job, paths: seq<Path>) returns (failed: bool)
      requires Live() && mon.phase.todo != [] && mon.phase.todo[0] == Task(job.id, Some(job)) && !mon.phase.ran && mon.phase.verdict != Deny
      requires Validated(setup, Window(mon.phase.since, clock), mon.phase.first, Granting(mon.phase, files), files, job, mon.phase.kind, paths)
      requires mon.phase.lines == []
      modifies this`clock, this`turn, this`input, this`nextResult, this`jobs, this`sent, this`denied, this`rejected, this`trace, this`mon, this`net, this`steps, engine`values, audit
      ensures clock >= old(clock) && old(trace) <= trace && mon.files == files
      ensures failed ==> Lost()
      ensures !failed ==> Live() && mon.phase == old(mon.phase).(todo := old(mon.phase.todo)[1..])
    {
      hide InOrder, Broken, Validated, Fits;
      CountedBounds();
      failed := Trouble();          // audit "approved"
      if failed { return; }
      ValidatedLater(setup, Window(mon.phase.since, old(clock)), Window(mon.phase.since, clock), mon.phase.first, Granting(mon.phase, files), files, job, mon.phase.kind, paths);
      var ok, lines, flagged := Execute(job, paths);
      failed := Report(job, ok, lines, flagged);
    }

    /** Posts the result of a job that ran, cut to size, unless the operator drops it: that is
        asked only at level 1 and about flagged lines, and the last key read decides. */
    method Report(job: Job, ok: bool, lines: seq<string>, flagged: bool) returns (failed: bool)
      requires Live() && mon.phase.todo != [] && mon.phase.todo[0].id == job.id && mon.phase.ran && mon.phase.lines == lines
      modifies this`clock, this`turn, this`input, this`nextResult, this`jobs, this`sent, this`denied, this`rejected, this`trace, this`mon, this`net, this`steps, audit
      ensures clock >= old(clock) && old(trace) <= trace && mon.files == files
      ensures failed ==> Lost()
      ensures !failed ==> Live() && mon.phase == old(mon.phase).(todo := old(mon.phase.todo)[1..], ran := false, lines := [])
      ensures !failed && !(setup.level == 1 && flagged) ==>
                input == old(input) && exists n: nat :: Capped(job.id, ok, lines, n) && mon.results == old(mon.results) + [Cut(job.id, ok, lines, n)]
      ensures !failed && setup.level == 1 && flagged ==>
                && |input| < |old(input)| && old(input)[|old(input)| - |input| - 1] in {KeyS, KeyD}
                && (old(input)[|old(input)| - |input| - 1] == KeyD ==> mon.results == old(mon.results) + [Result(job.id, StDenied, [])])
                && (old(input)[|old(input)| - |input| - 1] == KeyS ==>
                      exists n: nat :: Capped(job.id, ok, lines, n) && mon.results == old(mon.results) + [Cut(job.id, ok, lines, n)])
    {
      hide InOrder, Broken, Fits, TextSize;
      CountedBounds();
      var result := Result(job.id, if ok then StOk else StError, lines);
      var n := CapResult(codec, result);
      result := result.(lines := lines[..n]);
      assert Capped(job.id, ok, lines, n) && result == Cut(job.id, ok, lines, n);
      if setup.level == 1 && flagged {
        var key := Ask({KeyS, KeyD});
        if key.None? {
          return true;
        }
        if key.value != KeyS {
          result := Result(job.id, StDenied, []);
          failed := Trouble();      // audit "dropped"
          if failed { return; }
        }
      }
      RanFits(setup, clock, mon, result);
      failed := Send(result);
    }

    ghost function Cut(id: string, ok: bool, lines: seq<string>, n: nat): Result
      requires n <= |lines|
    {
      Result(id, if ok then StOk else StError, lines[..n])
    }

    /** n is the number of lines that capResult keeps. */
    ghost predicate Capped(id: string, ok: bool, lines: seq<string>, n: nat) {
      var r := Result(id, if ok then StOk else StError, lines);
      n <= |lines| && (n > 0 ==> Small(codec, r, n)) && forall k :: n < k <= |lines| ==> !Small(codec, r, k)
    }

    /** One row: rejected, denied, or run. */
    method RunOne(job: Job, row: Row, approved: bool, ghost span: Window) returns (failed: bool)
      requires Live() && mon.phase.todo != [] && mon.phase.todo[0] == Task(job.id, Some(job)) && !mon.phase.ran && mon.phase.lines == []
      requires (approved <==> mon.phase.verdict != Deny) && (approved ==> !row.Pending?) && (approved || mon.phase.asked || row.Faulty?)
      requires Longer(span, Window(mon.phase.since, clock)) && RowOk(setup, span, mon.phase.first, Granting(mon.phase, files), job, mon.phase.kind, files, row)
      modifies this`clock, this`turn, this`input, this`nextResult, this`jobs, this`sent, this`denied, this`rejected, this`trace, this`mon, this`net, this`steps, engine`values, audit
      ensures clock >= old(clock) && old(trace) <= trace && mon.files == files
      ensures failed ==> Lost()
      ensures !failed ==> Live() && mon.phase == old(mon.phase).(todo := old(mon.phase.todo)[1..])
    {
      hide InOrder, Broken, Validated, Refusable;
      CountedBounds();
      RowLater(setup, span, Window(mon.phase.since, clock), mon.phase.first, Granting(mon.phase, files), job, mon.phase.kind, files, row);
      if row.Faulty? {
        failed := Reject(job.id);
      } else if !approved {
        failed := Trouble();        // audit "denied"
        if failed { return; }
        failed := Send(Result(job.id, StDenied, []));
      } else {
        failed := RunApproved(job, row.paths);
      }
    }

    /** All rows, in the order of the plan. */
    method RunAll(todo: seq<Job>, rows: seq<Row>, approved: bool, ghost span: Window) returns (failed: bool)
      requires Live() && mon.phase.todo == JobTasks(todo) && !mon.phase.ran && mon.phase.lines == []
      requires (approved <==> mon.phase.verdict != Deny) && (approved ==> forall i :: 0 <= i < |rows| ==> !rows[i].Pending?)
      requires approved || mon.phase.asked || forall i :: 0 <= i < |rows| ==> rows[i].Faulty?
      requires Longer(span, Window(mon.phase.since, clock)) && RowsCleared(setup, span, mon.phase.first, Granting(mon.phase, files), todo, mon.phase.kind, files, rows)
      modifies this`clock, this`turn, this`input, this`nextResult, this`jobs, this`sent, this`denied, this`rejected, this`trace, this`mon, this`net, this`steps, engine`values, audit
      ensures clock >= old(clock) && old(trace) <= trace && mon.files == files
      ensures failed ==> Lost()
      ensures !failed ==> Live() && mon.phase.todo == []
    {
      hide InOrder, Broken, RowOk, Fits;
      for i := 0 to |todo|
        invariant Live() && clock >= old(clock) && old(trace) <= trace
        invariant mon.phase == old(mon.phase).(todo := JobTasks(todo)[i..])
        modifies this`clock, this`turn, this`input, this`nextResult, this`jobs, this`sent, this`denied, this`rejected, this`trace, this`mon, this`net, this`steps, engine`values, audit
      {
        failed := RunOne(todo[i], rows[i], approved, span);
        if failed { return; }
      }
      failed := false;
    }

    // ----- one envelope

    /** Asks at level 1 if there is something to ask about. */
    method Decide(todo: seq<Job>, rowJob: seq<nat>, ws: seq<Widening>, ghost span: Window) returns (v: Verdict, failed: bool)
      requires Live() && !mon.phase.asked && setup.level <= 1 && Longer(span, Window(mon.phase.since, clock))
      requires mon.phase.verdict == (if setup.level == 0 then Approve else Deny) && mon.phase.todo == JobTasks(todo)
      requires OffersJustified(setup, span, files, todo, ws) && (setup.level == 0 || rowJob == [] ==> ws == [])
      modifies this`clock, this`input, this`trace, this`mon
      ensures Live() && clock >= old(clock) && old(trace) <= trace && (failed ==> Excused())
      ensures !failed ==> mon.phase.verdict == v && (v != Deny && ws != [] ==> mon.phase.asked && mon.phase.offers == ws)
      ensures !failed ==> mon.phase == old(mon.phase).(asked := mon.phase.asked, offers := mon.phase.offers, verdict := v)
      ensures setup.level == 0 ==> v == Approve && !failed
      ensures !failed && setup.level == 1 && rowJob != [] ==> mon.phase.asked && mon.phase.offers == ws
      ensures !failed && mon.phase.asked ==> |input| < |old(input)| && old(input)[|old(input)| - |input| - 1] == KeyOf(v)
    {
      hide InOrder, May, Next, OffersJustified, AllJustified;
      v, failed := if setup.level == 0 then Approve else Deny, false;
      if |rowJob| > 0 && setup.level == 1 {
        v, failed := Approval(ws);
        if failed { return; }
        OffersOfTasks(setup, span, Window(mon.phase.since, clock), files, todo, ws);
        AskStep(setup, mon, ws, v, clock);
        Note(Asked(ws, v, clock));
      }
    }

    /** The jobs of one envelope. A one-job grant is taken back however this ends. */
    method HandleJobs(todo: seq<Job>, kind: int) returns (failed: bool)
      requires Live() && setup.level <= 1 && files.paths == setup.files.paths && mon.phase.todo == JobTasks(todo)
      requires mon.phase == Handling(kind, mon.phase.since, files, mon.phase.todo, false, [], if setup.level == 0 then Approve else Deny, false, [])
      modifies this`clock, this`turn, this`input, this`files, this`nextResult, this`jobs, this`sent, this`denied, this`rejected, this`trace, this`mon, this`net, this`steps, engine`values, audit
      ensures Closing(failed) && clock >= old(clock) && old(trace) <= trace
      ensures files.paths == old(files.paths) && old(files.allowed) <= files.allowed
      ensures setup.level == 0 ==> files == old(files)
    {
      hide InOrder, Broken, RowsCleared, Linked, OffersJustified, Extended;
      CountedBounds();
      ghost var since := mon.phase.since;
      var rows, rowJob, ws;
      rows, rowJob, ws, failed := PrepareAll(todo, kind, since);
      if failed { return; }
      ghost var span := Window(since, clock);
      var v;
      v, failed := Decide(todo, rowJob, ws, span);
      CountedBounds();
      if failed { return; }
      var approved := v != Deny;
      if approved && |ws| > 0 {
        failed := HandleWider(todo, kind, rows, rowJob, ws, v == Once, span);
      } else {
        if approved {
          NoPending(rows, rowJob);
          RowsStayCleared(setup, span, files, todo, kind, files, rows);
        }
        failed := RunAll(todo, rows, approved, span);
      }
    }

    /** The envelope is through, or lost; the scope is the monitor's but for single names. */
    ghost predicate Closing(failed: bool)
      reads this, engine, audit
    {
      && mon.phase.Handling? && mon.files.allowed == files.allowed
      && (failed ==> Broken() && Excused())
      && (!failed ==> InOrder() && mon.phase.todo == [] && mon.now <= clock)
    }

    /** With a wider scope: grant, prepare again, run, and take single names back. */
    method HandleWider(todo: seq<Job>, kind: int, prepared: seq<Row>, rowJob: seq<nat>, ws: seq<Widening>, once: bool, ghost span: Window) returns (failed: bool)
      requires Live() && mon.phase.kind == kind && mon.phase.first == files && mon.phase.todo == JobTasks(todo) && !mon.phase.ran && mon.phase.lines == []
      requires mon.phase.asked && mon.phase.offers == ws && mon.phase.verdict == if once then Once else Approve
      requires Longer(span, Window(mon.phase.since, clock)) && RowsCleared(setup, span, files, false, todo, kind, files, prepared) && Linked(prepared, rowJob, ws)
      modifies this`clock, this`turn, this`input, this`files, this`nextResult, this`jobs, this`sent, this`denied, this`rejected, this`trace, this`mon, this`net, this`steps, engine`values, audit
      ensures Closing(failed) && clock >= old(clock) && old(trace) <= trace
      ensures files.paths == old(files.paths) && old(files.allowed) <= files.allowed
    {
      hide InOrder, Broken, RowsCleared, Linked, Extended;
      var granted := files.paths;
      var first := files;
      ghost var since := mon.phase.since;
      failed := Widen(ws, once);
      CountedBounds();
      if !failed {
        RowsLater(setup, span, Window(since, clock), first, false, todo, kind, first, prepared);
        RowsStayCleared(setup, Window(since, clock), first, todo, kind, files, prepared);
        NowGranted(mon.phase, if once then granted else first.allowed, files, once);
        var rows := PrepareAgain(first, todo, kind, prepared, rowJob, ws, since);
        failed := RunAll(todo, rows, true, Window(since, clock));
      }
      if once {
        files := files.(paths := granted);
      }
    }

    /** A malformed job or plan is rejected as a whole; everything else goes job by job. */
    method Dispatch(kind: int, incoming: Incoming) returns (failed: bool)
      requires Live() && setup.level <= 1 && files.paths == setup.files.paths
      requires mon.phase == Fresh(setup, files, kind, incoming, mon.phase.since)
      modifies this`clock, this`turn, this`input, this`files, this`nextResult, this`jobs, this`sent, this`denied, this`rejected, this`trace, this`mon, this`net, this`steps, engine`values, audit
      ensures Closing(failed) && clock >= old(clock) && old(trace) <= trace
      ensures files.paths == old(files.paths) && old(files.allowed) <= files.allowed
      ensures setup.level == 0 ==> files == old(files)
    {
      hide InOrder, Broken, Tasks;
      TaskCases(incoming);
      assert incoming.Plan? ==> (Nested(incoming.jobs) <==> !forall i :: 0 <= i < |incoming.jobs| ==> incoming.jobs[i].name != "plan");
      match incoming {
        case Garbage(id) => failed := Reject(id);
        case Single(job) => failed := HandleJobs([job], kind);
        case Plan(id, decoded, todo) =>
          if !ValidJobID(id) || !decoded || |todo| < 1 || |todo| > MAX_PLAN {
            failed := Reject(id);
          } else {
            var nested := FindNested(todo);
            if nested {
              failed := Reject(id);
            } else {
              failed := HandleJobs(todo, kind);
            }
          }
      }
    }

    method FindNested(todo: seq<Job>) returns (nested: bool)
      ensures nested <==> Nested(todo)
    {
      for i := 0 to |todo|
        invariant forall j :: 0 <= j < i ==> todo[j].name != "plan"
      {
        if todo[i].name == "plan" {
          return true;
        }
      }
      return false;
    }

    /** An envelope that opens: the next number is used up and handling begins. */
    method Begin(e: Envelopes.Envelope, plaintext: Bytes)
      requires Idle() && net.collector.running
      requires Envelopes.OpenSession(net.jobLog, e, id, nextJob, Envelopes.MAX_JOB_BYTES) == Envelopes.Plain(plaintext)
      modifies this`nextJob, this`net, this`steps, this`received, this`trace, this`mon
      ensures Live() && received == old(received) + [e]
      ensures trace == old(trace) + [Began(old(nextJob), e.kind, codec.decode(plaintext), clock)]
      ensures mon.phase == Fresh(setup, files, e.kind, codec.decode(plaintext), clock)
    {
      hide Watch, May, Next, Tasks, P.Exec, P.Init, P.Apply, Received, Count, CodecOk, R.TableOk, R.Grows, Envelopes.OpenSession;
      OpenStep(net, e, plaintext);
      Take(e);
      BeginStep(setup, mon, e.kind, codec.decode(plaintext), clock);
      Emit(Began(nextJob, e.kind, codec.decode(plaintext), clock));
      nextJob := nextJob + 1;
    }

    /** One authenticated envelope, from its beginning to its last result. */
    method Handle(kind: int, incoming: Incoming) returns (failed: bool)
      requires Live() && setup.level <= 1 && files.paths == setup.files.paths
      requires mon.phase == Fresh(setup, files, kind, incoming, mon.phase.since)
      modifies this`clock, this`turn, this`input, this`files, this`nextResult, this`jobs, this`sent, this`denied, this`rejected, this`trace, this`mon, this`net, this`steps, engine`values, audit
      ensures failed ==> Broken() && mon.phase.Dead? && mon.files == files && !net.collector.running && Excused()
      ensures !failed ==> Idle()
      ensures !failed ==> (net.collector.running <==> nextJob <= Envelopes.MAX_SESSION_SEQ && nextResult <= Envelopes.MAX_SESSION_SEQ)
      ensures files.paths == old(files.paths) && old(files.allowed) <= files.allowed
      ensures setup.level == 0 ==> files == old(files)
      ensures old(trace) <= trace
    {
      hide InOrder, Broken, May, Next, Tasks;
      failed := Dispatch(kind, incoming);
      Close(failed);
    }

    /** The end of an envelope: single names are back, and a failure ends the session. */
    method Close(failed: bool)
      requires Closing(failed) && files.paths == setup.files.paths
      modifies this`turn, this`trace, this`mon, this`net, this`steps
      ensures failed ==> Broken() && mon.phase.Dead? && mon.files == files && !net.collector.running && Excused()
      ensures !failed ==> Idle()
      ensures !failed ==> (net.collector.running <==> nextJob <= Envelopes.MAX_SESSION_SEQ && nextResult <= Envelopes.MAX_SESSION_SEQ)
      ensures trace == old(trace) + [Ended(failed)]
    {
      hide InOrder, Broken, Settled, May, Next;
      EndStep(setup, mon, failed);
      if failed {
        Stop();
      } else {
        Finish();
      }
    }

    method Stop()
      requires Broken() && mon.phase.Handling? && May(setup, mon, Ended(true))
      modifies this`turn, this`trace, this`mon, this`net, this`steps
      ensures Broken() && !net.collector.running
      ensures trace == old(trace) + [Ended(true)] && mon == Next(setup, old(mon), Ended(true))
    {
      hide Watch, May, Next, P.Exec, P.Init, Received, Count, R.TableOk, R.Grows;
      EndStep(setup, mon, true);
      Emit(Ended(true));
      Others();
      Advance(P.CollectorStop);
    }

    method Finish()
      requires InOrder() && mon.phase.Handling? && mon.phase.todo == [] && May(setup, mon, Ended(false))
      modifies this`turn, this`trace, this`mon, this`net, this`steps
      ensures Settled()
      ensures net.collector.running <==> nextJob <= Envelopes.MAX_SESSION_SEQ && nextResult <= Envelopes.MAX_SESSION_SEQ
      ensures trace == old(trace) + [Ended(false)] && mon == Next(setup, old(mon), Ended(false))
    {
      hide Watch, May, Next, P.Exec, P.Init, P.Apply, Received, Count, R.TableOk, R.Grows, CodecOk;
      EndStep(setup, mon, false);
      P.ReachableInv(id, steps);
      NumbersBounded(net);
      Emit(Ended(false));
      Others();
      FinishStep(net);
      Advance(P.CollectorFinish);
    }

    // ----- the whole run

    /** One envelope of the loop: dropped unless it opens under the next number. */
    method Receive(e: Envelopes.Envelope) returns (failed: bool)
      requires Idle() && net.collector.running && setup.level <= 1
      modifies this, engine`values, audit
      ensures received == old(received) + [e]
      ensures failed ==> Broken() && mon.phase.Dead? && mon.files == files && Excused()
      ensures !failed ==> Idle() && (!net.collector.running ==> nextJob > Envelopes.MAX_SESSION_SEQ || nextResult > Envelopes.MAX_SESSION_SEQ)
      ensures files.paths == setup.files.paths && old(files.allowed) <= files.allowed && old(trace) <= trace
      ensures setup.level == 0 ==> files == old(files)
    {
      hide Settled, InOrder, Broken, Tasks, Envelopes.OpenSession;
      BetweenEnvelopes();
      var opening := Envelopes.OpenSession(net.jobLog, e, id, nextJob, Envelopes.MAX_JOB_BYTES);
      if !opening.Plain? {
        Drop(e);
        return false;
      }
      Begin(e, opening.plaintext);
      failed := Handle(e.kind, codec.decode(opening.plaintext));
    }

    /** The MCP goes on between envelopes. */
    method BetweenEnvelopes()
      requires Settled()
      modifies this`turn, this`net, this`steps
      ensures Settled() && net.collector == old(net.collector)
    {
      hide Watch, P.Exec, P.Init, Received, Count, R.TableOk, CodecOk;
      Others();
    }

    /** An envelope that does not open changes nothing. */
    method Drop(e: Envelopes.Envelope)
      requires Settled() && !Envelopes.OpenSession(net.jobLog, e, id, nextJob, Envelopes.MAX_JOB_BYTES).Plain?
      modifies this`net, this`steps, this`received
      ensures Settled() && net == old(net) && received == old(received) + [e]
    {
      hide Watch, P.Exec, P.Init, P.Apply, Received, Count, R.TableOk, CodecOk, Envelopes.OpenSession;
      DropStep(net, e);
      Take(e);
    }

    /** What the whole run's contract says about the protocol follows from the invariants. */
    lemma Conclude()
      requires Watched() && Reached() && Recorded()
      ensures AllSealed(trace, net.jobLog, codec.decode) && mon.results == Results(trace)
    {
      hide Watch, P.Exec, P.Init, Sealed, Received;
      OneResultPerJob(setup, trace);
      P.ReachableInv(id, steps);
      forall k | 0 <= k < |trace| && trace[k].Began?
        ensures Sealed(trace[k], net.jobLog, codec.decode)
      {
        BegunInTrace(setup, trace, k);
        HandledSealed(net, trace[k], codec.decode);
      }
    }

    /** Envelopes as they come in, with the MCP going on in between. What does not open under
        the next number is dropped; a failure ends the run. In every case the trace is
        accepted, so the theorems of ServeRuns hold of it; the endpoints' state is reached by
        a run of the protocol, so the theorems of Protocol hold of it; every envelope handled
        was sealed by the MCP under its number, and what is sealed under the result key are
        the posted results in order; and the counters are right. */
    method Loop(envelopes: seq<Envelopes.Envelope>) returns (failed: bool, taken: nat)
      requires Idle() && net.collector.running && trace == [] && received == [] && files == setup.files && setup.level <= 1
      modifies this, engine`values, audit
      ensures Accepted(setup, trace) && Watch(setup, trace).value == mon && !mon.phase.Handling? && mon.files == files
      ensures files.paths == setup.files.paths && (setup.level == 0 ==> files == setup.files)
      ensures taken <= |envelopes| && net == P.Exec(P.Init(id), steps) && Received(steps) == envelopes[..taken]
      ensures !failed ==> taken == |envelopes| || nextJob > Envelopes.MAX_SESSION_SEQ || nextResult > Envelopes.MAX_SESSION_SEQ
      ensures Recorded() && nextJob == net.collector.nextJob
      ensures AllSealed(trace, net.jobLog, codec.decode)
      ensures jobs == nextResult - 1 >= sent + denied + rejected
      ensures failed ==> Excused() && mon.phase.Dead?
      ensures !failed ==> nextResult == net.collector.nextResult && |net.resultLog| == jobs == |Results(trace)|
      ensures !failed ==> sent == Count(Results(trace), StOk) && denied == Count(Results(trace), StDenied) && rejected == Count(Results(trace), StRejected)
    {
      hide Watch, P.Exec, P.Init, Received, Recorded, Count, R.TableOk, R.Grows, CodecOk, AllSealed;
      failed, taken := false, 0;
      while taken < |envelopes| && net.collector.running
        invariant taken <= |envelopes| && received == envelopes[..taken]
        invariant Idle() && (setup.level == 0 ==> files == setup.files)
        invariant !net.collector.running ==> nextJob > Envelopes.MAX_SESSION_SEQ || nextResult > Envelopes.MAX_SESSION_SEQ
        modifies this, engine`values, audit
        decreases |envelopes| - taken
      {
        taken := taken + 1;
        failed := Receive(envelopes[taken - 1]);
        assert envelopes[..taken] == envelopes[..taken - 1] + [envelopes[taken - 1]];
        if failed {
          Conclude();
          return;
        }
      }
      assert envelopes[..|envelopes|] == envelopes;
      Conclude();
      CountsAddUp(mon.results);
    }
  }

  // ----- the protocol's steps

  /** The envelopes that reached the collector in a run of the protocol. */
  function Received(steps: seq<P.Step>): seq<Envelopes.Envelope> {
    if steps == [] then []
    else Received(steps[..|steps| - 1]) + if steps[|steps| - 1].CollectorReceive? then [steps[|steps| - 1].e] else []
  }

  lemma ReceivedStep(steps: seq<P.Step>, s: P.Step)
    ensures Received(steps + [s]) == Received(steps) + if s.CollectorReceive? then [s.e] else []
  {
    assert (steps + [s])[..|steps|] == steps;
  }

  lemma {:induction false} McpReceivesNothing(steps: seq<P.Step>, more: seq<P.Step>)
    requires forall i :: 0 <= i < |more| ==> P.IsMcpStep(more[i])
    ensures Received(steps + more) == Received(steps)
    decreases |more|
  {
    if more == [] {
      assert steps + more == steps;
    } else {
      var n := |more| - 1;
      McpReceivesNothing(steps, more[..n]);
      ReceivedStep(steps + more[..n], more[n]);
      assert (steps + more[..n]) + [more[n]] == steps + more;
    }
  }

  lemma OpenStep(w: P.World, e: Envelopes.Envelope, plaintext: Bytes)
    requires w.collector.running && !w.collector.busy
    requires Envelopes.OpenSession(w.jobLog, e, w.id, w.collector.nextJob, Envelopes.MAX_JOB_BYTES) == Envelopes.Plain(plaintext)
    ensures P.Apply(w, P.CollectorReceive(e)) ==
            w.(collector := w.collector.(busy := true, current := w.collector.nextJob, nextJob := w.collector.nextJob + 1),
               handled := w.handled + [P.Job(e.kind, plaintext)])
  {
  }

  lemma DropStep(w: P.World, e: Envelopes.Envelope)
    requires !Envelopes.OpenSession(w.jobLog, e, w.id, w.collector.nextJob, Envelopes.MAX_JOB_BYTES).Plain?
    ensures P.Apply(w, P.CollectorReceive(e)) == w
  {
  }

  lemma SendStep(w: P.World, data: Bytes, cipher: Bytes, post: P.Post)
    requires w.collector.running && w.collector.busy && w.collector.nextResult <= Envelopes.MAX_SESSION_SEQ
    requires |cipher| == |data| + Envelopes.TAG_BYTES
    requires Envelopes.SealSession(w.id, w.collector.nextResult, Envelopes.CLASS_READ, data, cipher, Envelopes.MAX_RESULT_BYTES).Some?
    ensures var v := P.Apply(w, P.CollectorSend(data, cipher, post));
            && |v.resultLog| == |w.resultLog| + 1 && v.resultLog[..|w.resultLog|] == w.resultLog && v.resultLog[|w.resultLog|].plaintext == data
            && v.handled == w.handled && v.collector.nextJob == w.collector.nextJob
            && (post.Delivered? ==> v.collector == w.collector.(nextResult := w.collector.nextResult + 1))
  {
    hide Envelopes.SealSession;
  }

  lemma FinishStep(w: P.World)
    requires w.collector.running && w.collector.busy
    ensures P.Apply(w, P.CollectorFinish) ==
            w.(collector := w.collector.(busy := false,
               running := !(w.collector.current == Envelopes.MAX_SESSION_SEQ || w.collector.nextResult > Envelopes.MAX_SESSION_SEQ)))
  {
  }

  /** The collector never handled more envelopes than there are numbers. */
  lemma NumbersBounded(w: P.World)
    requires P.Inv(w)
    ensures w.collector.nextJob <= Envelopes.MAX_SESSION_SEQ + 1
  {
    hide P.ResultsOk, P.ConsumedOk, P.AcceptedOk;
    if |w.handled| > 0 {
      var i := |w.handled| - 1;
      assert P.SealedJob(w, i + 1, w.handled[i]);
    }
  }

  lemma SealsIfFits(id: Envelopes.SessionID, number: nat, data: Bytes, cipher: Bytes)
    requires 1 <= number <= Envelopes.MAX_SESSION_SEQ && data != [] && |cipher| == |data| + Envelopes.TAG_BYTES
    ensures Envelopes.SealSession(id, number, Envelopes.CLASS_READ, data, cipher, Envelopes.MAX_RESULT_BYTES).Some? <==> FitsEnvelope(data)
  {
    Envelopes.ParseSessionIDExact(Envelopes.IDString(id), id);
  }

  /** An envelope in the trace was sealed by the MCP under its number. */
  ghost predicate Sealed(e: Event, log: seq<Envelopes.Sealing>, decode: Bytes -> Incoming)
    requires e.Began?
  {
    exists r :: r in log && r.envelope.number == e.number && r.envelope.kind == e.kind && decode(r.plaintext) == e.incoming
  }

  ghost predicate AllSealed(t: seq<Event>, log: seq<Envelopes.Sealing>, decode: Bytes -> Incoming) {
    forall k :: 0 <= k < |t| && t[k].Began? ==> Sealed(t[k], log, decode)
  }

  lemma HandledSealed(w: P.World, e: Event, decode: Bytes -> Incoming)
    requires P.Inv(w) && e.Began? && 1 <= e.number <= |w.handled|
    requires Opening(e.kind, e.incoming) == Opening(w.handled[e.number - 1].kind, decode(w.handled[e.number - 1].plaintext))
    ensures Sealed(e, w.jobLog, decode)
  {
    hide P.JobsOk, P.ResultsOk, P.ConsumedOk, P.AcceptedOk;
    assert P.SealedJob(w, e.number, w.handled[e.number - 1]);
  }

  /** What an envelope asks for: one answer for a malformed message or plan, and otherwise one
      per job, in order. A plan is malformed without a valid identifier, with parameters that
      do not decode, with no job or more than 40, or with a plan in it. */
  lemma TaskCases(incoming: Incoming)
    ensures match incoming
            case Garbage(id) => Tasks(incoming) == [Task(id, None)]
            case Single(job) => Tasks(incoming) == JobTasks([job])
            case Plan(id, decoded, jobs) =>
              Tasks(incoming) == if ValidJobID(id) && decoded && 1 <= |jobs| <= 40 && (forall i :: 0 <= i < |jobs| ==> jobs[i].name != "plan") then JobTasks(jobs) else [Task(id, None)]
  {
  }

  // ----- monitor steps, one by one

  lemma BeginStep(s: Setup, m: Monitor, kind: int, incoming: Incoming, at: nat)
    requires m.phase.Waiting? && m.now <= at
    ensures var e := Began(|m.begun| + 1, kind, incoming, at);
            && May(s, m, e)
            && Next(s, m, e) == m.(begun := m.begun + [Opening(kind, incoming)], now := at, phase := Fresh(s, m.files, kind, incoming, at))
  {
    hide Fresh;
  }

  lemma QuietStep(s: Setup, m: Monitor, e: Event)
    requires May(s, m, e) && (e.Asked? || e.Added? || e.AddedOnce?)
    ensures m.phase.Handling?
    ensures var n := Next(s, m, e); n.phase.Handling? && n.begun == m.begun && n.results == m.results && n.table == m.table
  {
    hide AllJustified, OnceOffered, AllDirsOffered, AllNamesOffered;
  }

  lemma PostStep(s: Setup, m: Monitor, number: nat, r: Result, saved: map<string, string>, at: nat)
    requires m.phase.Handling? && m.phase.todo != [] && m.phase.todo[0].id == r.id && m.now <= at
    requires number == |m.results| + 1 && number <= Envelopes.MAX_SESSION_SEQ && Fits(s, at, m.files, m.phase, r) && SavedFor(m.table, saved)
    ensures var e := Posted(number, r, saved, at);
            && May(s, m, e)
            && Next(s, m, e) == m.(now := at, results := m.results + [r], phase := m.phase.(todo := m.phase.todo[1..], ran := false, lines := []))
  {
    hide Fits, SavedFor;
  }

  lemma PostedStep(s: Setup, m: Monitor, e: Event)
    requires May(s, m, e) && e.Posted?
    ensures m.phase.Handling?
    ensures var n := Next(s, m, e); n.phase.Handling? && n.begun == m.begun && n.results == m.results + [e.result] && n.table == m.table
  {
    hide Fits, SavedFor;
  }

  lemma RanFits(s: Setup, at: nat, m: Monitor, r: Result)
    requires m.phase.Handling? && m.phase.todo != [] && m.phase.ran
    requires ((r.status == StOk || r.status == StError) && r.lines <= m.phase.lines) || (r.status == StDenied && r.lines == [] && s.level == 1)
    ensures Fits(s, at, m.files, m.phase, r)
  {
  }

  lemma RunStep(s: Setup, m: Monitor, job: Job, paths: seq<Path>, raw: seq<string>, at: nat)
    requires m.phase.Handling? && m.phase.todo != [] && m.phase.todo[0] == Task(job.id, Some(job)) && !m.phase.ran && m.now <= at
    requires m.phase.verdict != Deny && Validated(s, Window(m.phase.since, at), m.phase.first, Granting(m.phase, m.files), m.files, job, m.phase.kind, paths)
    ensures var e := Ran(job, paths, raw, at); var r := R.RedactFrom(s.env, s.rules, m.table, raw, 0);
            && May(s, m, e)
            && Next(s, m, e) == m.(now := at, table := r.table, phase := m.phase.(ran := true, lines := E.RenderAll(r.out)))
  {
    hide Validated, R.RedactFrom, E.RenderAll;
  }

  lemma RanStep(s: Setup, m: Monitor, e: Event)
    requires May(s, m, e) && e.Ran?
    ensures m.phase.Handling?
    ensures var n := Next(s, m, e);
            && n.phase.Handling? && n.begun == m.begun && n.results == m.results
            && n.table == R.RedactFrom(s.env, s.rules, m.table, e.raw, 0).table
  {
    hide Validated, R.RedactFrom, E.RenderAll;
  }

  lemma AskStep(s: Setup, m: Monitor, ws: seq<Widening>, v: Verdict, at: nat)
    requires m.phase.Handling? && !m.phase.asked && s.level == 1 && (v == Once ==> OnceOffered(ws)) && m.now <= at
    requires AllJustified(s, Window(m.phase.since, at), m.files, m.phase.todo, ws)
    ensures May(s, m, Asked(ws, v, at))
    ensures Next(s, m, Asked(ws, v, at)) == m.(now := at, phase := m.phase.(asked := true, offers := ws, verdict := v))
  {
    hide AllJustified, OnceOffered;
  }

  lemma GrantStep(s: Setup, m: Monitor, extra: seq<Path>, once: bool)
    requires m.phase.Handling? && m.phase.asked && m.phase.verdict == if once then Once else Approve
    requires if once then AllNamesOffered(m.phase.offers, extra) else AllDirsOffered(m.phase.offers, extra)
    ensures once ==> May(s, m, AddedOnce(extra)) && Next(s, m, AddedOnce(extra)) == m.(files := m.files.(paths := m.files.paths + extra))
    ensures !once ==> May(s, m, Added(extra)) && Next(s, m, Added(extra)) == m.(files := m.files.(allowed := m.files.allowed + extra))
  {
    hide AllNamesOffered, AllDirsOffered;
  }

  lemma EndStep(s: Setup, m: Monitor, failed: bool)
    requires m.phase.Handling? && (failed || m.phase.todo == [])
    ensures May(s, m, Ended(failed))
    ensures Next(s, m, Ended(failed)) == m.(files := m.files.(paths := s.files.paths), phase := if failed then Dead else Waiting)
  {
  }

  // ----- rows, one by one

  lemma NothingPrepared(s: Setup, span: Window, files: Files, todo: seq<Job>, kind: int)
    ensures RowsCleared(s, span, files, false, todo[..0], kind, files, []) && Linked([], [], []) && OffersJustified(s, span, files, todo, [])
  {
  }

  lemma RowAdded(s: Setup, span: Window, todo: seq<Job>, kind: int, files: Files, rows: seq<Row>, r: Row, i: nat)
    requires i < |todo| && |rows| == i && RowsCleared(s, span, files, false, todo[..i], kind, files, rows)
    requires RowOk(s, span, files, false, todo[i], kind, files, r)
    ensures RowsCleared(s, span, files, false, todo[..i + 1], kind, files, rows + [r])
  {
    hide RowOk;
  }

  /** A row prepared again at a moment of the window, in the wider scope. */
  lemma RowAgain(s: Setup, span: Window, first: Files, job: Job, kind: int, files: Files, at: nat)
    requires During(span, at)
    ensures var p := PrepareIn(s.world(at), files, job, kind);
            RowOk(s, span, first, true, job, kind, files, if p.Ready? then Clear(p.paths) else Faulty)
  {
    hide PrepareIn, Validated, Refusable;
    var p := PrepareIn(s.world(at), files, job, kind);
    if p.Ready? {
      ReadyAgain(s, span, first, files, job, kind, p.paths, at);
    } else {
      RefusedAgain(s, span, first, files, job, kind, at);
    }
  }

  lemma LinkPending(rows: seq<Row>, rowJob: seq<nat>, ws: seq<Widening>, w: Widening)
    requires Linked(rows, rowJob, ws) && w.row == |rowJob| + 1
    ensures Linked(rows + [Pending], rowJob + [|rows|], ws + [w])
  {
    LinkMore(rows, rowJob, ws, w, Pending);
    var all := ws + [w];
    assert RowOf(rowJob + [|rows|], all[|ws|], |rows|);
  }

  lemma LinkMore(rows: seq<Row>, rowJob: seq<nat>, ws: seq<Widening>, w: Widening, r: Row)
    requires Linked(rows, rowJob, ws)
    ensures forall i :: 0 <= i < |rows| && (rows + [r])[i].Pending? ==>
              exists k :: 0 <= k < |ws| && RowOf(rowJob + [|rows|], ws[k], i) && (ws + [w])[k] == ws[k]
  {
    forall i | 0 <= i < |rows| && (rows + [r])[i].Pending?
      ensures exists k :: 0 <= k < |ws| && RowOf(rowJob + [|rows|], ws[k], i) && (ws + [w])[k] == ws[k]
    {
      var k :| 0 <= k < |ws| && RowOf(rowJob, ws[k], i);
      assert RowOf(rowJob + [|rows|], ws[k], i);
    }
  }

  lemma LinkClear(rows: seq<Row>, rowJob: seq<nat>, ws: seq<Widening>, r: Row)
    requires Linked(rows, rowJob, ws) && r.Clear?
    ensures Linked(rows + [r], rowJob + [|rows|], ws)
  {
    LinkMore(rows, rowJob, ws, Widening(0, [], []), r);
  }

  lemma LinkFaulty(rows: seq<Row>, rowJob: seq<nat>, ws: seq<Widening>)
    requires Linked(rows, rowJob, ws)
    ensures Linked(rows + [Faulty], rowJob, ws)
  {
    forall i | 0 <= i < |rows| + 1 && (rows + [Faulty])[i].Pending?
      ensures exists k :: 0 <= k < |ws| && RowOf(rowJob, ws[k], i)
    {
      assert rows[i].Pending?;
    }
  }

  lemma OfferAdded(s: Setup, span: Window, files: Files, todo: seq<Job>, ws: seq<Widening>, w: Widening, i: nat)
    requires OffersJustified(s, span, files, todo, ws) && i < |todo| && Justified(s, span, files, todo[i], w)
    ensures OffersJustified(s, span, files, todo, ws + [w])
  {
    hide Justified;
    assert OfferJustified(s, span, files, todo, w);
  }
}

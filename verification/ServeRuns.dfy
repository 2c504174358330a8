/** What a live session may be seen to do. A run is a trace of events; a monitor says which
    event may come next. The theorems here hold of every trace the monitor accepts, and the
    session class is proved to produce no other. */
module ServeRuns {
  import opened Base
  import opened ServeScope
  import R = Redaction
  import E = RedactEngine
  import Envelopes

  datatype Status = StOk | StError | StDenied | StRejected
  datatype Result = Result(id: string, status: Status, lines: seq<string>)
  datatype Verdict = Deny | Approve | Once

  /** A row outside the scope, with the two grants that would let it run. */
  datatype Widening = Widening(row: nat, dirs: seq<Path>, paths: seq<Path>)

  /** An authenticated job after decoding. `decoded` says whether a plan's parameters were. */
  datatype Incoming = Garbage(id: string) | Single(job: Job) | Plan(id: string, decoded: bool, jobs: seq<Job>)

  const MAX_PLAN := 40

  predicate Nested(jobs: seq<Job>) { exists i :: 0 <= i < |jobs| && jobs[i].name == "plan" }

  predicate GoodPlan(id: string, decoded: bool, jobs: seq<Job>) {
    ValidJobID(id) && decoded && 1 <= |jobs| <= MAX_PLAN && !Nested(jobs)
  }

  /** What has to be answered: a job, or a message that can only be rejected. */
  datatype Task = Task(id: string, job: Option<Job>)

  function JobTasks(jobs: seq<Job>): (ts: seq<Task>)
    ensures |ts| == |jobs| && forall i :: 0 <= i < |jobs| ==> ts[i] == Task(jobs[i].id, Some(jobs[i]))
  {
    seq(|jobs|, i requires 0 <= i < |jobs| => Task(jobs[i].id, Some(jobs[i])))
  }

  function Tasks(incoming: Incoming): seq<Task> {
    match incoming
    case Garbage(id) => [Task(id, None)]
    case Single(job) => JobTasks([job])
    case Plan(id, decoded, jobs) => if GoodPlan(id, decoded, jobs) then JobTasks(jobs) else [Task(id, None)]
  }

  // ----- traces

  /** `at` is the moment of an event. A run gives the lines `raw`; `saved` is the mapping
      in the local copy when a result is posted. */
  datatype Event =
    | Began(number: nat, kind: int, incoming: Incoming, at: nat)
    | Asked(offers: seq<Widening>, verdict: Verdict, at: nat)
    | Added(dirs: seq<Path>)
    | AddedOnce(names: seq<Path>)
    | Ran(job: Job, paths: seq<Path>, raw: seq<string>, at: nat)
    | Posted(number: nat, result: Result, saved: map<string, string>, at: nat)
    | Ended(failed: bool)

  /** While an envelope is handled: since when, in which scope it began, what is still to be
      answered, what the operator said, and whether the job at hand ran, with which lines
      after redaction. */
  datatype Phase =
    | Waiting
    | Handling(kind: int, since: nat, first: Files, todo: seq<Task>,
               asked: bool, offers: seq<Widening>, verdict: Verdict, ran: bool, lines: seq<string>)
    | Dead

  datatype Opening = Opening(kind: int, incoming: Incoming)

  /** `begun` are the envelopes so far, `table` the redaction engine's, `now` the last
      moment seen. */
  datatype Monitor = Monitor(files: Files, begun: seq<Opening>, results: seq<Result>, table: R.Table, now: nat, phase: Phase)

  /** What a session is given: its level, its first scope, the file system at each moment of
      the run, and its redaction rules. */
  datatype Setup = Setup(level: nat, files: Files, world: nat -> FS, rules: seq<R.Rule>, env: R.Env)

  /** Moments of an envelope: from its beginning up to, and without, the present. */
  datatype Window = Window(lo: nat, hi: nat)

  predicate During(w: Window, k: nat) { w.lo <= k < w.hi }

  predicate GrantedDirs(s: Setup, job: Job, w: Widening, k: nat) {
    ScopeGrant(s.world(k), RequestedDir(job)) == Some(w.dirs)
  }

  predicate GrantedNames(s: Setup, job: Job, w: Widening, k: nat) {
    RequestedName(job).Some? && PathGrant(s.world(k), RequestedName(job).value) == Some(w.paths)
  }

  /** A widening offers what a job outside the scope asked for, in the forms the file system
      gave at a moment of this envelope: its directory, and its own name if that is enough. */
  ghost predicate Justified(s: Setup, span: Window, files: Files, job: Job, w: Widening) {
    && OutsideRequest(files, job)
    && (exists k: nat :: During(span, k) && GrantedDirs(s, job, w, k))
    && (w.paths != [] ==> exists k: nat :: During(span, k) && GrantedNames(s, job, w, k))
  }

  ghost predicate JustifiedBy(s: Setup, span: Window, files: Files, todo: seq<Task>, w: Widening) {
    exists j :: 0 <= j < |todo| && todo[j].job.Some? && Justified(s, span, files, todo[j].job.value, w)
  }

  ghost predicate AllJustified(s: Setup, span: Window, files: Files, todo: seq<Task>, offers: seq<Widening>) {
    forall i :: 0 <= i < |offers| ==> JustifiedBy(s, span, files, todo, offers[i])
  }

  function Initial(s: Setup): Monitor { Monitor(s.files, [], [], map[], 0, Waiting) }

  predicate OfferedDir(offers: seq<Widening>, d: Path) {
    exists i :: 0 <= i < |offers| && d in offers[i].dirs
  }

  predicate OfferedName(offers: seq<Widening>, p: Path) {
    exists i :: 0 <= i < |offers| && p in offers[i].paths
  }

  predicate AllDirsOffered(offers: seq<Widening>, dirs: seq<Path>) {
    forall i :: 0 <= i < |dirs| ==> OfferedDir(offers, dirs[i])
  }

  predicate AllNamesOffered(offers: seq<Widening>, names: seq<Path>) {
    forall i :: 0 <= i < |names| ==> OfferedName(offers, names[i])
  }

  /** Every row can be served by single names, so "allow once" may be offered. */
  predicate OnceOffered(offers: seq<Widening>) {
    offers != [] && forall i :: 0 <= i < |offers| ==> offers[i].paths != []
  }

  /** At these moments the job could not be prepared in this scope, nor a widening offered. */
  predicate RefusedAt(s: Setup, scope: Files, job: Job, kind: int, k: nat, l: nat) {
    match PrepareIn(s.world(k), scope, job, kind)
    case Ready(_) => false
    case Invalid => true
    case OutOfScope(dir, _) => s.level == 0 || ScopeGrant(s.world(l), dir).None?
  }

  /** At this moment preparing the job in this scope gave these paths. */
  predicate ReadyAt(s: Setup, scope: Files, job: Job, kind: int, paths: seq<Path>, k: nat) {
    PrepareIn(s.world(k), scope, job, kind) == Ready(paths)
  }

  predicate UnreadyAt(s: Setup, scope: Files, job: Job, kind: int, k: nat) {
    !PrepareIn(s.world(k), scope, job, kind).Ready?
  }

  /** There is a reason to reject a job: during this envelope it failed in the scope the
      envelope began with, or, once something was granted, again in the wider one. */
  ghost predicate Refusable(s: Setup, span: Window, first: Files, granted: bool, files: Files, job: Job, kind: int) {
    || (exists k: nat, l: nat :: During(span, k) && During(span, l) && RefusedAt(s, first, job, kind, k, l))
    || (granted && exists k: nat :: During(span, k) && UnreadyAt(s, files, job, kind, k))
  }

  /** During this envelope the job was prepared with exactly these paths, in the scope the
      envelope began with or, once something was granted, in the wider one. */
  ghost predicate Validated(s: Setup, span: Window, first: Files, granted: bool, files: Files, job: Job, kind: int, paths: seq<Path>) {
    || (exists k: nat :: During(span, k) && ReadyAt(s, first, job, kind, paths, k))
    || (granted && exists k: nat :: During(span, k) && ReadyAt(s, files, job, kind, paths, k))
  }

  /** What the operator agreed to is in the scope: the offered directories, or the names. */
  predicate AllGranted(p: Phase, files: Files)
    requires p.Handling?
  {
    forall i :: 0 <= i < |p.offers| ==>
      && (p.verdict == Approve ==> forall d :: d in p.offers[i].dirs ==> d in files.allowed)
      && (p.verdict == Once ==> forall q :: q in p.offers[i].paths ==> q in files.paths)
  }

  predicate Granting(p: Phase, files: Files)
    requires p.Handling?
  {
    p.asked && p.verdict != Deny && AllGranted(p, files)
  }

  /** A result fits what happened to its job. */
  ghost predicate Fits(s: Setup, at: nat, files: Files, p: Phase, result: Result)
    requires p.Handling? && p.todo != []
  {
    match result.status
    case StOk => p.ran && result.lines <= p.lines
    case StError => p.ran && result.lines <= p.lines
    case StDenied => result.lines == [] && if p.ran then s.level == 1 else p.asked && p.verdict == Deny && p.todo[0].job.Some?
    case StRejected =>
      && result.lines == [] && !p.ran
      && (p.todo[0].job.Some? ==>
            Refusable(s, Window(p.since, at), p.first, Granting(p, files), files, p.todo[0].job.value, p.kind))
  }

  function Redacted(s: Setup, table: R.Table, raw: seq<string>): R.Redacted { R.RedactFrom(s.env, s.rules, table, raw, 0) }

  /** The mapping in the local copy is the engine's. */
  ghost predicate SavedFor(table: R.Table, saved: map<string, string>) {
    R.TableOk(table) && saved == R.MappingOf(table)
  }

  /** What may happen while an envelope is handled. */
  ghost predicate MayHandle(s: Setup, m: Monitor, p: Phase, e: Event)
    requires p.Handling?
  {
    match e
    case Began(_, _, _, _) => false
    case Asked(offers, verdict, at) =>
      && s.level == 1 && !p.asked && (verdict == Once ==> OnceOffered(offers)) && m.now <= at
      && AllJustified(s, Window(p.since, at), m.files, p.todo, offers)
    case Added(dirs) => p.asked && p.verdict == Approve && AllDirsOffered(p.offers, dirs)
    case AddedOnce(names) => p.asked && p.verdict == Once && AllNamesOffered(p.offers, names)
    case Ran(job, paths, raw, at) =>
      && p.todo != [] && p.todo[0] == Task(job.id, Some(job)) && !p.ran && m.now <= at
      && p.verdict != Deny && Validated(s, Window(p.since, at), p.first, Granting(p, m.files), m.files, job, p.kind, paths)
    case Posted(number, result, saved, at) =>
      && p.todo != [] && p.todo[0].id == result.id && m.now <= at
      && number == |m.results| + 1 && number <= Envelopes.MAX_SESSION_SEQ
      && Fits(s, at, m.files, p, result) && SavedFor(m.table, saved)
    case Ended(failed) => failed || p.todo == []
  }

  ghost predicate May(s: Setup, m: Monitor, e: Event) {
    if e.Began? then m.phase.Waiting? && e.number == |m.begun| + 1 && m.now <= e.at
    else m.phase.Handling? && MayHandle(s, m, m.phase, e)
  }

  function Fresh(s: Setup, files: Files, kind: int, incoming: Incoming, at: nat): Phase {
    Handling(kind, at, files, Tasks(incoming), false, [], if s.level == 0 then Approve else Deny, false, [])
  }

  ghost function Next(s: Setup, m: Monitor, e: Event): Monitor
    requires May(s, m, e)
  {
    match e
    case Began(_, kind, incoming, at) =>
      m.(begun := m.begun + [Opening(kind, incoming)], now := at, phase := Fresh(s, m.files, kind, incoming, at))
    case Asked(offers, verdict, at) => m.(now := at, phase := m.phase.(asked := true, offers := offers, verdict := verdict))
    case Added(dirs) => m.(files := m.files.(allowed := m.files.allowed + dirs))
    case AddedOnce(names) => m.(files := m.files.(paths := m.files.paths + names))
    case Ran(_, _, raw, at) =>
      var r := Redacted(s, m.table, raw);
      m.(now := at, table := r.table, phase := m.phase.(ran := true, lines := E.RenderAll(r.out)))
    case Posted(_, result, _, at) =>
      m.(now := at, results := m.results + [result], phase := m.phase.(todo := m.phase.todo[1..], ran := false, lines := []))
    case Ended(failed) =>
      m.(files := m.files.(paths := s.files.paths), phase := if failed then Dead else Waiting)
  }

  /** The monitor after a trace, if it accepts it. */
  ghost function Watch(s: Setup, t: seq<Event>): Option<Monitor> {
    if t == [] then Some(Initial(s))
    else match Watch(s, t[..|t| - 1])
      case None => None
      case Some(m) => if May(s, m, t[|t| - 1]) then Some(Next(s, m, t[|t| - 1])) else None
  }

  ghost predicate Accepted(s: Setup, t: seq<Event>) { Watch(s, t).Some? }

  lemma WatchStep(s: Setup, t: seq<Event>, e: Event)
    requires Accepted(s, t) && May(s, Watch(s, t).value, e)
    ensures Watch(s, t + [e]) == Some(Next(s, Watch(s, t).value, e))
  {
    hide May, Next;
    assert (t + [e])[..|t|] == t;
  }

  lemma {:induction false} AcceptedPrefix(s: Setup, t: seq<Event>, k: nat)
    requires Accepted(s, t) && k <= |t|
    ensures Accepted(s, t[..k])
    ensures k < |t| ==> May(s, Watch(s, t[..k]).value, t[k]) && Watch(s, t[..k + 1]) == Some(Next(s, Watch(s, t[..k]).value, t[k]))
  {
    hide May, Next;
    if k == |t| {
      assert t[..k] == t;
    } else {
      var front := t[..|t| - 1];
      if k < |front| {
        AcceptedPrefix(s, front, k);
        assert front[..k] == t[..k] && front[..k + 1] == t[..k + 1];
      } else {
        assert t[..k] == front && t[..k + 1] == t;
      }
    }
  }

  // ----- what accepted traces look like

  /** No envelope began or ended strictly between the two positions. */
  predicate Quiet(t: seq<Event>, j: nat, k: nat)
    requires k <= |t|
  {
    forall i :: j < i < k ==> !t[i].Began? && !t[i].Ended?
  }

  /** Position j holds the operator's answer to the envelope that is handled at k. */
  predicate AnsweredAt(t: seq<Event>, j: nat, k: nat) {
    j < k <= |t| && t[j].Asked? && Quiet(t, j, k)
  }

  /** The monitor's record of the answer is the answer in the trace. */
  ghost predicate AnswerRecorded(t: seq<Event>, p: Phase) {
    p.Handling? && p.asked ==> exists j: nat :: AnsweredAt(t, j, |t|) && t[j].offers == p.offers && t[j].verdict == p.verdict
  }

  ghost predicate NotAskedIsDefault(s: Setup, p: Phase) {
    p.Handling? && !p.asked ==> p.verdict == (if s.level == 0 then Approve else Deny)
  }

  lemma AnswerStays(t: seq<Event>, e: Event, j: nat)
    requires AnsweredAt(t, j, |t|) && !e.Began? && !e.Ended?
    ensures AnsweredAt(t + [e], j, |t| + 1) && (t + [e])[j] == t[j]
  {
  }

  lemma AnswerKept(s: Setup, t: seq<Event>, m: Monitor, e: Event)
    requires AnswerRecorded(t, m.phase) && NotAskedIsDefault(s, m.phase) && May(s, m, e)
    ensures AnswerRecorded(t + [e], Next(s, m, e).phase) && NotAskedIsDefault(s, Next(s, m, e).phase)
  {
    hide AllJustified, Quiet, OnceOffered, AllDirsOffered, AllNamesOffered, Validated, Fits, SavedFor, Redacted, Tasks;
    if e.Asked? {
      NewAnswer(t, e);
    } else if m.phase.Handling? && m.phase.asked && !e.Began? && !e.Ended? {
      var j: nat :| AnsweredAt(t, j, |t|) && t[j].offers == m.phase.offers && t[j].verdict == m.phase.verdict;
      AnswerStays(t, e, j);
    }
  }

  lemma NewAnswer(t: seq<Event>, e: Event)
    requires e.Asked?
    ensures AnsweredAt(t + [e], |t|, |t| + 1)
  {
  }

  lemma {:induction false} AnswerInTrace(s: Setup, t: seq<Event>)
    requires Accepted(s, t)
    ensures AnswerRecorded(t, Watch(s, t).value.phase) && NotAskedIsDefault(s, Watch(s, t).value.phase)
  {
    hide AnswerRecorded, NotAskedIsDefault, May, Next;
    if t == [] {
      StartRecorded(s);
    } else {
      var n := |t| - 1;
      AnswerInTrace(s, t[..n]);
      AnswerKept(s, t[..n], Watch(s, t[..n]).value, t[n]);
      assert t[..n] + [t[n]] == t;
    }
  }

  lemma StartRecorded(s: Setup)
    ensures AnswerRecorded([], Initial(s).phase) && NotAskedIsDefault(s, Initial(s).phase)
  {
  }

  /** The scope grows only at level 1, only after the operator approved this very
      envelope, and only by directories offered on that screen; single names only after
      "allow once", and only names that were offered. */
  lemma GrantsWereOffered(s: Setup, t: seq<Event>, k: nat)
    requires Accepted(s, t) && k < |t| && (t[k].Added? || t[k].AddedOnce?)
    ensures s.level == 1
    ensures exists j: nat ::
              && AnsweredAt(t, j, k)
              && (t[k].Added? ==> t[j].verdict == Approve && AllDirsOffered(t[j].offers, t[k].dirs))
              && (t[k].AddedOnce? ==> t[j].verdict == Once && OnceOffered(t[j].offers) && AllNamesOffered(t[j].offers, t[k].names))
  {
    hide AllJustified, Next, OnceOffered, AllDirsOffered, AllNamesOffered, Watch, Quiet;
    AcceptedPrefix(s, t, k);
    var u := t[..k];
    AnswerInTrace(s, u);
    var m := Watch(s, u).value;
    var j: nat :| AnsweredAt(u, j, |u|) && u[j].offers == m.phase.offers && u[j].verdict == m.phase.verdict;
    AnsweredPrefix(t, j, k);
    AcceptedPrefix(s, t, j);
  }

  /** What the operator is shown was asked for by a job of this envelope, outside the
      scope of that moment. */
  lemma OffersAreRequests(s: Setup, t: seq<Event>, k: nat, i: nat)
    requires Accepted(s, t) && k < |t| && t[k].Asked? && i < |t[k].offers|
    ensures Accepted(s, t[..k]) && Watch(s, t[..k]).value.phase.Handling?
    ensures var m := Watch(s, t[..k]).value;
            exists j :: 0 <= j < |m.phase.todo| && m.phase.todo[j].job.Some? &&
                        Justified(s, Window(m.phase.since, t[k].at), m.files, m.phase.todo[j].job.value, t[k].offers[i])
  {
    hide Next, Watch, Justified;
    AcceptedPrefix(s, t, k);
    var m := Watch(s, t[..k]).value;
    assert JustifiedBy(s, Window(m.phase.since, t[k].at), m.files, m.phase.todo, t[k].offers[i]);
  }

  lemma AnsweredPrefix(t: seq<Event>, j: nat, k: nat)
    requires k <= |t| && AnsweredAt(t[..k], j, k)
    ensures AnsweredAt(t, j, k) && j < k && t[j] == t[..k][j] && t[j].Asked?
  {
  }

  /** Before a job of an envelope runs at level 1, the operator answered that envelope
      with something other than "deny". */
  lemma RanWasApproved(s: Setup, t: seq<Event>, k: nat)
    requires Accepted(s, t) && k < |t| && t[k].Ran? && s.level != 0
    ensures exists j: nat :: AnsweredAt(t, j, k) && t[j].verdict != Deny
  {
    hide Next, Validated, Watch, Quiet;
    AcceptedPrefix(s, t, k);
    var u := t[..k];
    AnswerInTrace(s, u);
    var m := Watch(s, u).value;
    assert m.phase.asked;
    var j: nat :| AnsweredAt(u, j, |u|) && u[j].offers == m.phase.offers && u[j].verdict == m.phase.verdict;
    AnsweredPrefix(t, j, k);
  }

  // ----- the scope

  /** Directories added by a trace, in order. */
  function AddedDirs(t: seq<Event>): seq<Path> {
    if t == [] then []
    else AddedDirs(t[..|t| - 1]) + if t[|t| - 1].Added? then t[|t| - 1].dirs else []
  }

  /** Names added since the last envelope ended. */
  function AddedNames(t: seq<Event>): seq<Path> {
    if t == [] || t[|t| - 1].Ended? then []
    else AddedNames(t[..|t| - 1]) + if t[|t| - 1].AddedOnce? then t[|t| - 1].names else []
  }

  lemma FilesStep(s: Setup, m: Monitor, e: Event)
    requires May(s, m, e)
    ensures Next(s, m, e).files ==
            match e
            case Added(dirs) => m.files.(allowed := m.files.allowed + dirs)
            case AddedOnce(names) => m.files.(paths := m.files.paths + names)
            case Ended(_) => m.files.(paths := s.files.paths)
            case _ => m.files
  {
    hide AllJustified, OnceOffered, AllDirsOffered, AllNamesOffered, Validated, Fits, SavedFor, Redacted, Tasks;
  }

  lemma Assoc<T>(a: seq<T>, b: seq<T>, c: seq<T>)
    ensures (a + b) + c == a + (b + c)
    ensures a + (b + []) == a + b
    ensures a + [] == a
  {
  }

  /** At every moment the scope is the first scope, the directories added so far, and the
      names added for the envelope being handled; nothing else. */
  lemma {:induction false} ScopeIsGrants(s: Setup, t: seq<Event>)
    requires Accepted(s, t)
    ensures Watch(s, t).value.files == Files(s.files.allowed + AddedDirs(t), s.files.paths + AddedNames(t))
  {
    hide May, Next;
    if t == [] {
      Assoc(s.files.allowed, [], []);
      Assoc(s.files.paths, [], []);
    } else {
      var front, e := t[..|t| - 1], t[|t| - 1];
      ScopeIsGrants(s, front);
      FilesStep(s, Watch(s, front).value, e);
      Assoc(s.files.allowed, AddedDirs(front), if e.Added? then e.dirs else []);
      Assoc(s.files.paths, AddedNames(front), if e.AddedOnce? then e.names else []);
    }
  }

  // ----- what runs was validated

  ghost predicate Widened(m: Monitor) {
    m.phase.Handling? ==> Wider(m.phase.first, m.files) && m.phase.since <= m.now
  }

  /** While an envelope is handled its scope only widens, and its moments lie behind `now`. */
  lemma {:induction false} HandlingWidens(s: Setup, t: seq<Event>)
    requires Accepted(s, t)
    ensures Widened(Watch(s, t).value)
  {
    hide AllJustified, OnceOffered, AllDirsOffered, AllNamesOffered, Validated, Fits, SavedFor, Redacted, Tasks;
    if t != [] {
      HandlingWidens(s, t[..|t| - 1]);
    }
  }

  /** Every job that ran had been prepared, at a moment between the beginning of its envelope
      and its run and in a scope no wider than the one in force, with exactly the paths it
      ran with: its parameters were valid and nothing was substituted. */
  lemma RanWasValidated(s: Setup, t: seq<Event>, k: nat) returns (scope: Files, moment: nat)
    requires Accepted(s, t) && k < |t| && t[k].Ran?
    ensures Accepted(s, t[..k]) && Watch(s, t[..k]).value.phase.Handling?
    ensures var m := Watch(s, t[..k]).value;
            && Wider(scope, m.files) && m.phase.since <= moment < t[k].at
            && PrepareIn(s.world(moment), scope, t[k].job, m.phase.kind) == Ready(t[k].paths)
  {
    hide Next, Watch, Wider, PrepareIn;
    AcceptedPrefix(s, t, k);
    HandlingWidens(s, t[..k]);
    var m := Watch(s, t[..k]).value;
    var p, e := m.phase, t[k];
    var span := Window(p.since, e.at);
    if j: nat :| During(span, j) && ReadyAt(s, p.first, e.job, p.kind, e.paths, j) {
      return p.first, j;
    }
    var j: nat :| During(span, j) && ReadyAt(s, m.files, e.job, p.kind, e.paths, j);
    SameScope(m.files);
    return m.files, j;
  }

  lemma SameScope(f: Files)
    ensures Wider(f, f)
  {
  }

  /** Every path a job ran with is where a name it asks for led, at that moment and inside that
      scope: the name itself, or a match of its glob. */
  lemma RanPathsResolved(s: Setup, t: seq<Event>, k: nat, p: Path) returns (scope: Files, moment: nat, q: Path)
    requires Accepted(s, t) && k < |t| && t[k].Ran? && p in t[k].paths
    ensures Accepted(s, t[..k]) && Watch(s, t[..k]).value.phase.Handling?
    ensures var m := Watch(s, t[..k]).value;
            && Wider(scope, m.files) && m.phase.since <= moment < t[k].at
            && AsksFor(s.world(moment), t[k].job, q) && LeadsTo(s.world(moment), scope, q, p)
  {
    hide Watch, PrepareIn, Wider, AsksFor, LeadsTo;
    scope, moment := RanWasValidated(s, t, k);
    ReadyPathsResolved(s.world(moment), scope, t[k].job, Watch(s, t[..k]).value.phase.kind, p);
    q :| AsksFor(s.world(moment), t[k].job, q) && LeadsTo(s.world(moment), scope, q, p);
  }

  /** Hence its identifier, name, class and parameters were valid and the scope in force
      covers every path. */
  lemma RanIsCleared(s: Setup, t: seq<Event>, k: nat)
    requires Accepted(s, t) && k < |t| && t[k].Ran?
    ensures Accepted(s, t[..k]) && Watch(s, t[..k]).value.phase.Handling?
    ensures Cleared(t[k].job, Watch(s, t[..k]).value.phase.kind, Watch(s, t[..k]).value.files, t[k].paths)
  {
    hide Watch, PrepareIn, AllPermitted, Admissible;
    var scope, moment := RanWasValidated(s, t, k);
    var m := Watch(s, t[..k]).value;
    PreparedIsCleared(s.world(moment), scope, t[k].job, m.phase.kind);
    AllPermittedMonotone(scope, m.files, t[k].paths);
  }

  lemma {:induction false} AddedDirsFrom(t: seq<Event>, d: Path)
    requires d in AddedDirs(t)
    ensures exists j: nat :: j < |t| && t[j].Added? && d in t[j].dirs
  {
    if t != [] {
      var n := |t| - 1;
      if d in AddedDirs(t[..n]) {
        AddedDirsFrom(t[..n], d);
        var j: nat :| j < n && t[..n][j].Added? && d in t[..n][j].dirs;
        assert t[j] == t[..n][j];
      }
    }
  }

  lemma {:induction false} AddedNamesFrom(t: seq<Event>, p: Path)
    requires p in AddedNames(t)
    ensures exists j: nat :: j < |t| && t[j].AddedOnce? && p in t[j].names && forall i :: j < i < |t| ==> !t[i].Ended?
  {
    if t != [] {
      var n := |t| - 1;
      if p in AddedNames(t[..n]) {
        AddedNamesFrom(t[..n], p);
        var j: nat :| j < n && t[..n][j].AddedOnce? && p in t[..n][j].names && forall i :: j < i < n ==> !t[..n][i].Ended?;
        assert t[j] == t[..n][j] && forall i :: j < i < n ==> t[i] == t[..n][i];
      }
    }
  }

  /** Every path a job reads lies in the first scope, under a directory granted earlier,
      or is a name granted once and not yet revoked. */
  lemma RanWithinGrants(s: Setup, t: seq<Event>, k: nat, p: Path)
    requires Accepted(s, t) && k < |t| && t[k].Ran? && p in t[k].paths
    ensures || Permits(s.files, p)
            || (exists j: nat, d :: j < k && t[j].Added? && d in t[j].dirs && d <= p)
            || (exists j: nat :: j < k && t[j].AddedOnce? && p in t[j].names && forall i :: j < i < k ==> !t[i].Ended?)
  {
    hide Watch, Next, May, Under, Admissible;
    AcceptedPrefix(s, t, k);
    var u := t[..k];
    ScopeIsGrants(s, u);
    var files := Watch(s, u).value.files;
    RanIsCleared(s, t, k);
    assert Permits(files, p);
    if p in files.paths {
      if p in AddedNames(u) {
        AddedNamesFrom(u, p);
        var j: nat :| j < |u| && u[j].AddedOnce? && p in u[j].names && forall i :: j < i < |u| ==> !u[i].Ended?;
        assert t[j] == u[j] && forall i :: j < i < k ==> t[i] == u[i];
      }
    } else {
      var i :| 0 <= i < |files.allowed| && Under(files.allowed[i], p);
      var n := |s.files.allowed|;
      if i < n {
        assert Under(s.files.allowed[i], p);
      } else {
        var d := AddedDirs(u)[i - n];
        assert files.allowed[i] == d;
        UnderIsPrefix(d, p);
        AddedDirsFrom(u, d);
        var j: nat :| j < |u| && u[j].Added? && d in u[j].dirs;
        assert t[j] == u[j];
      }
    }
  }

  /** Allowed directories are never taken back or reordered. */
  lemma {:induction false} AllowedOnlyGrows(s: Setup, t: seq<Event>, k: nat)
    requires Accepted(s, t) && k <= |t|
    ensures Accepted(s, t[..k]) && Watch(s, t[..k]).value.files.allowed <= Watch(s, t).value.files.allowed
  {
    hide AllJustified, OnceOffered, AllDirsOffered, AllNamesOffered, Validated, Fits, SavedFor, Redacted, Tasks;
    if k == |t| {
      assert t[..k] == t;
    } else {
      var front := t[..|t| - 1];
      assert front[..k] == t[..k];
      AllowedOnlyGrows(s, front, k);
    }
  }

  /** At level 0 nobody is asked and neither list ever changes. */
  lemma {:induction false} LevelZeroFixed(s: Setup, t: seq<Event>)
    requires Accepted(s, t) && s.level == 0
    ensures Watch(s, t).value.files == s.files
    ensures forall k :: 0 <= k < |t| ==> !t[k].Asked? && !t[k].Added? && !t[k].AddedOnce?
  {
    hide AllJustified, OnceOffered, AllDirsOffered, AllNamesOffered, Validated, Fits, SavedFor, Redacted, Tasks;
    if t != [] {
      var n := |t| - 1;
      LevelZeroFixed(s, t[..n]);
      LevelZeroUnasked(s, t[..n]);
      assert forall k :: 0 <= k < n ==> t[k] == t[..n][k];
    }
  }

  lemma LevelZeroUnasked(s: Setup, t: seq<Event>)
    requires Accepted(s, t) && s.level == 0 && forall k :: 0 <= k < |t| ==> !t[k].Asked?
    ensures Watch(s, t).value.phase.Handling? ==> !Watch(s, t).value.phase.asked
  {
    hide Watch;
    AnswerInTrace(s, t);
  }

  // ----- one result per job

  function IDsOf(tasks: seq<Task>): (ids: seq<string>)
    ensures |ids| == |tasks| && forall i :: 0 <= i < |tasks| ==> ids[i] == tasks[i].id
  {
    seq(|tasks|, i requires 0 <= i < |tasks| => tasks[i].id)
  }

  function ResultIDs(results: seq<Result>): (ids: seq<string>)
    ensures |ids| == |results| && forall i :: 0 <= i < |results| ==> ids[i] == results[i].id
  {
    seq(|results|, i requires 0 <= i < |results| => results[i].id)
  }

  /** The IDs that are owed an answer, in the order their envelopes began. */
  function Owed(t: seq<Event>): seq<string> {
    if t == [] then []
    else Owed(t[..|t| - 1]) + Due(t[|t| - 1])
  }

  function Results(t: seq<Event>): seq<Result> {
    if t == [] then []
    else Results(t[..|t| - 1]) + if t[|t| - 1].Posted? then [t[|t| - 1].result] else []
  }

  function Pending(m: Monitor): seq<string> { if m.phase.Handling? then IDsOf(m.phase.todo) else [] }

  ghost predicate Balanced(m: Monitor, owed: seq<string>) {
    && (!m.phase.Dead? ==> ResultIDs(m.results) + Pending(m) == owed)
    && ResultIDs(m.results) <= owed
  }

  /** What an event adds to the IDs that are owed an answer. */
  function Due(e: Event): seq<string> { if e.Began? then IDsOf(Tasks(e.incoming)) else [] }

  lemma ResultIDsPush(results: seq<Result>, r: Result)
    ensures ResultIDs(results + [r]) == ResultIDs(results) + [r.id]
  {
  }

  lemma IDsOfHead(todo: seq<Task>)
    requires todo != []
    ensures IDsOf(todo) == [todo[0].id] + IDsOf(todo[1..])
  {
  }

  lemma Shift<T>(a: seq<T>, x: T, b: seq<T>)
    ensures a + ([x] + b) == (a + [x]) + b
    ensures a + [x] <= a + ([x] + b)
  {
  }

  lemma PostBalances(m: Monitor, owed: seq<string>, r: Result)
    requires Balanced(m, owed) && m.phase.Handling? && m.phase.todo != [] && m.phase.todo[0].id == r.id
    ensures Balanced(m.(results := m.results + [r], phase := m.phase.(todo := m.phase.todo[1..], ran := false, lines := [])), owed)
  {
    hide ResultIDs, IDsOf;
    ResultIDsPush(m.results, r);
    IDsOfHead(m.phase.todo);
    Shift(ResultIDs(m.results), r.id, IDsOf(m.phase.todo[1..]));
  }

  lemma StepBalances(s: Setup, m: Monitor, e: Event, owed: seq<string>)
    requires Balanced(m, owed) && May(s, m, e)
    ensures Balanced(Next(s, m, e), owed + Due(e))
  {
    hide AllJustified, OnceOffered, AllDirsOffered, AllNamesOffered, Validated, Fits, SavedFor, Redacted, Tasks, ResultIDs, IDsOf;
    if e.Posted? {
      PostBalances(m, owed, e.result);
    }
    assert owed + [] == owed;
  }

  /** Results answer the jobs one for one and in order: what was posted followed by what
      is still to do is exactly what is owed. A failed envelope leaves a prefix. */
  lemma {:induction false} OneResultPerJob(s: Setup, t: seq<Event>)
    requires Accepted(s, t)
    ensures var m := Watch(s, t).value;
            && m.results == Results(t)
            && (!m.phase.Dead? ==> ResultIDs(Results(t)) + Pending(m) == Owed(t))
            && ResultIDs(Results(t)) <= Owed(t)
  {
    hide May, Next, Tasks, IDsOf;
    if t != [] {
      var n := |t| - 1;
      OneResultPerJob(s, t[..n]);
      StepBalances(s, Watch(s, t[..n]).value, t[n], Owed(t[..n]));
      ResultsStep(s, Watch(s, t[..n]).value, t[n]);
    }
  }

  lemma ResultsStep(s: Setup, m: Monitor, e: Event)
    requires May(s, m, e)
    ensures Next(s, m, e).results == m.results + if e.Posted? then [e.result] else []
  {
    hide AllJustified, OnceOffered, AllDirsOffered, AllNamesOffered, Validated, Fits, SavedFor, Redacted, Tasks;
  }

  /** Results are numbered 1, 2, 3, ... without a gap. */
  lemma ResultNumbers(s: Setup, t: seq<Event>, k: nat)
    requires Accepted(s, t) && k < |t| && t[k].Posted?
    ensures t[k].number == |Results(t[..k])| + 1 <= Envelopes.MAX_SESSION_SEQ
  {
    hide Next, Watch, Validated, SavedFor, Fits;
    AcceptedPrefix(s, t, k);
    OneResultPerJob(s, t[..k]);
  }

  /** Position j holds the run whose result is due at k. */
  predicate RanAt(t: seq<Event>, j: nat, k: nat) {
    j < k <= |t| && t[j].Ran? && Unanswered(t, j, k)
  }

  predicate Unanswered(t: seq<Event>, j: nat, k: nat)
    requires k <= |t|
  {
    forall i :: j < i < k ==> !t[i].Posted? && !t[i].Began? && !t[i].Ended?
  }

  /** The monitor knows whether the job at hand ran. */
  ghost predicate RanRecorded(t: seq<Event>, p: Phase) {
    p.Handling? ==>
      && (p.ran ==> exists j: nat :: RanAt(t, j, |t|) && p.todo != [] && p.todo[0].id == t[j].job.id)
      && (forall j: nat :: RanAt(t, j, |t|) ==> p.ran)
  }

  lemma RanAfter(t: seq<Event>, e: Event, j: nat)
    ensures RanAt(t + [e], j, |t| + 1) <==>
            (j == |t| && e.Ran?) || (RanAt(t, j, |t|) && !e.Posted? && !e.Began? && !e.Ended?)
    ensures j < |t| ==> (t + [e])[j] == t[j]
  {
    var u := t + [e];
    assert forall i :: 0 <= i < |t| ==> u[i] == t[i];
    assert u[|t|] == e;
    if j < |t| && t[j].Ran? {
      assert Unanswered(u, j, |t| + 1) <==> Unanswered(t, j, |t|) && !e.Posted? && !e.Began? && !e.Ended?;
    }
  }

  lemma RanKept(s: Setup, t: seq<Event>, m: Monitor, e: Event)
    requires RanRecorded(t, m.phase) && May(s, m, e)
    ensures RanRecorded(t + [e], Next(s, m, e).phase)
  {
    hide AllJustified, Unanswered, OnceOffered, AllDirsOffered, AllNamesOffered, Validated, Fits, SavedFor, Redacted, Tasks;
    forall j: nat
      ensures RanAt(t + [e], j, |t| + 1) <==>
              (j == |t| && e.Ran?) || (RanAt(t, j, |t|) && !e.Posted? && !e.Began? && !e.Ended?)
      ensures j < |t| ==> (t + [e])[j] == t[j]
    {
      RanAfter(t, e, j);
    }
    var p := Next(s, m, e).phase;
    if p.Handling? && p.ran && !e.Ran? {
      var j: nat :| RanAt(t, j, |t|) && m.phase.todo[0].id == t[j].job.id;
      assert RanAt(t + [e], j, |t| + 1);
    } else if e.Ran? {
      assert RanAt(t + [e], |t|, |t| + 1) && (t + [e])[|t|] == e;
    }
  }

  lemma {:induction false} RanInTrace(s: Setup, t: seq<Event>)
    requires Accepted(s, t)
    ensures RanRecorded(t, Watch(s, t).value.phase)
  {
    hide RanRecorded, May, Next;
    if t == [] {
      NothingRan(s);
    } else {
      var n := |t| - 1;
      RanInTrace(s, t[..n]);
      RanKept(s, t[..n], Watch(s, t[..n]).value, t[n]);
      assert t[..n] + [t[n]] == t;
    }
  }

  lemma NothingRan(s: Setup)
    ensures RanRecorded([], Initial(s).phase)
  {
  }

  /** An "ok" or "error" result is posted only for a job that ran since the last result
      was posted, and a "rejected" one only when none did. */
  lemma ResultsMatchRuns(s: Setup, t: seq<Event>, k: nat)
    requires Accepted(s, t) && k < |t| && t[k].Posted?
    ensures t[k].result.status in {StOk, StError} ==> exists j: nat :: RanAt(t, j, k) && t[j].job.id == t[k].result.id
    ensures t[k].result.status == StRejected ==> forall j: nat :: !RanAt(t, j, k)
  {
    hide Next, Watch, Validated, SavedFor, Unanswered, Refusable;
    AcceptedPrefix(s, t, k);
    var u := t[..k];
    RanInTrace(s, u);
    var m := Watch(s, u).value;
    forall j: nat
      ensures RanAt(u, j, k) <==> RanAt(t, j, k)
    {
      RanPrefix(t, j, k);
    }
    if t[k].result.status in {StOk, StError} {
      var j: nat :| RanAt(u, j, |u|) && m.phase.todo[0].id == u[j].job.id;
      assert RanAt(t, j, k) && t[j] == u[j];
    }
  }

  /** A job is answered "rejected" only for a reason, and "denied" only by the operator:
      one that could be prepared at every moment runs unless it was denied. */
  lemma AnswersHaveReasons(s: Setup, t: seq<Event>, k: nat)
    requires Accepted(s, t) && k < |t| && t[k].Posted?
    ensures Accepted(s, t[..k]) && Watch(s, t[..k]).value.phase.Handling? && Watch(s, t[..k]).value.phase.todo != []
    ensures var m := Watch(s, t[..k]).value;
            var task := m.phase.todo[0];
            && (task.job.None? ==> t[k].result == Result(task.id, StRejected, []))
            && (task.job.Some? && t[k].result.status == StRejected ==>
                  Refusable(s, Window(m.phase.since, t[k].at), m.phase.first, Granting(m.phase, m.files), m.files, task.job.value, m.phase.kind))
            && (t[k].result.status == StDenied ==> s.level != 0)
            && (t[k].result.status == StDenied && !m.phase.ran ==> exists j: nat :: AnsweredAt(t, j, k) && t[j].verdict == Deny)
            && (t[k].result.status == StDenied && m.phase.verdict != Deny ==> exists j: nat :: RanAt(t, j, k))
  {
    hide Next, Watch, Validated, SavedFor, Unanswered, Refusable;
    AcceptedPrefix(s, t, k);
    var u := t[..k];
    var m := Watch(s, u).value;
    AnswerInTrace(s, u);
    RanInTrace(s, u);
    RanTasksExist(s, u);
    if m.phase.ran {
      var j: nat :| RanAt(u, j, |u|);
      RanPrefix(t, j, k);
    }
    if m.phase.asked {
      var j: nat :| AnsweredAt(u, j, |u|) && u[j].offers == m.phase.offers && u[j].verdict == m.phase.verdict;
      AnsweredPrefix(t, j, k);
    }
    if s.level == 0 {
      LevelZeroFixed(s, t);
      LevelZeroUnasked(s, u);
    }
  }

  /** What ran was a job. */
  lemma {:induction false} RanTasksExist(s: Setup, t: seq<Event>)
    requires Accepted(s, t)
    ensures var p := Watch(s, t).value.phase; p.Handling? && p.ran ==> p.todo != [] && p.todo[0].job.Some?
  {
    hide AllJustified, OnceOffered, AllDirsOffered, AllNamesOffered, Validated, Fits, SavedFor, Redacted, Tasks;
    if t != [] {
      RanTasksExist(s, t[..|t| - 1]);
    }
  }

  lemma RanPrefix(t: seq<Event>, j: nat, k: nat)
    requires k <= |t|
    ensures RanAt(t[..k], j, k) <==> RanAt(t, j, k)
  {
    assert forall i :: 0 <= i < k ==> t[i] == t[..k][i];
    if j < k {
      assert Unanswered(t[..k], j, k) <==> Unanswered(t, j, k);
    }
  }

  // ----- envelopes

  lemma BegunStep(s: Setup, m: Monitor, e: Event)
    requires May(s, m, e)
    ensures Next(s, m, e).begun == m.begun + if e.Began? then [Opening(e.kind, e.incoming)] else []
  {
    hide AllJustified, OnceOffered, AllDirsOffered, AllNamesOffered, Validated, Fits, SavedFor, Redacted, Tasks;
  }

  lemma {:induction false} BegunGrows(s: Setup, t: seq<Event>, k: nat)
    requires Accepted(s, t) && k <= |t|
    ensures Accepted(s, t[..k]) && Watch(s, t[..k]).value.begun <= Watch(s, t).value.begun
  {
    hide May, Next;
    if k == |t| {
      assert t[..k] == t;
    } else {
      var n := |t| - 1;
      assert t[..n][..k] == t[..k];
      BegunGrows(s, t[..n], k);
      BegunStep(s, Watch(s, t[..n]).value, t[n]);
    }
  }

  /** Envelopes are numbered in the order they begin. */
  lemma BegunInTrace(s: Setup, t: seq<Event>, k: nat)
    requires Accepted(s, t) && k < |t| && t[k].Began?
    ensures var begun := Watch(s, t).value.begun;
            1 <= t[k].number <= |begun| && begun[t[k].number - 1] == Opening(t[k].kind, t[k].incoming)
  {
    hide Watch, Next;
    AcceptedPrefix(s, t, k);
    BegunStep(s, Watch(s, t[..k]).value, t[k]);
    BegunGrows(s, t, k + 1);
  }

  // ----- the saved mapping restores every result

  ghost predicate RulesOk(s: Setup) { forall i :: 0 <= i < |s.rules| ==> R.RuleOk(s.rules[i]) }

  lemma TableStep(s: Setup, m: Monitor, e: Event)
    requires RulesOk(s) && May(s, m, e) && R.TableOk(m.table)
    ensures R.TableOk(Next(s, m, e).table) && R.Grows(m.table, Next(s, m, e).table)
  {
    hide AllJustified, OnceOffered, AllDirsOffered, AllNamesOffered, Validated, Fits, SavedFor, Tasks, R.TableOk, R.RuleOk, R.RedactFrom;
    E.GrowsSame(m.table);
    if e.Ran? {
      R.PlaceholdersStable(s.env, s.rules, m.table, e.raw, "", "");
    }
  }

  /** The placeholder table stays in order and only grows. */
  lemma {:induction false} TableGrows(s: Setup, t: seq<Event>, k: nat)
    requires RulesOk(s) && Accepted(s, t) && k <= |t|
    ensures Accepted(s, t[..k]) && R.TableOk(Watch(s, t[..k]).value.table) && R.TableOk(Watch(s, t).value.table)
    ensures R.Grows(Watch(s, t[..k]).value.table, Watch(s, t).value.table)
  {
    hide RulesOk, May, Next, R.TableOk, R.Grows;
    if t == [] {
      NoTable();
      assert t[..k] == t;
    } else {
      var n := |t| - 1;
      if k == |t| {
        TableGrows(s, t[..n], n);
        assert t[..k] == t && t[..n][..n] == t[..n];
      } else {
        TableGrows(s, t[..n], k);
        assert t[..n][..k] == t[..k];
      }
      var m, u := Watch(s, t[..n]).value, Watch(s, t).value;
      TableStep(s, m, t[n]);
      E.GrowsSame(u.table);
      if k < |t| {
        R.GrowsTransitive(Watch(s, t[..k]).value.table, m.table, u.table);
      }
    }
  }

  lemma NoTable()
    ensures R.TableOk(map[]) && R.Grows(map[], map[])
  {
  }

  /** The lines of the run at position i after redaction, piece by piece. */
  ghost function OutputAt(s: Setup, t: seq<Event>, i: nat): seq<seq<R.Piece>>
    requires i < |t| && t[i].Ran? && Accepted(s, t[..i])
  {
    Redacted(s, Watch(s, t[..i]).value.table, t[i].raw).out
  }

  ghost predicate LinesFrom(s: Setup, t: seq<Event>, i: nat, lines: seq<string>) {
    i < |t| && t[i].Ran? && Accepted(s, t[..i]) && lines == E.RenderAll(OutputAt(s, t, i))
  }

  ghost predicate LinesRecorded(s: Setup, t: seq<Event>, p: Phase) {
    p.Handling? && p.ran ==> exists i: nat :: RanAt(t, i, |t|) && LinesFrom(s, t, i, p.lines)
  }

  lemma LinesStay(s: Setup, t: seq<Event>, u: seq<Event>, i: nat, lines: seq<string>)
    requires t <= u && LinesFrom(s, t, i, lines)
    ensures LinesFrom(s, u, i, lines)
  {
    assert u[..i] == t[..i];
  }

  lemma LinesKept(s: Setup, t: seq<Event>, e: Event)
    requires Accepted(s, t) && LinesRecorded(s, t, Watch(s, t).value.phase) && May(s, Watch(s, t).value, e)
    ensures LinesRecorded(s, t + [e], Next(s, Watch(s, t).value, e).phase)
  {
    hide Watch, LinesFrom, RanAt, AllJustified, OnceOffered, AllDirsOffered, AllNamesOffered, Validated, Fits, SavedFor, Redacted, Tasks;
    var m := Watch(s, t).value;
    var p := Next(s, m, e).phase;
    if e.Ran? {
      RanAfter(t, e, |t|);
      NewLines(s, t, e);
    } else if p.Handling? && p.ran {
      var i: nat :| RanAt(t, i, |t|) && LinesFrom(s, t, i, m.phase.lines);
      RanAfter(t, e, i);
      LinesStay(s, t, t + [e], i, p.lines);
    }
  }

  lemma NewLines(s: Setup, t: seq<Event>, e: Event)
    requires Accepted(s, t) && e.Ran? && May(s, Watch(s, t).value, e)
    ensures LinesFrom(s, t + [e], |t|, Next(s, Watch(s, t).value, e).phase.lines)
  {
    hide Watch, Redacted, Validated;
    assert (t + [e])[..|t|] == t && (t + [e])[|t|] == e;
  }

  lemma {:induction false} LinesInTrace(s: Setup, t: seq<Event>)
    requires Accepted(s, t)
    ensures LinesRecorded(s, t, Watch(s, t).value.phase)
  {
    hide May, Next, RanAt, LinesFrom;
    if t != [] {
      var n := |t| - 1;
      LinesInTrace(s, t[..n]);
      LinesKept(s, t[..n], t[n]);
      assert t[..n] + [t[n]] == t;
    }
  }

  /** Whenever a result is posted, the mapping in the local copy is the engine's at that
      moment. */
  lemma PostedMappingSaved(s: Setup, t: seq<Event>, k: nat)
    requires Accepted(s, t) && k < |t| && t[k].Posted?
    ensures Accepted(s, t[..k]) && R.TableOk(Watch(s, t[..k]).value.table)
    ensures t[k].saved == R.MappingOf(Watch(s, t[..k]).value.table)
  {
    hide Next, Watch, Fits, R.TableOk, R.MappingOf;
    AcceptedPrefix(s, t, k);
  }

  /** The lines of a posted result come from one run, redacted; and the mapping saved when
      that result or any later one was posted leads back from them to what the run read. */
  lemma PostedRestores(s: Setup, t: seq<Event>, j: nat, k: nat) returns (i: nat)
    requires RulesOk(s) && Accepted(s, t) && j <= k < |t| && t[j].Posted? && t[k].Posted?
    requires t[j].result.status == StOk || t[j].result.status == StError
    ensures RanAt(t, i, j) && Accepted(s, t[..i])
    ensures t[j].result.lines <= E.RenderAll(OutputAt(s, t, i))
    ensures R.Join(R.ExpandAll(OutputAt(s, t, i), t[k].saved)) == R.Join(t[i].raw)
  {
    hide Watch, RulesOk, May, Next, R.TableOk, R.MappingOf, R.Grows, OutputAt;
    i := RunBehind(s, t, j);
    TableGrows(s, t, i);
    AcceptedPrefix(s, t, k);
    PostedMappingSaved(s, t, k);
    assert t[..k][..i] == t[..i] && t[..k][..i + 1] == t[..i + 1];
    TableGrows(s, t[..k], i + 1);
    TableGrows(s, t[..k], i);
    Restored(s, t, i, Watch(s, t[..k]).value.table);
  }

  lemma RunBehind(s: Setup, t: seq<Event>, j: nat) returns (i: nat)
    requires Accepted(s, t) && j < |t| && t[j].Posted?
    requires t[j].result.status == StOk || t[j].result.status == StError
    ensures RanAt(t, i, j) && Accepted(s, t[..i]) && t[j].result.lines <= E.RenderAll(OutputAt(s, t, i))
  {
    hide Watch, Next, SavedFor, Redacted;
    AcceptedPrefix(s, t, j);
    var u := t[..j];
    LinesInTrace(s, u);
    var m := Watch(s, u).value;
    i :| RanAt(u, i, |u|) && LinesFrom(s, u, i, m.phase.lines);
    RanPrefix(t, i, j);
    LinesStay(s, u, t, i, m.phase.lines);
  }

  lemma Restored(s: Setup, t: seq<Event>, i: nat, u: R.Table)
    requires RulesOk(s) && Accepted(s, t) && i < |t| && t[i].Ran? && Accepted(s, t[..i]) && Accepted(s, t[..i + 1])
    requires R.TableOk(Watch(s, t[..i]).value.table)
    requires R.TableOk(u) && R.Grows(Watch(s, t[..i + 1]).value.table, u)
    ensures R.Join(R.ExpandAll(OutputAt(s, t, i), R.MappingOf(u))) == R.Join(t[i].raw)
  {
    hide Watch, R.TableOk, R.MappingOf, R.Grows, R.RedactFrom, R.ExpandAll, R.Join, Validated;
    AcceptedPrefix(s, t, i);
    R.RedactionInvertible(s.env, s.rules, Watch(s, t[..i]).value.table, t[i].raw, u);
  }

  // ----- counts

  function Count(results: seq<Result>, status: Status): nat {
    if results == [] then 0
    else Count(results[..|results| - 1], status) + if results[|results| - 1].status == status then 1 else 0
  }

  lemma {:induction false} CountsAddUp(results: seq<Result>)
    ensures Count(results, StOk) + Count(results, StError) + Count(results, StDenied) + Count(results, StRejected) == |results|
  {
    if results != [] {
      CountsAddUp(results[..|results| - 1]);
    }
  }

  lemma CountStep(results: seq<Result>, r: Result, status: Status)
    ensures Count(results + [r], status) == Count(results, status) + if r.status == status then 1 else 0
  {
    assert (results + [r])[..|results|] == results;
  }
}

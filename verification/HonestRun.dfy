/** The two endpoints of module Protocol joined by one session object of an honest relay.
    Posts may be lost, retried, and repeated arbitrarily late; a poll response may be lost
    on its way, since the relay delivers at most once. One session incarnation. */
module HonestRun {
  import opened Base
  import opened Envelopes
  import P = Protocol
  import R = RelaySteps
  import Q = RelayRuns

  /** `jobPosts` and `resultPosts` are the envelopes handed to HTTP clients, which may
      reach the relay any number of times; the inboxes hold envelopes of poll responses
      not yet opened; `jobsLost` and `resultsLost` say whether a response was ever lost. */
  datatype State = State(
    w: P.World, live: R.Live, maxQueue: nat,
    jobPosts: set<Envelope>, resultPosts: set<Envelope>,
    jobInbox: seq<Envelope>, resultInbox: seq<Envelope>,
    jobsLost: bool, resultsLost: bool)

  /** After the join, with both counters at 1. */
  function Init(id: SessionID, info: R.JoinInfo, maxQueue: nat, expiresAt: int): State {
    State(P.Init(id), R.Join(R.NewLive(expiresAt), info).0, maxQueue, {}, {}, [], [], false, false)
  }

  // ----- steps

  /** When no call is in progress, envelopes of its last poll are gone with it. */
  function ForgetInbox(h: State): State {
    if h.w.mcp.Idle? && h.resultInbox != [] then h.(resultInbox := [], resultsLost := true) else h
  }

  function Load(h: State): State {
    var idle := ForgetInbox(h.(w := h.w.(mcp := P.Idle)));
    idle.(w := P.Load(idle.w))
  }

  function Seal(h: State, ciphertext: Bytes): State {
    var w := P.SealJob(h.w, ciphertext);
    var posts := if |w.jobLog| > |h.w.jobLog| then h.jobPosts + {w.jobLog[|w.jobLog| - 1].envelope} else h.jobPosts;
    ForgetInbox(h.(w := w, jobPosts := posts))
  }

  function Deliver(h: State, e: Envelope, results: bool): State {
    if e in (if results then h.resultPosts else h.jobPosts)
    then h.(live := R.Post(h.live, e, results, h.maxQueue).0)
    else h
  }

  function PollQueue(h: State, results: bool, now: int, lost: bool): State {
    var look := R.Poll(h.live, if results then R.ResultsKind else R.JobsKind, now);
    if !look.1.Messages? then h.(live := look.0)
    else if results then
      if lost || h.w.mcp.Idle? then h.(live := look.0, resultsLost := true)
      else h.(live := look.0, resultInbox := h.resultInbox + look.1.list)
    else
      if lost then h.(live := look.0, jobsLost := true)
      else h.(live := look.0, jobInbox := h.jobInbox + look.1.list)
  }

  function TakeJob(h: State): State {
    if h.jobInbox == [] || !h.w.collector.running || h.w.collector.busy then h
    else h.(w := P.OpenJob(h.w, h.jobInbox[0]), jobInbox := h.jobInbox[1..])
  }

  function TakeResult(h: State, save: P.Save): State {
    if h.resultInbox == [] || !h.w.mcp.Ready? then h
    else
      var w := P.AcceptResult(h.w, h.resultInbox[0], save);
      ForgetInbox(h.(w := w, resultInbox := h.resultInbox[1..], resultsLost := h.resultsLost || save.FailedOld?))
  }

  /** send: the post may or may not reach the relay, the answer may or may not come back,
      and the audit entry may fail. */
  function Send(h: State, plaintext: Bytes, ciphertext: Bytes, reached: bool, answered: bool, audited: bool): State {
    var sealed := P.SendResult(h.w, plaintext, ciphertext, P.PostFailed);
    if |sealed.resultLog| == |h.w.resultLog| then h.(w := sealed)
    else
      var e := sealed.resultLog[|h.w.resultLog|].envelope;
      var post := R.Post(h.live, e, true, h.maxQueue);
      var outcome := if reached && answered && post.1.status == 202 then (if audited then P.Delivered else P.AuditFailed) else P.PostFailed;
      h.(w := P.SendResult(h.w, plaintext, ciphertext, outcome),
         live := if reached then post.0 else h.live,
         resultPosts := h.resultPosts + {e})
  }

  datatype Step =
    | McpLoad
    | McpCrash
    | McpReserve(raw: Bytes, save: P.Save)
    | McpSeal(ciphertext: Bytes)
    | McpTake(save: P.Save)
    | PostArrives(e: Envelope, results: bool)
    | Poll(results: bool, now: int, lost: bool)
    | CollectorTake
    | CollectorSend(plaintext: Bytes, ciphertext: Bytes, reached: bool, answered: bool, audited: bool)
    | CollectorFinish
    | CollectorStop
    | SessionDrop

  function Apply(h: State, s: Step): State {
    match s
    case McpLoad => Load(h)
    case McpCrash => ForgetInbox(h.(w := h.w.(mcp := P.Idle)))
    case McpReserve(raw, save) => ForgetInbox(h.(w := P.Reserve(h.w, raw, save)))
    case McpSeal(ciphertext) => Seal(h, ciphertext)
    case McpTake(save) => TakeResult(h, save)
    case PostArrives(e, results) => Deliver(h, e, results)
    case Poll(results, now, lost) => PollQueue(h, results, now, lost)
    case CollectorTake => TakeJob(h)
    case CollectorSend(plaintext, ciphertext, reached, answered, audited) => Send(h, plaintext, ciphertext, reached, answered, audited)
    case CollectorFinish => h.(w := P.FinishJob(h.w))
    case CollectorStop => h.(w := h.w.(collector := h.w.collector.(running := false)))
    case SessionDrop => h.(live := R.Drop(h.live))
  }

  function Exec(h: State, steps: seq<Step>): State
    decreases |steps|
  {
    if steps == [] then h else Exec(Apply(h, steps[0]), steps[1..])
  }

  // ----- the invariant

  ghost predicate Sealed(log: seq<Sealing>, e: Envelope) {
    exists r :: r in log && r.envelope == e
  }

  /** The relay holds only envelopes the endpoints sealed. */
  ghost predicate Genuine(h: State) {
    && (forall e :: e in h.jobPosts ==> Sealed(h.w.jobLog, e))
    && (forall e :: e in h.resultPosts ==> Sealed(h.w.resultLog, e))
    && (forall e :: e in h.live.jobs.accepted ==> e in h.jobPosts)
    && (forall e :: e in h.live.results.accepted ==> e in h.resultPosts)
  }

  /** `next` is the number the endpoint expects. What the relay delivered and the
      endpoint has not passed is in the inbox, in order, unless a response was lost. */
  ghost predicate Inbox(inbox: seq<Envelope>, delivered: seq<Envelope>, next: nat, lost: bool) {
    && 1 <= next <= |delivered| + 1
    && (forall e :: e in inbox ==> e in delivered)
    && (!lost ==> inbox == delivered[next - 1..])
  }

  ghost predicate InboxOk(h: State) {
    && Inbox(h.jobInbox, h.live.jobs.delivered, h.w.collector.nextJob, h.jobsLost)
    && Inbox(h.resultInbox, h.live.results.delivered, h.w.disk.nextResult, h.resultsLost)
    && (h.w.mcp.Idle? ==> h.resultInbox == [])
  }

  lemma InboxGains(inbox: seq<Envelope>, delivered: seq<Envelope>, next: nat, lost: bool, list: seq<Envelope>)
    requires Inbox(inbox, delivered, next, lost)
    ensures Inbox(inbox + list, delivered + list, next, lost)
    ensures Inbox(inbox, delivered + list, next, true)
  {
    assert (delivered + list)[next - 1..] == delivered[next - 1..] + list;
  }

  /** The head of the inbox is the expected envelope exactly when it carries `next`. */
  lemma InboxTakes(inbox: seq<Envelope>, delivered: seq<Envelope>, next: nat, lost: bool)
    requires Inbox(inbox, delivered, next, lost) && inbox != []
    requires forall k :: 0 <= k < |delivered| ==> delivered[k].number == k + 1
    ensures !lost ==> inbox[0].number == next
    ensures inbox[0].number == next ==> Inbox(inbox[1..], delivered, next + 1, lost)
    ensures Inbox(inbox[1..], delivered, next, true)
    ensures inbox[0] in delivered && inbox[0].number <= |delivered|
  {
    assert inbox[0] in inbox;
    var k :| 0 <= k < |delivered| && delivered[k] == inbox[0];
  }

  /** What the endpoints' invariant says about a sealed envelope and the histories. */
  lemma SealedFacts(w: P.World, e: Envelope)
    requires P.Inv(w)
    ensures Sealed(w.jobLog, e) ==> Validate(e, w.id, MAX_JOB_BYTES) && e.number < w.disk.nextJob
    ensures Sealed(w.resultLog, e) ==> Validate(e, w.id, MAX_RESULT_BYTES) && e.number <= w.collector.nextResult
  {
  }

  lemma HistoryLengths(w: P.World)
    requires P.Inv(w)
    ensures |w.handled| == w.collector.nextJob - 1 && |w.consumed| == w.disk.nextResult - 1
    ensures w.mcp.Ready? ==> w.mcp.stored == w.disk
    ensures w.disk.nextJob >= 1 && w.collector.nextResult >= 1
  {
  }

  ghost predicate Inv(h: State) {
    && P.Inv(h.w) && Q.LiveOk(h.live, h.maxQueue)
    && Genuine(h) && InboxOk(h)
  }

  /** collector <= relay <= MCP for jobs, MCP <= relay <= collector + 1 for results. */
  ghost predicate Chain(h: State) {
    && h.w.collector.nextJob <= h.live.jobs.next <= h.w.disk.nextJob
    && h.w.disk.nextResult <= h.live.results.next <= h.w.collector.nextResult + 1
  }

  /** The last accepted envelope of a direction was sealed, so its number bounds `next`. */
  lemma ChainHolds(h: State)
    requires Inv(h)
    ensures Chain(h)
  {
    hide P.Inv;
    HistoryLengths(h.w);
    var j, a := h.live.jobs.accepted, h.live.results.accepted;
    if j != [] {
      assert j[|j| - 1] in h.jobPosts;
      SealedFacts(h.w, j[|j| - 1]);
    }
    if a != [] {
      assert a[|a| - 1] in h.resultPosts;
      SealedFacts(h.w, a[|a| - 1]);
    }
  }

  // ----- every step keeps it

  lemma SealedGrows(a: seq<Sealing>, b: seq<Sealing>, e: Envelope)
    requires a <= b && Sealed(a, e)
    ensures Sealed(b, e)
  {
  }

  /** Genuine envelopes stay genuine while the logs grow and the relay accepts nothing new. */
  lemma GenuineGrows(h: State, h': State)
    requires Genuine(h)
    requires h.w.jobLog <= h'.w.jobLog && h.w.resultLog <= h'.w.resultLog
    requires h'.live.jobs.accepted == h.live.jobs.accepted && h'.live.results.accepted == h.live.results.accepted
    requires h.jobPosts <= h'.jobPosts && h.resultPosts <= h'.resultPosts
    requires forall e :: e in h'.jobPosts - h.jobPosts ==> Sealed(h'.w.jobLog, e)
    requires forall e :: e in h'.resultPosts - h.resultPosts ==> Sealed(h'.w.resultLog, e)
    ensures Genuine(h')
  {
    forall e | e in h'.jobPosts ensures Sealed(h'.w.jobLog, e) {
      if e in h.jobPosts { SealedGrows(h.w.jobLog, h'.w.jobLog, e); }
    }
    forall e | e in h'.resultPosts ensures Sealed(h'.w.resultLog, e) {
      if e in h.resultPosts { SealedGrows(h.w.resultLog, h'.w.resultLog, e); }
    }
  }

  /** A step of one endpoint that opens nothing. */
  lemma EndpointKeeps(h: State, s: P.Step, h': State)
    requires Inv(h)
    requires s.McpLoad? || s.McpCrash? || s.McpReserve? || s.McpSeal? || s.CollectorSend? || s.CollectorFinish? || s.CollectorStop?
    requires h' == h.(w := P.Apply(h.w, s), jobPosts := h'.jobPosts, resultPosts := h'.resultPosts)
    requires h.jobPosts <= h'.jobPosts && h.resultPosts <= h'.resultPosts
    requires forall e :: e in h'.jobPosts - h.jobPosts ==> Sealed(h'.w.jobLog, e)
    requires forall e :: e in h'.resultPosts - h.resultPosts ==> Sealed(h'.w.resultLog, e)
    ensures Inv(ForgetInbox(h'))
    ensures !h'.w.mcp.Idle? || h.w.mcp.Idle? ==> ForgetInbox(h') == h'
  {
    hide P.Inv, Q.LiveOk;
    P.ApplyKeeps(h.w, s);
    P.ApplyGrows(h.w, s);
    GenuineGrows(h, h');
    GenuineGrows(h, ForgetInbox(h'));
    HistoryLengths(h.w);
    assert h'.w.collector.nextJob == h.w.collector.nextJob && h'.w.disk.nextResult == h.w.disk.nextResult;
  }

  lemma DeliverKeeps(h: State, e: Envelope, results: bool)
    requires Inv(h) && e in (if results then h.resultPosts else h.jobPosts)
    ensures Inv(h.(live := R.Post(h.live, e, results, h.maxQueue).0))
  {
    hide P.Inv, Q.LiveOk, R.Post;
    var h' := h.(live := R.Post(h.live, e, results, h.maxQueue).0);
    SealedFacts(h.w, e);
    Q.PostOk(h.live, e, results, h.maxQueue);
    Q.PostAppends(h.live, e, results, h.maxQueue);
    var s, t := R.SideOf(h.live, results), R.SideOf(h'.live, results);
    assert forall x :: x in t.accepted ==> x in s.accepted || x == e;
  }

  lemma PollKeeps(h: State, results: bool, now: int, lost: bool)
    requires Inv(h)
    ensures Inv(PollQueue(h, results, now, lost))
  {
    hide P.Inv;
    var kind := if results then R.ResultsKind else R.JobsKind;
    var look := R.Poll(h.live, kind, now);
    Q.PollOk(h.live, kind, now, h.maxQueue);
    GenuineGrows(h, PollQueue(h, results, now, lost));
    if look.1.Messages? {
      InboxGains(h.jobInbox, h.live.jobs.delivered, h.w.collector.nextJob, h.jobsLost, look.1.list);
      InboxGains(h.resultInbox, h.live.results.delivered, h.w.disk.nextResult, h.resultsLost, look.1.list);
    }
  }

  lemma DeliveredNumbers(live: R.Live, maxQueue: nat)
    requires Q.LiveOk(live, maxQueue)
    ensures forall k :: 0 <= k < |live.jobs.delivered| ==> live.jobs.delivered[k].number == k + 1
    ensures forall k :: 0 <= k < |live.results.delivered| ==> live.results.delivered[k].number == k + 1
  {
    assert forall k :: 0 <= k < |live.jobs.delivered| ==> live.jobs.delivered[k] == live.jobs.accepted[k];
    assert forall k :: 0 <= k < |live.results.delivered| ==> live.results.delivered[k] == live.results.accepted[k];
  }

  /** A delivered job is sealed; it opens at the collector exactly when its turn has come. */
  lemma DeliveredJobOpens(h: State, e: Envelope)
    requires Inv(h) && e in h.live.jobs.delivered
    ensures var c, w := h.w.collector, P.OpenJob(h.w, e);
            && (c.running && !c.busy && e.number == c.nextJob ==> w.collector.nextJob == c.nextJob + 1)
            && (!(c.running && !c.busy && e.number == c.nextJob) ==> w == h.w)
            && w.disk == h.w.disk && w.mcp == h.w.mcp && w.jobLog == h.w.jobLog && w.resultLog == h.w.resultLog
  {
    hide P.Inv;
    assert e in h.live.jobs.accepted && e in h.jobPosts;
    SealedFacts(h.w, e);
    OpenExactly(h.w.jobLog, e, h.w.id, h.w.collector.nextJob, MAX_JOB_BYTES);
  }

  lemma TakeJobKeeps(h: State)
    requires Inv(h)
    ensures Inv(TakeJob(h))
  {
    hide P.Inv, Q.LiveOk;
    DeliveredNumbers(h.live, h.maxQueue);
    var h' := TakeJob(h);
    if h'.jobInbox != h.jobInbox {
      var e := h.jobInbox[0];
      InboxTakes(h.jobInbox, h.live.jobs.delivered, h.w.collector.nextJob, h.jobsLost);
      P.OpenJobKeeps(h.w, e);
      DeliveredJobOpens(h, e);
      GenuineGrows(h, h');
    }
  }

  /** A delivered result is sealed; it advances the session file exactly when its turn has
      come and the save took. */
  lemma DeliveredResultOpens(h: State, e: Envelope, save: P.Save)
    requires Inv(h) && e in h.live.results.delivered && h.w.mcp.Ready?
    ensures var w := P.AcceptResult(h.w, e, save);
            && (e.number == h.w.disk.nextResult && !save.FailedOld? ==> w.disk.nextResult == h.w.disk.nextResult + 1)
            && (e.number != h.w.disk.nextResult || save.FailedOld? ==> w.disk == h.w.disk)
            && w.collector == h.w.collector && w.jobLog == h.w.jobLog && w.resultLog == h.w.resultLog
  {
    hide P.Inv;
    assert e in h.live.results.accepted && e in h.resultPosts;
    SealedFacts(h.w, e);
    HistoryLengths(h.w);
    OpenExactly(h.w.resultLog, e, h.w.id, h.w.disk.nextResult, MAX_RESULT_BYTES);
  }

  lemma TakeResultKeeps(h: State, save: P.Save)
    requires Inv(h)
    ensures Inv(TakeResult(h, save))
  {
    hide P.Inv, Q.LiveOk;
    DeliveredNumbers(h.live, h.maxQueue);
    var h' := TakeResult(h, save);
    if h.resultInbox != [] && h.w.mcp.Ready? {
      var e := h.resultInbox[0];
      InboxTakes(h.resultInbox, h.live.results.delivered, h.w.disk.nextResult, h.resultsLost);
      P.AcceptResultKeeps(h.w, e, save);
      DeliveredResultOpens(h, e, save);
      GenuineGrows(h, h');
    }
  }

  /** The sealing part of send; the relay's part is a delivered post. */
  lemma SendKeeps(h: State, plaintext: Bytes, ciphertext: Bytes, reached: bool, answered: bool, audited: bool)
    requires Inv(h)
    ensures Inv(Send(h, plaintext, ciphertext, reached, answered, audited))
  {
    hide P.Inv, Q.LiveOk;
    var sealed := P.SendResult(h.w, plaintext, ciphertext, P.PostFailed);
    if |sealed.resultLog| == |h.w.resultLog| {
      EndpointKeeps(h, P.CollectorSend(plaintext, ciphertext, P.PostFailed), h.(w := sealed));
    } else {
      var e := sealed.resultLog[|h.w.resultLog|].envelope;
      var post := R.Post(h.live, e, true, h.maxQueue);
      var outcome := if reached && answered && post.1.status == 202 then (if audited then P.Delivered else P.AuditFailed) else P.PostFailed;
      var s := P.CollectorSend(plaintext, ciphertext, outcome);
      var g := h.(w := P.Apply(h.w, s), resultPosts := h.resultPosts + {e});
      assert g.w.resultLog == sealed.resultLog;
      assert g.w.resultLog[|h.w.resultLog|] in g.w.resultLog;
      EndpointKeeps(h, s, g);
      DeliverKeeps(g, e, true);
    }
  }

  lemma SealKeeps(h: State, ciphertext: Bytes)
    requires Inv(h)
    ensures Inv(Seal(h, ciphertext))
  {
    hide P.Inv;
    var w := P.SealJob(h.w, ciphertext);
    if |w.jobLog| > |h.w.jobLog| {
      assert w.jobLog[|w.jobLog| - 1] in w.jobLog;
    }
    var posts := if |w.jobLog| > |h.w.jobLog| then h.jobPosts + {w.jobLog[|w.jobLog| - 1].envelope} else h.jobPosts;
    EndpointKeeps(h, P.McpSeal(ciphertext), h.(w := w, jobPosts := posts));
  }

  lemma LoadKeeps(h: State)
    requires Inv(h)
    ensures Inv(Load(h))
  {
    hide P.Inv;
    var crashed := h.(w := h.w.(mcp := P.Idle));
    EndpointKeeps(h, P.McpCrash, crashed);
    var idle := ForgetInbox(crashed);
    EndpointKeeps(idle, P.McpLoad, idle.(w := P.Load(idle.w)));
  }

  lemma DropKeeps(h: State)
    requires Inv(h)
    ensures Inv(h.(live := R.Drop(h.live)))
  {
    hide P.Inv;
    Q.DropOk(h.live, h.maxQueue);
    GenuineGrows(h, h.(live := R.Drop(h.live)));
  }

  lemma ApplyKeeps(h: State, s: Step)
    requires Inv(h)
    ensures Inv(Apply(h, s))
  {
    hide Inv;
    match s
    case McpLoad => LoadKeeps(h);
    case McpCrash => EndpointKeeps(h, P.McpCrash, h.(w := h.w.(mcp := P.Idle)));
    case McpReserve(raw, save) => EndpointKeeps(h, P.McpReserve(raw, save), h.(w := P.Reserve(h.w, raw, save)));
    case McpSeal(ciphertext) => SealKeeps(h, ciphertext);
    case McpTake(save) => TakeResultKeeps(h, save);
    case PostArrives(e, results) =>
      if e in (if results then h.resultPosts else h.jobPosts) {
        DeliverKeeps(h, e, results);
      }
    case Poll(results, now, lost) => PollKeeps(h, results, now, lost);
    case CollectorTake => TakeJobKeeps(h);
    case CollectorSend(plaintext, ciphertext, reached, answered, audited) => SendKeeps(h, plaintext, ciphertext, reached, answered, audited);
    case CollectorFinish => EndpointKeeps(h, P.CollectorFinish, h.(w := P.FinishJob(h.w)));
    case CollectorStop => EndpointKeeps(h, P.CollectorStop, h.(w := P.Apply(h.w, P.CollectorStop)));
    case SessionDrop => DropKeeps(h);
  }

  lemma {:induction false} ExecKeeps(h: State, steps: seq<Step>)
    requires Inv(h)
    ensures Inv(Exec(h, steps))
    decreases |steps|
  {
    hide Inv;
    if steps != [] {
      ApplyKeeps(h, steps[0]);
      ExecKeeps(Apply(h, steps[0]), steps[1..]);
    }
  }

  // ----- what the collector counts, the relay has

  /** Every result the collector counts as sent is one the relay accepted. */
  ghost predicate SentAccepted(h: State) { h.w.collector.nextResult <= |h.live.results.accepted| + 1 }

  lemma SendAccepted(h: State, plaintext: Bytes, ciphertext: Bytes, reached: bool, answered: bool, audited: bool)
    requires Inv(h) && SentAccepted(h)
    ensures SentAccepted(Send(h, plaintext, ciphertext, reached, answered, audited))
  {
    hide P.Inv, Genuine, InboxOk;
    HistoryLengths(h.w);
    var sealed := P.SendResult(h.w, plaintext, ciphertext, P.PostFailed);
    if |sealed.resultLog| > |h.w.resultLog| {
      var e := sealed.resultLog[|h.w.resultLog|].envelope;
      Q.PostAnswersExactly(h.live, e, true, h.maxQueue);
      Q.PostAppends(h.live, e, true, h.maxQueue);
      LastNumber(R.Post(h.live, e, true, h.maxQueue).0, h.live, e, h.maxQueue);
    }
  }

  /** The last envelope of a queue carries its length. */
  lemma LastNumber(l: R.Live, live: R.Live, e: Envelope, maxQueue: nat)
    requires Q.LiveOk(live, maxQueue) && l == R.Post(live, e, true, maxQueue).0
    ensures live.results.accepted <= l.results.accepted
    ensures Q.LastOf(l.results.accepted) == Some(e) ==> e.number == |l.results.accepted|
  {
    var a := l.results.accepted;
    if a == live.results.accepted && a != [] {
      assert a[|a| - 1].number == |a|;
    }
  }

  lemma OthersAccepted(h: State, s: Step)
    requires Inv(h) && SentAccepted(h) && !s.CollectorSend?
    ensures SentAccepted(Apply(h, s))
  {
    hide P.Inv, Genuine, InboxOk, P.OpenJob, P.AcceptResult, R.Post, Q.SideOk;
    match s
    case PostArrives(e, results) => Q.PostAppends(h.live, e, results, h.maxQueue);
    case CollectorTake =>
      if h.jobInbox != [] { OpenKeepsCount(h.w, h.jobInbox[0]); }
    case McpTake(save) =>
      if h.resultInbox != [] { AcceptKeepsCount(h.w, h.resultInbox[0], save); }
    case _ =>
  }

  lemma OpenKeepsCount(w: P.World, e: Envelope)
    ensures P.OpenJob(w, e).collector.nextResult == w.collector.nextResult
  {
  }

  lemma AcceptKeepsCount(w: P.World, e: Envelope, save: P.Save)
    ensures P.AcceptResult(w, e, save).collector == w.collector
  {
  }

  lemma {:induction false} CountReachable(h: State, steps: seq<Step>)
    requires Inv(h) && SentAccepted(h)
    ensures SentAccepted(Exec(h, steps))
    decreases |steps|
  {
    hide Inv, SentAccepted, Apply;
    if steps != [] {
      ApplyKeeps(h, steps[0]);
      SentStep(h, steps[0]);
      CountReachable(Apply(h, steps[0]), steps[1..]);
    }
  }

  lemma SentStep(h: State, s: Step)
    requires Inv(h) && SentAccepted(h)
    ensures SentAccepted(Apply(h, s))
  {
    hide Inv, SentAccepted, Send;
    match s
    case CollectorSend(plaintext, ciphertext, reached, answered, audited) => SendAccepted(h, plaintext, ciphertext, reached, answered, audited);
    case _ => OthersAccepted(h, s);
  }

  // ----- the theorems

  /** Every result that the collector counts as sent is in the relay's queue history, at its
      place: the i-th accepted envelope is the i-th sealed one. */
  lemma CountedIsAccepted(id: SessionID, info: R.JoinInfo, maxQueue: nat, expiresAt: int, steps: seq<Step>, i: nat)
    ensures var h := Exec(Init(id, info, maxQueue, expiresAt), steps);
            && h.w.collector.nextResult <= |h.live.results.accepted| + 1 <= |h.w.resultLog| + 1
            && (i < |h.live.results.accepted| ==> h.live.results.accepted[i] == h.w.resultLog[i].envelope)
            && (i + 1 < h.w.collector.nextResult ==> i < |h.live.results.accepted|)
  {
    hide P.Inv, InboxOk, Exec;
    var start := Init(id, info, maxQueue, expiresAt);
    InitInv(id, info, maxQueue, expiresAt);
    ExecKeeps(start, steps);
    CountReachable(start, steps);
    var h := Exec(start, steps);
    var a := h.live.results.accepted;
    if i < |a| {
      assert a[i] in h.resultPosts;
      SealedNumber(h.w, a[i]);
    }
    if a != [] {
      assert a[|a| - 1] in h.resultPosts;
      SealedNumber(h.w, a[|a| - 1]);
    }
  }

  lemma SealedNumber(w: P.World, e: Envelope)
    requires P.Inv(w) && Sealed(w.resultLog, e)
    ensures 1 <= e.number <= |w.resultLog| && w.resultLog[e.number - 1].envelope == e
  {
    hide P.JobsOk, P.HandledOk, P.ConsumedOk, P.AcceptedOk;
    var r :| r in w.resultLog && r.envelope == e;
    var k :| 0 <= k < |w.resultLog| && w.resultLog[k] == r;
  }

  /** Despite retries and late duplicates, in every reachable state
      collector.nextJob <= relay.nextJob <= MCP.NextJobSeq and
      MCP.NextResultSeq <= relay.nextResult <= collector.nextResult + 1. */
  lemma CountersChain(id: SessionID, info: R.JoinInfo, maxQueue: nat, expiresAt: int, steps: seq<Step>)
    ensures var h := Exec(Init(id, info, maxQueue, expiresAt), steps);
            && h.w.collector.nextJob <= h.live.jobs.next <= h.w.disk.nextJob
            && h.w.disk.nextResult <= h.live.results.next <= h.w.collector.nextResult + 1
  {
    InitInv(id, info, maxQueue, expiresAt);
    ExecKeeps(Init(id, info, maxQueue, expiresAt), steps);
    ChainHolds(Exec(Init(id, info, maxQueue, expiresAt), steps));
  }

  /** If no poll response was lost, the endpoints drop nothing: every job the relay
      delivered was handled or waits in the inbox, every result it delivered was consumed
      or waits; and while the session lives, delivered and pending are all it accepted. */
  lemma NothingDropped(id: SessionID, info: R.JoinInfo, maxQueue: nat, expiresAt: int, steps: seq<Step>)
    ensures var h := Exec(Init(id, info, maxQueue, expiresAt), steps);
            && (!h.jobsLost ==> |h.w.handled| <= |h.live.jobs.delivered| && h.jobInbox == h.live.jobs.delivered[|h.w.handled|..])
            && (!h.resultsLost ==> |h.w.consumed| <= |h.live.results.delivered| && h.resultInbox == h.live.results.delivered[|h.w.consumed|..])
            && (!h.live.gone ==> h.live.jobs.delivered + h.live.jobs.pending == h.live.jobs.accepted &&
                                 h.live.results.delivered + h.live.results.pending == h.live.results.accepted)
  {
    hide P.Inv;
    var h := Exec(Init(id, info, maxQueue, expiresAt), steps);
    ExecKeeps(Init(id, info, maxQueue, expiresAt), steps) by { InitInv(id, info, maxQueue, expiresAt); }
    HistoryLengths(h.w);
  }

  lemma InitInv(id: SessionID, info: R.JoinInfo, maxQueue: nat, expiresAt: int)
    ensures Inv(Init(id, info, maxQueue, expiresAt))
  {
  }
}

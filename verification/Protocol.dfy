/** The live-session protocol between the local MCP and the collector, over a network
    and a relay that may drop, delay, duplicate, reorder and invent envelopes, with an
    MCP that may crash and reload at any point.

    A run is any list of steps. A step that is not enabled does nothing, so the theorems
    quantify over every list of steps without a side condition. One MCP process uses
    the session file, as `Server.mu` assumes. */
module Protocol {
  import opened Base
  import opened Envelopes

  // ----- state

  /** The two counters of the session file. */
  datatype Counters = Counters(nextJob: nat, nextResult: nat)

  /** How a save of the session file ends. `FailedNew` is a write that reached the disk
      although the process did not survive to see it, or was told otherwise. */
  datatype Save = Saved | FailedOld | FailedNew

  /** The MCP between its steps: no call in progress, a call holding a loaded session,
      or a call that has persisted the next counter and is about to seal `number`. */
  datatype Mcp =
    | Idle
    | Ready(stored: Counters)
    | Reserved(stored: Counters, number: nat, raw: Bytes)

  /** `current` is the sequence number of the envelope being handled while `busy`. */
  datatype Collector = Collector(running: bool, busy: bool, current: nat, nextJob: nat, nextResult: nat)

  datatype Job = Job(kind: Byte, plaintext: Bytes)
  datatype Accepted = Accepted(number: nat, plaintext: Bytes)

  /** How the post of a sealed result and the audit entry after it end. */
  datatype Post = Delivered | PostFailed | AuditFailed

  /** `jobLog` and `resultLog` are what was sealed under the two keys; `handled` what the
      collector handled; `consumed` the results whose number the session file has passed,
      `accepted` those of them that also reached the MCP's result cache. */
  datatype World = World(
    id: SessionID, disk: Counters, mcp: Mcp, collector: Collector,
    jobLog: seq<Sealing>, resultLog: seq<Sealing>,
    handled: seq<Job>, consumed: seq<Bytes>, accepted: seq<Accepted>)

  function Init(id: SessionID): World {
    World(id, Counters(1, 1), Idle, Collector(true, false, 0, 1, 1), [], [], [], [], [])
  }

  // ----- MCP steps

  /** The range check of session.Load. */
  predicate Loadable(c: Counters) {
    1 <= c.nextJob <= MAX_SESSION_SEQ + 1 && 1 <= c.nextResult <= MAX_SESSION_SEQ + 1
  }

  /** A tool call starts: whatever was in memory is gone, the session file is read. */
  function Load(w: World): World {
    w.(mcp := if Loadable(w.disk) then Ready(w.disk) else Idle)
  }

  /** submit, up to the save of the incremented counter. */
  function Reserve(w: World, raw: Bytes, save: Save): World {
    if !w.mcp.Ready? then w
    else if |raw| > MAX_JOB_BYTES - TAG_BYTES || w.mcp.stored.nextJob >= MAX_SESSION_SEQ then w.(mcp := Idle)
    else
      var number := w.mcp.stored.nextJob;
      var stored := w.mcp.stored.(nextJob := number + 1);
      match save
      case Saved => w.(disk := stored, mcp := Reserved(stored, number, raw))
      case FailedOld => w.(mcp := Idle)
      case FailedNew => w.(disk := stored, mcp := Idle)
  }

  /** submit, from the save on: seal under the reserved number. */
  function SealJob(w: World, ciphertext: Bytes): World {
    if !w.mcp.Reserved? || |ciphertext| != |w.mcp.raw| + TAG_BYTES then w
    else match SealSession(w.id, w.mcp.number, CLASS_READ, w.mcp.raw, ciphertext, MAX_JOB_BYTES)
      case None => w.(mcp := Idle)
      case Some(e) => w.(jobLog := w.jobLog + [Sealing(e, w.mcp.raw)], mcp := Ready(w.mcp.stored))
  }

  /** await, for one envelope of a poll. */
  function AcceptResult(w: World, e: Envelope, save: Save): World {
    if !w.mcp.Ready? then w
    else match OpenSession(w.resultLog, e, w.id, w.mcp.stored.nextResult, MAX_RESULT_BYTES)
      case Plain(p) =>
        var number := w.mcp.stored.nextResult;
        var stored := w.mcp.stored.(nextResult := number + 1);
        (match save
         case Saved => w.(disk := stored, mcp := Ready(stored), consumed := w.consumed + [p],
                          accepted := w.accepted + [Accepted(number, p)])
         case FailedOld => w.(mcp := Idle)
         case FailedNew => w.(disk := stored, mcp := Idle, consumed := w.consumed + [p]))
      case _ => w
  }

  // ----- collector steps

  /** loop, for one received envelope. */
  function OpenJob(w: World, e: Envelope): World {
    var c := w.collector;
    if !c.running || c.busy then w
    else match OpenSession(w.jobLog, e, w.id, c.nextJob, MAX_JOB_BYTES)
      case Plain(p) => w.(collector := c.(busy := true, current := e.number, nextJob := c.nextJob + 1),
                          handled := w.handled + [Job(e.kind, p)])
      case _ => w
  }

  /** send: any error ends the session. */
  function SendResult(w: World, plaintext: Bytes, ciphertext: Bytes, post: Post): World {
    var c := w.collector;
    if !c.running || !c.busy || |ciphertext| != |plaintext| + TAG_BYTES then w
    else if c.nextResult > MAX_SESSION_SEQ then w.(collector := c.(running := false))
    else match SealSession(w.id, c.nextResult, CLASS_READ, plaintext, ciphertext, MAX_RESULT_BYTES)
      case None => w.(collector := c.(running := false))
      case Some(e) => w.(resultLog := w.resultLog + [Sealing(e, plaintext)],
                         collector := if post.Delivered? then c.(nextResult := c.nextResult + 1) else c.(running := false))
  }

  /** handle returned without an error. */
  function FinishJob(w: World): World {
    var c := w.collector;
    if !c.running || !c.busy then w
    else w.(collector := c.(busy := false,
                            running := !(c.current == MAX_SESSION_SEQ || c.nextResult > MAX_SESSION_SEQ)))
  }

  datatype Step =
    | McpLoad
    | McpCrash
    | McpReserve(raw: Bytes, save: Save)
    | McpSeal(ciphertext: Bytes)
    | McpReceive(e: Envelope, save: Save)
    | CollectorReceive(e: Envelope)
    | CollectorSend(plaintext: Bytes, ciphertext: Bytes, post: Post)
    | CollectorFinish
    | CollectorStop

  function Apply(w: World, s: Step): World {
    match s
    case McpLoad => Load(w)
    case McpCrash => w.(mcp := Idle)
    case McpReserve(raw, save) => Reserve(w, raw, save)
    case McpSeal(ciphertext) => SealJob(w, ciphertext)
    case McpReceive(e, save) => AcceptResult(w, e, save)
    case CollectorReceive(e) => OpenJob(w, e)
    case CollectorSend(plaintext, ciphertext, post) => SendResult(w, plaintext, ciphertext, post)
    case CollectorFinish => FinishJob(w)
    case CollectorStop => w.(collector := w.collector.(running := false))
  }

  function Exec(w: World, steps: seq<Step>): World
    decreases |steps|
  {
    if steps == [] then w else Exec(Apply(w, steps[0]), steps[1..])
  }

  lemma {:induction false} ExecAppend(w: World, a: seq<Step>, b: seq<Step>)
    ensures Exec(w, a + b) == Exec(Exec(w, a), b)
    decreases |a|
  {
    if a == [] {
      assert a + b == b;
    } else {
      assert (a + b)[1..] == a[1..] + b;
      ExecAppend(Apply(w, a[0]), a[1..], b);
    }
  }

  lemma ExecOne(w: World, steps: seq<Step>, s: Step)
    ensures Exec(w, steps + [s]) == Apply(Exec(w, steps), s)
  {
    hide Apply;
    ExecAppend(w, steps, [s]);
    var v := Exec(w, steps);
    assert [s][1..] == [];
    assert Exec(v, [s]) == Exec(Apply(v, s), []);
  }

  lemma ApplyKeepsID(w: World, s: Step)
    ensures Apply(w, s).id == w.id
  {
  }

  predicate IsMcpStep(s: Step) {
    s.McpLoad? || s.McpCrash? || s.McpReserve? || s.McpSeal? || s.McpReceive?
  }

  /** The steps of a list that are the MCP's. */
  function McpOnly(steps: seq<Step>): (r: seq<Step>)
    ensures forall i :: 0 <= i < |r| ==> IsMcpStep(r[i])
  {
    if steps == [] then []
    else (if IsMcpStep(steps[0]) then [steps[0]] else []) + McpOnly(steps[1..])
  }

  /** The MCP's steps leave the collector's share of the state alone. */
  lemma {:induction false} McpLeavesCollector(w: World, steps: seq<Step>)
    requires forall i :: 0 <= i < |steps| ==> IsMcpStep(steps[i])
    ensures var v := Exec(w, steps);
            v.id == w.id && v.collector == w.collector && v.resultLog == w.resultLog && v.handled == w.handled
    decreases |steps|
  {
    if steps != [] {
      McpLeavesCollector(Apply(w, steps[0]), steps[1..]);
    }
  }

  // ----- the invariant

  ghost predicate Increasing(log: seq<Sealing>) {
    forall i, j :: 0 <= i < j < |log| ==> log[i].envelope.number < log[j].envelope.number
  }

  /** Job numbers: everything sealed lies below the persisted counter, and below the
      reserved number while one is reserved. */
  ghost predicate JobsOk(w: World) {
    && Loadable(w.disk) && w.disk.nextJob <= MAX_SESSION_SEQ
    && (w.mcp.Idle? || w.mcp.stored == w.disk)
    && (w.mcp.Reserved? ==> 1 <= w.mcp.number == w.disk.nextJob - 1)
    && Increasing(w.jobLog)
    && forall r :: r in w.jobLog ==>
         && Validate(r.envelope, w.id, MAX_JOB_BYTES)
         && r.envelope.number < (if w.mcp.Reserved? then w.mcp.number else w.disk.nextJob)
  }

  /** Result numbers: the k-th sealing carries k; only a stopped collector may have
      sealed the number its counter still shows. */
  ghost predicate ResultsOk(w: World) {
    var c := w.collector;
    && 1 <= c.nextResult <= MAX_SESSION_SEQ + 1
    && (|w.resultLog| == c.nextResult - 1 || (!c.running && |w.resultLog| == c.nextResult))
    && forall k :: 0 <= k < |w.resultLog| ==>
         && w.resultLog[k].envelope.number == k + 1
         && Validate(w.resultLog[k].envelope, w.id, MAX_RESULT_BYTES)
  }

  ghost predicate HandledOk(w: World) {
    && |w.handled| == w.collector.nextJob - 1
    && forall i :: 0 <= i < |w.handled| ==> SealedJob(w, i + 1, w.handled[i])
  }

  /** The MCP sealed `job` under `number`. */
  ghost predicate SealedJob(w: World, number: nat, job: Job) {
    exists r :: r in w.jobLog && r.envelope.number == number && r.envelope.kind == job.kind && r.plaintext == job.plaintext
  }

  ghost predicate ConsumedOk(w: World) {
    && |w.consumed| == w.disk.nextResult - 1 <= |w.resultLog|
    && forall i :: 0 <= i < |w.consumed| ==> w.consumed[i] == w.resultLog[i].plaintext
  }

  ghost predicate AcceptedOk(w: World) {
    && (forall i, j :: 0 <= i < j < |w.accepted| ==> w.accepted[i].number < w.accepted[j].number)
    && forall i :: 0 <= i < |w.accepted| ==>
         1 <= w.accepted[i].number <= |w.consumed| && w.accepted[i].plaintext == w.consumed[w.accepted[i].number - 1]
  }

  ghost predicate Inv(w: World) {
    JobsOk(w) && ResultsOk(w) && HandledOk(w) && ConsumedOk(w) && AcceptedOk(w)
  }

  // ----- every step keeps it

  /** A sealing under the reserved number joins the job log. */
  lemma SealJobKeepsLog(w: World, w': World, r: Sealing)
    requires Inv(w) && w.mcp.Reserved?
    requires Validate(r.envelope, w.id, MAX_JOB_BYTES) && r.envelope.number == w.mcp.number
    requires w' == w.(jobLog := w.jobLog + [r], mcp := Ready(w.disk))
    ensures Inv(w')
  {
    forall i | 0 <= i < |w.handled|
      ensures SealedJob(w', i + 1, w.handled[i])
    {
      assert SealedJob(w, i + 1, w.handled[i]);
      var r :| r in w.jobLog && r.envelope.number == i + 1 && r.envelope.kind == w.handled[i].kind && r.plaintext == w.handled[i].plaintext;
      assert r in w'.jobLog;
    }
  }

  lemma SealJobKeeps(w: World, ciphertext: Bytes)
    requires Inv(w)
    ensures Inv(SealJob(w, ciphertext))
  {
    var w' := SealJob(w, ciphertext);
    if w'.jobLog == w.jobLog {
      QuietKeeps(w, w');
    } else {
      var r := w'.jobLog[|w.jobLog|];
      ParseSessionIDExact(r.envelope.sessionID, w.id);
      SealJobKeepsLog(w, w', r);
    }
  }

  /** Steps that only change who is running or what is in memory. */
  lemma QuietKeeps(w: World, w': World)
    requires Inv(w)
    requires w' == w.(mcp := w'.mcp, collector := w'.collector)
    requires w'.mcp == w.mcp || w'.mcp == Idle || w'.mcp == Ready(w.disk)
    requires w'.collector.nextJob == w.collector.nextJob && w'.collector.nextResult == w.collector.nextResult
    requires w'.collector.running ==> w.collector.running
    ensures Inv(w')
  {
    KeepsHandled(w, w');
  }

  lemma ReserveKeeps(w: World, raw: Bytes, save: Save)
    requires Inv(w)
    ensures Inv(Reserve(w, raw, save))
  {
    hide HandledOk, Increasing;
    var w' := Reserve(w, raw, save);
    if w'.disk == w.disk {
      QuietKeeps(w, w');
    } else {
      assert w' == w.(disk := w'.disk, mcp := w'.mcp);
      KeepsHandled(w, w');
    }
  }

  /** `handled` stays justified while neither it nor the job log changes. */
  lemma KeepsHandled(w: World, w': World)
    requires HandledOk(w)
    requires w'.handled == w.handled && w'.jobLog == w.jobLog && w'.collector.nextJob == w.collector.nextJob
    ensures HandledOk(w')
  {
    forall i | 0 <= i < |w'.handled| ensures SealedJob(w', i + 1, w'.handled[i]) {
      assert SealedJob(w, i + 1, w.handled[i]);
    }
  }

  /** What opens as the next result is the sealing at the index the counter names. */
  lemma NextResultOpens(w: World, e: Envelope)
    requires ResultsOk(w) && w.disk.nextResult >= 1
    requires OpenSession(w.resultLog, e, w.id, w.disk.nextResult, MAX_RESULT_BYTES).Plain?
    ensures w.disk.nextResult <= |w.resultLog|
    ensures OpenSession(w.resultLog, e, w.id, w.disk.nextResult, MAX_RESULT_BYTES).plaintext ==
            w.resultLog[w.disk.nextResult - 1].plaintext
  {
    OpenExactly(w.resultLog, e, w.id, w.disk.nextResult, MAX_RESULT_BYTES);
    var p := OpenSession(w.resultLog, e, w.id, w.disk.nextResult, MAX_RESULT_BYTES).plaintext;
    var k :| 0 <= k < |w.resultLog| && w.resultLog[k] == Sealing(e, p);
  }

  /** The next sealed result is consumed: the counter passes it. */
  lemma ConsumeKeeps(w: World, w': World, m: Mcp, kept: bool)
    requires Inv(w) && w.disk.nextResult <= |w.resultLog|
    requires m.Idle? || m == Ready(w.disk.(nextResult := w.disk.nextResult + 1))
    requires !w.mcp.Reserved?
    requires var p := w.resultLog[w.disk.nextResult - 1].plaintext;
             w' == w.(disk := w.disk.(nextResult := w.disk.nextResult + 1), mcp := m, consumed := w.consumed + [p],
                      accepted := if kept then w.accepted + [Accepted(w.disk.nextResult, p)] else w.accepted)
    ensures Inv(w')
  {
    hide HandledOk, AcceptedOk, Increasing;
    assert JobsOk(w') && ResultsOk(w') && ConsumedOk(w');
    KeepsHandled(w, w');
    AcceptedGrows(w, w', kept);
  }

  lemma AcceptedGrows(w: World, w': World, kept: bool)
    requires ConsumedOk(w) && AcceptedOk(w) && w.disk.nextResult <= |w.resultLog|
    requires |w'.consumed| == |w.consumed| + 1 && w.consumed <= w'.consumed
    requires w'.accepted == if kept then w.accepted + [Accepted(|w'.consumed|, w'.consumed[|w.consumed|])] else w.accepted
    ensures AcceptedOk(w')
  {
    forall i | 0 <= i < |w'.accepted|
      ensures 1 <= w'.accepted[i].number <= |w'.consumed| && w'.accepted[i].plaintext == w'.consumed[w'.accepted[i].number - 1]
    {
      if i < |w.accepted| {
        assert w'.accepted[i] == w.accepted[i];
      }
    }
  }

  lemma AcceptResultKeeps(w: World, e: Envelope, save: Save)
    requires Inv(w)
    ensures Inv(AcceptResult(w, e, save))
  {
    var w' := AcceptResult(w, e, save);
    if w.mcp.Ready? && OpenSession(w.resultLog, e, w.id, w.disk.nextResult, MAX_RESULT_BYTES).Plain? {
      NextResultOpens(w, e);
      if save.FailedOld? {
        assert w' == w.(mcp := Idle);
        KeepsHandled(w, w');
      } else {
        ConsumeKeeps(w, w', w'.mcp, save.Saved?);
      }
    }
  }

  lemma OpenJobKeeps(w: World, e: Envelope)
    requires Inv(w)
    ensures Inv(OpenJob(w, e))
  {
    var w' := OpenJob(w, e);
    OpenExactly(w.jobLog, e, w.id, w.collector.nextJob, MAX_JOB_BYTES);
    forall i | 0 <= i < |w'.handled| ensures SealedJob(w', i + 1, w'.handled[i]) {
      if i < |w.handled| {
        assert SealedJob(w, i + 1, w.handled[i]);
      } else {
        assert Sealing(e, w'.handled[i].plaintext) in w'.jobLog;
      }
    }
  }

  /** A sealing under the next number joins the result log. */
  lemma SealResultKeeps(w: World, w': World, r: Sealing)
    requires Inv(w) && w.collector.running
    requires Validate(r.envelope, w.id, MAX_RESULT_BYTES) && r.envelope.number == w.collector.nextResult <= MAX_SESSION_SEQ
    requires w' == w.(resultLog := w.resultLog + [r], collector := w'.collector)
    requires w'.collector == w.collector.(nextResult := w.collector.nextResult + 1) || w'.collector == w.collector.(running := false)
    ensures Inv(w')
  {
    KeepsHandled(w, w');
    forall k | 0 <= k < |w'.resultLog|
      ensures w'.resultLog[k].envelope.number == k + 1 && Validate(w'.resultLog[k].envelope, w.id, MAX_RESULT_BYTES)
    {
      assert w'.resultLog[k] == if k < |w.resultLog| then w.resultLog[k] else r;
    }
  }

  lemma SendResultKeeps(w: World, plaintext: Bytes, ciphertext: Bytes, post: Post)
    requires Inv(w)
    ensures Inv(SendResult(w, plaintext, ciphertext, post))
  {
    var w' := SendResult(w, plaintext, ciphertext, post);
    if w'.resultLog == w.resultLog {
      QuietKeeps(w, w');
    } else {
      var r := w'.resultLog[|w.resultLog|];
      ParseSessionIDExact(r.envelope.sessionID, w.id);
      SealResultKeeps(w, w', r);
    }
  }

  lemma ApplyKeeps(w: World, s: Step)
    requires Inv(w)
    ensures Inv(Apply(w, s))
  {
    match s
    case McpReserve(raw, save) => ReserveKeeps(w, raw, save);
    case McpSeal(ciphertext) => SealJobKeeps(w, ciphertext);
    case McpReceive(e, save) => AcceptResultKeeps(w, e, save);
    case CollectorReceive(e) => OpenJobKeeps(w, e);
    case CollectorSend(plaintext, ciphertext, post) => SendResultKeeps(w, plaintext, ciphertext, post);
    case McpLoad => QuietKeeps(w, Apply(w, s));
    case McpCrash => QuietKeeps(w, Apply(w, s));
    case CollectorFinish => QuietKeeps(w, Apply(w, s));
    case CollectorStop => QuietKeeps(w, Apply(w, s));
  }

  lemma {:induction false} ExecKeeps(w: World, steps: seq<Step>)
    requires Inv(w)
    ensures Inv(Exec(w, steps))
    decreases |steps|
  {
    hide Inv;
    if steps != [] {
      ApplyKeeps(w, steps[0]);
      ExecKeeps(Apply(w, steps[0]), steps[1..]);
    }
  }

  lemma ReachableInv(id: SessionID, steps: seq<Step>)
    ensures Inv(Exec(Init(id), steps))
  {
    ExecKeeps(Init(id), steps);
  }

  // ----- the theorems

  /** No nonce is used twice under either key: the IV uniqueness requirement of section 8
      of NIST SP 800-38D, over whole runs with crashes, failed saves and failed posts. */
  lemma SealOnce(id: SessionID, steps: seq<Step>)
    ensures var w := Exec(Init(id), steps);
            forall i, j :: 0 <= i < j < |w.jobLog| ==>
              && WellFormed(w.jobLog[i].envelope) && WellFormed(w.jobLog[j].envelope)
              && Nonce(w.jobLog[i].envelope.number) != Nonce(w.jobLog[j].envelope.number)
    ensures var w := Exec(Init(id), steps);
            forall i, j :: 0 <= i < j < |w.resultLog| ==>
              && WellFormed(w.resultLog[i].envelope) && WellFormed(w.resultLog[j].envelope)
              && Nonce(w.resultLog[i].envelope.number) != Nonce(w.resultLog[j].envelope.number)
  {
    var w := Exec(Init(id), steps);
    ReachableInv(id, steps);
    forall i, j | 0 <= i < j < |w.jobLog|
      ensures WellFormed(w.jobLog[i].envelope) && WellFormed(w.jobLog[j].envelope)
      ensures Nonce(w.jobLog[i].envelope.number) != Nonce(w.jobLog[j].envelope.number)
    {
      assert w.jobLog[i] in w.jobLog && w.jobLog[j] in w.jobLog;
      NonceInjective(w.jobLog[i].envelope.number, w.jobLog[j].envelope.number);
    }
    forall i, j | 0 <= i < j < |w.resultLog|
      ensures WellFormed(w.resultLog[i].envelope) && WellFormed(w.resultLog[j].envelope)
      ensures Nonce(w.resultLog[i].envelope.number) != Nonce(w.resultLog[j].envelope.number)
    {
      NonceInjective(w.resultLog[i].envelope.number, w.resultLog[j].envelope.number);
    }
  }

  /** Whatever the network does, the i-th job the collector handles is the class and the
      plaintext the MCP sealed under number i, and the MCP sealed nothing else under it. */
  lemma JobsEndToEnd(id: SessionID, steps: seq<Step>, i: nat)
    requires i < |Exec(Init(id), steps).handled|
    ensures var w := Exec(Init(id), steps);
            && SealedJob(w, i + 1, w.handled[i])
            && forall r :: r in w.jobLog && r.envelope.number == i + 1 ==> w.handled[i] == Job(r.envelope.kind, r.plaintext)
  {
    var w := Exec(Init(id), steps);
    ReachableInv(id, steps);
    assert SealedJob(w, i + 1, w.handled[i]);
    var s :| s in w.jobLog && s.envelope.number == i + 1 && s.envelope.kind == w.handled[i].kind && s.plaintext == w.handled[i].plaintext;
    forall r | r in w.jobLog && r.envelope.number == i + 1 ensures r == s {
      var a :| 0 <= a < |w.jobLog| && w.jobLog[a] == r;
      var b :| 0 <= b < |w.jobLog| && w.jobLog[b] == s;
      assert !(a < b) && !(b < a);
    }
  }

  /** The results the MCP accepts carry strictly increasing numbers, so none is accepted
      twice, and each is the plaintext the collector sealed under that number. */
  lemma ResultsEndToEnd(id: SessionID, steps: seq<Step>, i: nat)
    requires i < |Exec(Init(id), steps).accepted|
    ensures var w := Exec(Init(id), steps); var a := w.accepted[i];
            && (forall j :: 0 <= j < i ==> w.accepted[j].number < a.number)
            && (exists r :: r in w.resultLog && r.envelope.number == a.number)
            && forall r :: r in w.resultLog && r.envelope.number == a.number ==> r.plaintext == a.plaintext
  {
    var w := Exec(Init(id), steps);
    ReachableInv(id, steps);
    var a := w.accepted[i];
    assert w.resultLog[a.number - 1] in w.resultLog;
    forall r | r in w.resultLog && r.envelope.number == a.number ensures r.plaintext == a.plaintext {
      var k :| 0 <= k < |w.resultLog| && w.resultLog[k] == r;
    }
  }

  /** The results the session file has passed are exactly the first ones the collector
      sealed, in order and without a gap. */
  lemma ConsumedIsPrefix(id: SessionID, steps: seq<Step>)
    ensures var w := Exec(Init(id), steps);
            && |w.consumed| == w.disk.nextResult - 1 <= |w.resultLog|
            && forall i :: 0 <= i < |w.consumed| ==>
                 w.resultLog[i].envelope.number == i + 1 && w.consumed[i] == w.resultLog[i].plaintext
  {
    ReachableInv(id, steps);
  }

  lemma ApplyGrows(w: World, s: Step)
    ensures var w' := Apply(w, s);
            w.handled <= w'.handled && w.accepted <= w'.accepted && w.consumed <= w'.consumed &&
            w.jobLog <= w'.jobLog && w.resultLog <= w'.resultLog
  {
  }

  /** Nothing handled, accepted or sealed is ever taken back by later steps. */
  lemma {:induction false} HistoryGrows(w: World, steps: seq<Step>)
    ensures var w' := Exec(w, steps);
            w.handled <= w'.handled && w.accepted <= w'.accepted && w.consumed <= w'.consumed &&
            w.jobLog <= w'.jobLog && w.resultLog <= w'.resultLog
    decreases |steps|
  {
    if steps != [] {
      var v := Apply(w, steps[0]);
      ApplyGrows(w, steps[0]);
      HistoryGrows(v, steps[1..]);
    }
  }

  // ----- a job and its result go through

  /** From any reachable state in which the MCP has its session loaded: a job that fits is
      sealed under the next number and saved before. */
  lemma JobIsSealed(w: World, raw: Bytes, ciphertext: Bytes)
    requires Inv(w) && w.mcp.Ready? && w.disk.nextJob < MAX_SESSION_SEQ
    requires 0 < |raw| <= MAX_JOB_BYTES - TAG_BYTES && |ciphertext| == |raw| + TAG_BYTES
    ensures var v := SealJob(Reserve(w, raw, Saved), ciphertext);
            && |v.jobLog| == |w.jobLog| + 1 && v.jobLog[..|w.jobLog|] == w.jobLog
            && v.jobLog[|w.jobLog|].plaintext == raw && v.jobLog[|w.jobLog|].envelope.number == w.disk.nextJob
            && v.jobLog[|w.jobLog|].envelope.kind == CLASS_READ && v.jobLog[|w.jobLog|].envelope.payload == ciphertext
            && v.mcp.Ready? && v.disk == w.disk.(nextJob := w.disk.nextJob + 1) && v.collector == w.collector && v.resultLog == w.resultLog
            && v.handled == w.handled && v.id == w.id && v.consumed == w.consumed && v.accepted == w.accepted
  {
    hide HandledOk, ResultsOk, ConsumedOk, AcceptedOk, Increasing;
    SealsExactly(w.id, w.disk.nextJob, CLASS_READ, raw, ciphertext, MAX_JOB_BYTES);
  }

  /** A sealed job that carries the number the collector expects is handled, as sealed. */
  lemma JobIsHandled(w: World, k: nat)
    requires Inv(w) && k < |w.jobLog| && w.collector.running && !w.collector.busy
    requires w.jobLog[k].envelope.number == w.collector.nextJob
    ensures var v := OpenJob(w, w.jobLog[k].envelope);
            && v.handled == w.handled + [Job(w.jobLog[k].envelope.kind, w.jobLog[k].plaintext)]
            && v.collector == w.collector.(busy := true, current := w.collector.nextJob, nextJob := w.collector.nextJob + 1)
  {
    hide HandledOk, ResultsOk, ConsumedOk, AcceptedOk;
    var r := w.jobLog[k];
    assert r in w.jobLog;
    OpenExactly(w.jobLog, r.envelope, w.id, w.collector.nextJob, MAX_JOB_BYTES);
    var p := OpenSession(w.jobLog, r.envelope, w.id, w.collector.nextJob, MAX_JOB_BYTES).plaintext;
    var j :| 0 <= j < |w.jobLog| && w.jobLog[j] == Sealing(r.envelope, p);
    assert !(j < k) && !(k < j);
  }

  /** A result that fits is sealed under the collector's next number and counted. */
  lemma ResultIsSealed(w: World, plaintext: Bytes, ciphertext: Bytes)
    requires Inv(w) && w.collector.running && w.collector.busy && w.collector.nextResult <= MAX_SESSION_SEQ
    requires 0 < |plaintext| <= MAX_RESULT_BYTES - TAG_BYTES && |ciphertext| == |plaintext| + TAG_BYTES
    ensures var v := SendResult(w, plaintext, ciphertext, Delivered);
            && |v.resultLog| == |w.resultLog| + 1 == v.collector.nextResult - 1 && v.resultLog[..|w.resultLog|] == w.resultLog
            && v.resultLog[|w.resultLog|].plaintext == plaintext && v.resultLog[|w.resultLog|].envelope.number == w.collector.nextResult
            && v.collector == w.collector.(nextResult := w.collector.nextResult + 1) && v.mcp == w.mcp && v.disk == w.disk
  {
    hide JobsOk, HandledOk, ConsumedOk, AcceptedOk;
    SealsExactly(w.id, w.collector.nextResult, CLASS_READ, plaintext, ciphertext, MAX_RESULT_BYTES);
  }

  /** A sealed result that carries the number the session file expects is accepted, as
      sealed, if the file can be saved. */
  lemma ResultIsAccepted(w: World)
    requires Inv(w) && w.mcp.Ready? && w.disk.nextResult <= |w.resultLog|
    ensures var n := w.disk.nextResult; var r := w.resultLog[n - 1]; var v := AcceptResult(w, r.envelope, Saved);
            && v.accepted == w.accepted + [Accepted(n, r.plaintext)] && v.disk == w.disk.(nextResult := n + 1)
            && v.mcp == Ready(v.disk)
  {
    hide HandledOk, AcceptedOk, Increasing;
    var n := w.disk.nextResult;
    var r := w.resultLog[n - 1];
    OpenExactly(w.resultLog, r.envelope, w.id, n, MAX_RESULT_BYTES);
    var p := OpenSession(w.resultLog, r.envelope, w.id, n, MAX_RESULT_BYTES).plaintext;
    var j :| 0 <= j < |w.resultLog| && w.resultLog[j] == Sealing(r.envelope, p);
  }

  /** A call can always load the session file of a reachable state. */
  lemma SessionLoads(w: World)
    requires Inv(w)
    ensures Load(w).mcp == Ready(w.disk)
  {
    hide HandledOk, ResultsOk, ConsumedOk, AcceptedOk, Increasing;
  }
}

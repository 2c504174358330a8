/** The MCP server's live-session calls: `submit` and `await` advance and save the
    counters of the session file and fill the result cache. Both are proved to perform
    exactly the protocol steps that the theorems of module Protocol are about. */
module McpServer {
  import opened Base
  import opened Envelopes
  import opened Protocol

  datatype JobResult = JobResult(id: string, status: string, error: string, lines: seq<string>)

  /** The JSON decoder of result plaintexts, left uninterpreted: a full decode that may
      fail, and the reading of the `id` field alone, which is "" when there is none. */
  datatype Codec = Codec(decode: Bytes -> Option<JobResult>, identity: Bytes -> string)

  /** A malformed result still finishes the call of the job it names. */
  function Interpret(codec: Codec, raw: Bytes): JobResult {
    match codec.decode(raw)
    case Some(r) =>
      if ValidJobID(r.id) && (r.status == "ok" || r.status == "denied" || r.status == "rejected" || r.status == "error")
      then r
      else JobResult(codec.identity(raw), "error", "invalid result from collector", [])
    case None => JobResult(codec.identity(raw), "error", "invalid result from collector", [])
  }

  /** The cache after accepting results in order: a later result replaces an earlier one
      of the same job. */
  function Cached(codec: Codec, cache: map<string, JobResult>, accepted: seq<Accepted>): map<string, JobResult> {
    if accepted == [] then cache
    else
      var before := Cached(codec, cache, accepted[..|accepted| - 1]);
      var r := Interpret(codec, accepted[|accepted| - 1].plaintext);
      before[r.id := r]
  }

  /** One envelope of a poll reply, with the outcome of the save that accepting it takes. */
  datatype Delivery = Delivery(e: Envelope, save: Save)
  datatype Reply = Envelopes(list: seq<Delivery>) | PollError

  function Receives(list: seq<Delivery>): (steps: seq<Step>)
    ensures |steps| == |list|
  {
    seq(|list|, i requires 0 <= i < |list| => McpReceive(list[i].e, list[i].save))
  }

  function ReplySteps(replies: seq<Reply>): seq<Step> {
    if replies == [] then []
    else ReplySteps(replies[..|replies| - 1]) +
         (if replies[|replies| - 1].Envelopes? then Receives(replies[|replies| - 1].list) else [])
  }

  datatype Outcome = Finished | Pending(id: string) | RelayFailed | SaveFailed | SequenceMismatch

  /** Without a session in memory, receiving does nothing. */
  lemma {:induction false} IdleIgnores(w: World, list: seq<Delivery>)
    requires w.mcp.Idle?
    ensures Exec(w, Receives(list)) == w
    decreases |list|
  {
    if list != [] {
      assert Receives(list)[1..] == Receives(list[1..]);
      IdleIgnores(w, list[1..]);
    }
  }

  lemma ReceivesSplit(list: seq<Delivery>, k: nat)
    requires k < |list|
    ensures Receives(list[..k + 1]) == Receives(list[..k]) + [McpReceive(list[k].e, list[k].save)]
  {
  }

  lemma ExecReceives(w: World, list: seq<Delivery>, k: nat)
    requires k < |list|
    ensures Exec(w, Receives(list[..k + 1])) == AcceptResult(Exec(w, Receives(list[..k])), list[k].e, list[k].save)
  {
    var s := McpReceive(list[k].e, list[k].save);
    ReceivesSplit(list, k);
    ExecAppend(w, Receives(list[..k]), [s]);
    var v := Exec(w, Receives(list[..k]));
    assert Exec(v, [s]) == Exec(Apply(v, s), []);
  }

  /** Once the session in memory is lost, the rest of the batch changes nothing. */
  lemma ExecReceivesIdle(w: World, list: seq<Delivery>, k: nat)
    requires k <= |list| && Exec(w, Receives(list[..k])).mcp.Idle?
    ensures Exec(w, Receives(list)) == Exec(w, Receives(list[..k]))
  {
    assert Receives(list) == Receives(list[..k]) + Receives(list[k..]);
    ExecAppend(w, Receives(list[..k]), Receives(list[k..]));
    IdleIgnores(Exec(w, Receives(list[..k])), list[k..]);
  }

  /** The k-th envelope of a poll reply carried another number than the counter it met. */
  predicate MismatchAt(w: World, list: seq<Delivery>, k: nat) {
    && k < |list| && Exec(w, Receives(list[..k])).mcp.Ready?
    && OpenSession(w.resultLog, list[k].e, w.id, Exec(w, Receives(list[..k])).mcp.stored.nextResult, MAX_RESULT_BYTES).ErrSequence?
  }

  predicate MismatchedBefore(w: World, list: seq<Delivery>, k: nat) { exists j :: 0 <= j < k && MismatchAt(w, list, j) }

  predicate Mismatched(w: World, list: seq<Delivery>) { MismatchedBefore(w, list, |list|) }

  lemma MismatchStep(w: World, list: seq<Delivery>, k: nat)
    requires k < |list|
    ensures MismatchedBefore(w, list, k + 1) <==> MismatchedBefore(w, list, k) || MismatchAt(w, list, k)
    ensures MismatchedBefore(w, list, k + 1) ==> Mismatched(w, list)
    ensures !MismatchedBefore(w, list, 0)
  {
    hide MismatchAt;
  }

  lemma NoMismatch(w: World, list: seq<Delivery>)
    ensures !MismatchedBefore(w, list, 0) && (Mismatched(w, list) <==> MismatchedBefore(w, list, |list|))
  {
  }

  lemma NothingReceived(w: World, codec: Codec, cache: map<string, JobResult>)
    ensures Exec(w, Receives([])) == w && Cached(codec, cache, []) == cache && Exec(w, ReplySteps([])) == w
  {
  }

  lemma MismatchMeans(w: World, list: seq<Delivery>, k: nat, v: World)
    requires k < |list| && v == Exec(w, Receives(list[..k])) && v.mcp.Ready?
    ensures MismatchAt(w, list, k) <==>
            OpenSession(w.resultLog, list[k].e, w.id, v.mcp.stored.nextResult, MAX_RESULT_BYTES).ErrSequence?
  {
    hide Exec, Receives, OpenSession;
  }

  /** Some envelope of the j-th reply did, in a run that began with `w`. */
  predicate ReplyMismatched(w: World, replies: seq<Reply>, j: nat) {
    j < |replies| && replies[j].Envelopes? && Mismatched(Exec(w, ReplySteps(replies[..j])), replies[j].list)
  }

  class Server {
    const id: SessionID
    const codec: Codec
    var disk: Counters
    var results: map<string, JobResult>
    var jobLog: seq<Sealing>

    constructor (id: SessionID, codec: Codec)
      ensures this.id == id && this.codec == codec && Shows(Init(id)) && results == map[]
    {
      this.id, this.codec := id, codec;
      disk, results, jobLog := Counters(1, 1), map[], [];
    }

    /** The MCP's share of the protocol state. */
    ghost predicate Shows(w: World)
      reads this
    {
      id == w.id && disk == w.disk && jobLog == w.jobLog
    }

    /** submit: reserve a number, persist, seal and hand the envelope to the relay. */
    method Submit(stored: Counters, raw: Bytes, save: Save, ciphertext: Bytes, ghost w: World)
      returns (stored': Counters, posted: Option<Envelope>)
      requires Shows(w) && w.mcp == Ready(stored)
      requires |ciphertext| == |raw| + TAG_BYTES
      modifies this`disk, this`jobLog
      ensures var w' := Exec(w, [McpReserve(raw, save), McpSeal(ciphertext)]);
              && Shows(w')
              && w'.mcp == (if posted.Some? then Ready(stored') else Idle)
              && w'.jobLog == (if posted.Some? then w.jobLog + [Sealing(posted.value, raw)] else w.jobLog)
      ensures posted.Some? <==> 0 < |raw| <= MAX_JOB_BYTES - TAG_BYTES && 1 <= stored.nextJob < MAX_SESSION_SEQ && save.Saved?
      ensures posted.Some? ==>
                && posted.value.number == stored.nextJob < MAX_SESSION_SEQ
                && stored' == stored.(nextJob := stored.nextJob + 1) == disk
    {
      ghost var reserved := Reserve(w, raw, save);
      assert Exec(w, [McpReserve(raw, save), McpSeal(ciphertext)]) == Exec(reserved, [McpSeal(ciphertext)]);
      assert Exec(reserved, [McpSeal(ciphertext)]) == Exec(SealJob(reserved, ciphertext), []);
      stored' := stored;
      if |raw| > MAX_JOB_BYTES - TAG_BYTES {
        return stored', None;
      }
      var number := stored.nextJob;
      if number >= MAX_SESSION_SEQ {
        return stored', None;
      }
      stored' := stored.(nextJob := number + 1);
      if !save.FailedOld? {
        disk := stored';
      }
      if !save.Saved? {
        return stored', None;
      }
      posted := SealSession(id, number, CLASS_READ, raw, ciphertext, MAX_JOB_BYTES);
      SealsExactly(id, number, CLASS_READ, raw, ciphertext, MAX_JOB_BYTES);
      if posted.Some? {
        jobLog := jobLog + [Sealing(posted.value, raw)];
      }
    }

    /** One envelope of a poll reply: open, advance, save, cache. */
    method ReceiveOne(stored: Counters, d: Delivery, resultLog: seq<Sealing>, ghost w: World)
      returns (stored': Counters, saved: bool, mismatch: bool)
      requires Shows(w) && w.mcp == Ready(stored) && w.resultLog == resultLog
      modifies this`disk, this`results
      ensures var w' := AcceptResult(w, d.e, d.save);
              && Shows(w')
              && w'.mcp == (if saved then Ready(stored') else Idle)
              && w.accepted <= w'.accepted && w'.resultLog == resultLog
              && results == Cached(codec, old(results), w'.accepted[|w.accepted|..])
      ensures mismatch <==> OpenSession(resultLog, d.e, id, stored.nextResult, MAX_RESULT_BYTES).ErrSequence?
    {
      stored', saved, mismatch := stored, true, false;
      var answer := OpenSession(resultLog, d.e, id, stored.nextResult, MAX_RESULT_BYTES);
      if !answer.Plain? {
        mismatch := answer.ErrSequence?;
        return;
      }
      stored' := stored.(nextResult := stored.nextResult + 1);
      if !d.save.FailedOld? {
        disk := stored';
      }
      if !d.save.Saved? {
        saved := false;
        return;
      }
      var got := Interpret(codec, answer.plaintext);
      results := results[got.id := got];
      ghost var one := [Accepted(stored.nextResult, answer.plaintext)];
      assert AcceptResult(w, d.e, d.save).accepted[|w.accepted|..] == one;
      assert one[..0] == [];
    }

    /** The envelopes of one poll reply. `mismatch` reports an unexpected number. */
    method Receive(stored: Counters, list: seq<Delivery>, resultLog: seq<Sealing>, ghost w: World)
      returns (stored': Counters, saved: bool, mismatch: bool)
      requires Shows(w) && w.mcp == Ready(stored) && w.resultLog == resultLog
      modifies this`disk, this`results
      ensures var w' := Exec(w, Receives(list));
              && Shows(w')
              && w'.mcp == (if saved then Ready(stored') else Idle)
              && w.accepted <= w'.accepted && w'.resultLog == resultLog
              && results == Cached(codec, old(results), w'.accepted[|w.accepted|..])
      ensures mismatch ==> Mismatched(w, list)
      ensures saved ==> (mismatch <==> Mismatched(w, list))
    {
      hide Exec, AcceptResult, Receives, Cached, OpenSession, MismatchAt, MismatchedBefore, Mismatched;
      stored', saved, mismatch := stored, true, false;
      ghost var v := w;
      NothingReceived(w, codec, results);
      assert w.accepted[|w.accepted|..] == [];
      NoMismatch(w, list);
      for k := 0 to |list|
        invariant saved && Shows(v) && v.mcp == Ready(stored') && v.resultLog == resultLog
        invariant v == Exec(w, Receives(list[..k]))
        invariant w.accepted <= v.accepted
        invariant results == Cached(codec, old(results), v.accepted[|w.accepted|..])
        invariant mismatch <==> MismatchedBefore(w, list, k)
      {
        ExecReceives(w, list, k);
        MismatchStep(w, list, k);
        MismatchMeans(w, list, k, v);
        var other;
        ghost var v' := AcceptResult(v, list[k].e, list[k].save);
        ghost var n := stored'.nextResult;
        stored', saved, other := ReceiveOne(stored', list[k], resultLog, v);
        CachedExtends(codec, old(results), w.accepted, v.accepted, v'.accepted);
        v := v';
        if !saved {
          ExecReceivesIdle(w, list, k + 1);
          return;
        }
        mismatch := mismatch || other;
      }
      assert list[..|list|] == list;
    }

    /** await: poll until every job in `ids` has a result, the deadline passes (the
        replies run out) or the session fails. */
    method Await(stored: Counters, ids: seq<string>, replies: seq<Reply>, resultLog: seq<Sealing>, ghost w: World)
      returns (stored': Counters, outcome: Outcome, polls: nat)
      requires Shows(w) && w.mcp == Ready(stored) && w.resultLog == resultLog
      modifies this`disk, this`results
      ensures polls <= |replies|
      ensures var w' := Exec(w, ReplySteps(replies[..polls]));
              && Shows(w')
              && w'.mcp == (if outcome.SaveFailed? then Idle else Ready(stored'))
              && w.accepted <= w'.accepted
              && results == Cached(codec, old(results), w'.accepted[|w.accepted|..])
      ensures outcome.Finished? ==> forall i :: 0 <= i < |ids| ==> ids[i] in results
      ensures outcome.Pending? ==> polls == |replies| && outcome.id in ids && outcome.id !in results
      ensures outcome.RelayFailed? ==> polls > 0 && replies[polls - 1].PollError?
      ensures forall j :: 0 <= j < polls - 1 ==> !ReplyMismatched(w, replies, j)
      ensures !outcome.SaveFailed? ==> (outcome.SequenceMismatch? <==> polls > 0 && ReplyMismatched(w, replies, polls - 1))
    {
      hide Exec, AcceptResult, Receives, Cached, OpenSession, ReplySteps, Mismatched;
      stored', polls := stored, 0;
      ghost var v := w;
      NothingReceived(w, codec, results);
      assert w.accepted[|w.accepted|..] == [];
      while true
        invariant polls <= |replies|
        invariant Shows(v) && v.mcp == Ready(stored') && v.resultLog == resultLog
        invariant v == Exec(w, ReplySteps(replies[..polls]))
        invariant forall j :: 0 <= j < polls ==> !ReplyMismatched(w, replies, j)
        invariant w.accepted <= v.accepted
        invariant results == Cached(codec, old(results), v.accepted[|w.accepted|..])
        decreases |replies| - polls
      {
        var i := FirstMissing(ids);
        if i == |ids| {
          return stored', Finished, polls;
        }
        if polls == |replies| {
          return stored', Pending(ids[i]), polls;
        }
        var reply := replies[polls];
        ReplyExtends(w, replies, polls);
        polls := polls + 1;
        if reply.PollError? {
          return stored', RelayFailed, polls;
        }
        var saved, mismatch;
        stored', saved, mismatch := Receive(stored', reply.list, resultLog, v);
        ghost var v' := Exec(v, Receives(reply.list));
        CachedExtends(codec, old(results), w.accepted, v.accepted, v'.accepted);
        v := v';
        if !saved {
          return stored', SaveFailed, polls;
        }
        if mismatch {
          return stored', SequenceMismatch, polls;
        }
      }
    }

    /** The first job without a result, or |ids|. */
    method FirstMissing(ids: seq<string>) returns (i: nat)
      ensures i <= |ids| && (i < |ids| ==> ids[i] !in results)
      ensures forall j :: 0 <= j < i ==> ids[j] in results
    {
      i := 0;
      while i < |ids| && ids[i] in results
        invariant i <= |ids|
        invariant forall j :: 0 <= j < i ==> ids[j] in results
      {
        i := i + 1;
      }
    }
  }

  lemma ReplyExtends(w: World, replies: seq<Reply>, k: nat)
    requires k < |replies|
    ensures Exec(w, ReplySteps(replies[..k + 1])) ==
            if replies[k].Envelopes? then Exec(Exec(w, ReplySteps(replies[..k])), Receives(replies[k].list))
            else Exec(w, ReplySteps(replies[..k]))
  {
    var r := replies[..k + 1];
    assert r[..|r| - 1] == replies[..k];
    if replies[k].Envelopes? {
      ExecAppend(w, ReplySteps(replies[..k]), Receives(replies[k].list));
    } else {
      assert ReplySteps(r) == ReplySteps(replies[..k]);
    }
  }

  lemma CachedExtends(codec: Codec, cache: map<string, JobResult>, a: seq<Accepted>, b: seq<Accepted>, c: seq<Accepted>)
    requires a <= b <= c
    ensures Cached(codec, Cached(codec, cache, b[|a|..]), c[|b|..]) == Cached(codec, cache, c[|a|..])
  {
    CachedAppend(codec, cache, b[|a|..], c[|b|..]);
    assert b[|a|..] + c[|b|..] == c[|a|..];
  }

  lemma {:induction false} CachedAppend(codec: Codec, cache: map<string, JobResult>, a: seq<Accepted>, b: seq<Accepted>)
    ensures Cached(codec, cache, a + b) == Cached(codec, Cached(codec, cache, a), b)
    decreases |b|
  {
    if b == [] {
      assert a + b == a;
    } else {
      assert (a + b)[..|a + b| - 1] == a + b[..|b| - 1];
      CachedAppend(codec, cache, a, b[..|b| - 1]);
    }
  }

  /** In every run, and however often the cache was lost and refilled (`from` is where it
      was last emptied), each cached result is one the collector sealed. */
  lemma {:induction false} CacheIsFromCollector(codec: Codec, sid: SessionID, steps: seq<Step>, from: nat, upTo: nat, job: string)
    requires from <= upTo <= |Exec(Init(sid), steps).accepted|
    requires job in Cached(codec, map[], Exec(Init(sid), steps).accepted[from..upTo])
    ensures var w := Exec(Init(sid), steps);
            exists r :: r in w.resultLog && Cached(codec, map[], w.accepted[from..upTo])[job] == Interpret(codec, r.plaintext)
    decreases upTo
  {
    var w := Exec(Init(sid), steps);
    var s := w.accepted[from..upTo];
    assert s[..|s| - 1] == w.accepted[from..upTo - 1];
    if Interpret(codec, s[|s| - 1].plaintext).id == job {
      ResultsEndToEnd(sid, steps, upTo - 1);
      var r :| r in w.resultLog && r.envelope.number == w.accepted[upTo - 1].number;
    } else {
      CacheIsFromCollector(codec, sid, steps, from, upTo - 1, job);
    }
  }

  /** A result is cached as decoded exactly if it decodes, names a valid job and has one of
      the four statuses; anything else becomes an error for the job it names. */
  lemma InterpretExactly(codec: Codec, raw: Bytes)
    ensures var d := codec.decode(raw); var r := Interpret(codec, raw);
            && (d.Some? && ValidJobID(d.value.id) && d.value.status in {"ok", "denied", "rejected", "error"} ==> r == d.value)
            && (d.None? || !ValidJobID(d.value.id) || d.value.status !in {"ok", "denied", "rejected", "error"} ==>
                  r.id == codec.identity(raw) && r.status == "error" && r.lines == [])
  {
  }

  /** Result i is the last one for its job. */
  predicate LatestFor(codec: Codec, accepted: seq<Accepted>, i: nat, job: string) {
    && i < |accepted| && Interpret(codec, accepted[i].plaintext).id == job
    && forall j :: i < j < |accepted| ==> Interpret(codec, accepted[j].plaintext).id != job
  }

  predicate NoneFor(codec: Codec, accepted: seq<Accepted>, job: string) {
    forall j :: 0 <= j < |accepted| ==> Interpret(codec, accepted[j].plaintext).id != job
  }

  /** The cache holds, for a job with new results, the latest of them. */
  lemma {:induction false} CacheIsLatest(codec: Codec, cache: map<string, JobResult>, accepted: seq<Accepted>, i: nat, job: string)
    requires LatestFor(codec, accepted, i, job)
    ensures i < |accepted| && job in Cached(codec, cache, accepted)
    ensures Cached(codec, cache, accepted)[job] == Interpret(codec, accepted[i].plaintext)
    decreases |accepted|
  {
    hide Interpret;
    var n := |accepted| - 1;
    LatestStep(codec, accepted, i, job);
    if i < n {
      CacheIsLatest(codec, cache, accepted[..n], i, job);
    }
  }

  /** What was cached before stays for jobs without a new result, and no other job is added. */
  lemma {:induction false} CacheKeepsOthers(codec: Codec, cache: map<string, JobResult>, accepted: seq<Accepted>, job: string)
    requires NoneFor(codec, accepted, job)
    ensures job in Cached(codec, cache, accepted) <==> job in cache
    ensures job in cache ==> Cached(codec, cache, accepted)[job] == cache[job]
    decreases |accepted|
  {
    hide Interpret;
    if accepted != [] {
      NoneStep(codec, accepted, job);
      CacheKeepsOthers(codec, cache, accepted[..|accepted| - 1], job);
    }
  }

  lemma NoneStep(codec: Codec, accepted: seq<Accepted>, job: string)
    requires accepted != [] && NoneFor(codec, accepted, job)
    ensures NoneFor(codec, accepted[..|accepted| - 1], job) && Interpret(codec, accepted[|accepted| - 1].plaintext).id != job
  {
    hide Interpret;
  }

  lemma LatestStep(codec: Codec, accepted: seq<Accepted>, i: nat, job: string)
    requires LatestFor(codec, accepted, i, job)
    ensures i == |accepted| - 1 ==> Interpret(codec, accepted[i].plaintext).id == job
    ensures i < |accepted| - 1 ==>
              LatestFor(codec, accepted[..|accepted| - 1], i, job) && Interpret(codec, accepted[|accepted| - 1].plaintext).id != job
  {
    hide Interpret;
  }
}

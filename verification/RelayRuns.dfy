/** Every interleaving of creates, joins, posts, polls, deletes, sweeps and clock ticks
    at the relay. Requests hold pointers to session objects and may use them long after
    the object was dropped or replaced; an object is an index into `objs`.

    A run is any list of steps; a step that is not enabled does nothing. */
module RelayRuns {
  import opened Base
  import opened Envelopes
  import opened RelaySteps

  // ----- state

  /** How a poll request ended. `start` is the position of its first message among all
      messages its queue ever delivered. */
  datatype Outcome =
    | Gone404
    | GotJoin(info: JoinInfo)
    | GotMessages(results: bool, start: nat, list: seq<Envelope>)
    | NoContent204
    | Cancelled

  /** A poll request: about to take the session lock, asleep on a channel, on its way to
      the registry lock after it saw the session expired, or finished. */
  datatype Request =
    | Looking(obj: nat, kind: Kind, timedOut: bool)
    | Waiting(obj: nat, kind: Kind, channel: nat)
    | Expiring(obj: nat)
    | Finished(obj: nat, outcome: Outcome)

  datatype Sys = Sys(
    maxQueue: nat, now: int, ids: seq<SessionID>, objs: seq<Live>,
    registry: map<SessionID, nat>, polls: seq<Request>)

  function Init(maxQueue: nat, now: int): Sys {
    Sys(maxQueue, now, [], [], map[], [])
  }

  // ----- steps

  /** dropLocked, under the registry lock. */
  function DropID(s: Sys, id: SessionID): Sys {
    if id in s.registry && s.registry[id] < |s.objs|
    then s.(objs := s.objs[s.registry[id] := Drop(s.objs[s.registry[id]])], registry := s.registry - {id})
    else s
  }

  function CreateSession(s: Sys, id: SessionID, ttl: nat, session: bool): Sys {
    var d := DropID(s, id);
    if !session then d
    else d.(ids := d.ids + [id], objs := d.objs + [NewLive(d.now + ttl)], registry := d.registry[id := |d.objs|])
  }

  /** The sweep, one expired session at a time in any order. */
  function DropExpired(s: Sys, id: SessionID): Sys {
    if id in s.registry && s.registry[id] < |s.objs| && s.now >= s.objs[s.registry[id]].expiresAt then DropID(s, id) else s
  }

  /** The checks of sessionRoute before an envelope reaches the queue. */
  predicate Admitted(e: Envelope, id: SessionID, results: bool) {
    Validate(e, id, if results then MAX_RESULT_BYTES else MAX_JOB_BYTES) && e.kind == CLASS_READ
  }

  function DoPost(s: Sys, o: nat, e: Envelope, results: bool): Sys {
    if o < |s.objs| && o < |s.ids| && Admitted(e, s.ids[o], results)
    then s.(objs := s.objs[o := Post(s.objs[o], e, results, s.maxQueue).0])
    else s
  }

  function DoJoin(s: Sys, o: nat, info: JoinInfo): Sys {
    if o < |s.objs| then s.(objs := s.objs[o := Join(s.objs[o], info).0]) else s
  }

  function StartPoll(s: Sys, o: nat, kind: Kind, wait: bool): Sys {
    if o < |s.objs| then s.(polls := s.polls + [Looking(o, kind, !wait)]) else s
  }

  function AfterLook(r: Request, live: Live, look: Look): Request
    requires r.Looking?
  {
    match look
    case NotFound => Finished(r.obj, Gone404)
    case Expired => Expiring(r.obj)
    case Joined(info) => Finished(r.obj, GotJoin(info))
    case Messages(list) =>
      Finished(r.obj, GotMessages(r.kind.ResultsKind?, |SideOf(live, r.kind.ResultsKind?).delivered|, list))
    case Empty(channel) => if r.timedOut then Finished(r.obj, NoContent204) else Waiting(r.obj, r.kind, channel)
  }

  /** The poll's next critical section: a look, or the drop of the session it saw expire. */
  function StepPoll(s: Sys, p: nat): Sys {
    if p >= |s.polls| || s.polls[p].obj >= |s.objs| || s.polls[p].obj >= |s.ids| then s
    else
      var r := s.polls[p];
      match r
      case Looking(o, kind, _) =>
        var look := Poll(s.objs[o], kind, s.now);
        s.(objs := s.objs[o := look.0], polls := s.polls[p := AfterLook(r, s.objs[o], look.1)])
      case Expiring(o) =>
        var id := s.ids[o];
        var d := if id in s.registry && s.registry[id] == o then DropID(s, id) else s;
        d.(polls := d.polls[p := Finished(o, Gone404)])
      case _ => s
  }

  /** What ends a wait: the channel was closed, or one of the two timers fired. */
  datatype Wake = ChannelClosed | WaitOver | ExpiryTimer

  function WakePoll(s: Sys, p: nat, cause: Wake): Sys {
    if p < |s.polls| && s.polls[p].Waiting? && s.polls[p].obj < |s.objs| &&
       (cause.ChannelClosed? ==> s.polls[p].channel < s.objs[s.polls[p].obj].changed)
    then s.(polls := s.polls[p := Looking(s.polls[p].obj, s.polls[p].kind, cause.WaitOver?)])
    else s
  }

  function CancelPoll(s: Sys, p: nat): Sys {
    if p < |s.polls| && !s.polls[p].Finished? && !s.polls[p].Expiring?
    then s.(polls := s.polls[p := Finished(s.polls[p].obj, Cancelled)])
    else s
  }

  datatype Step =
    | Tick(d: nat)
    | CreateStep(id: SessionID, ttl: nat, session: bool)
    | DeleteStep(id: SessionID)
    | SweepStep(id: SessionID)
    | JoinStep(o: nat, info: JoinInfo)
    | PostStep(o: nat, e: Envelope, results: bool)
    | PollStart(o: nat, kind: Kind, wait: bool)
    | PollStep(p: nat)
    | PollWake(p: nat, cause: Wake)
    | PollCancel(p: nat)

  function Apply(s: Sys, step: Step): Sys {
    match step
    case Tick(d) => s.(now := s.now + d)
    case CreateStep(id, ttl, session) => CreateSession(s, id, ttl, session)
    case DeleteStep(id) => DropID(s, id)
    case SweepStep(id) => DropExpired(s, id)
    case JoinStep(o, info) => DoJoin(s, o, info)
    case PostStep(o, e, results) => DoPost(s, o, e, results)
    case PollStart(o, kind, wait) => StartPoll(s, o, kind, wait)
    case PollStep(p) => StepPoll(s, p)
    case PollWake(p, cause) => WakePoll(s, p, cause)
    case PollCancel(p) => CancelPoll(s, p)
  }

  function Exec(s: Sys, steps: seq<Step>): Sys
    decreases |steps|
  {
    if steps == [] then s else Exec(Apply(s, steps[0]), steps[1..])
  }

  // ----- one session object

  function LastOf(accepted: seq<Envelope>): Option<Envelope> {
    if accepted == [] then None else Some(accepted[|accepted| - 1])
  }

  /** Accepted envelopes carry 1, 2, 3, ...; while the session lives they are what was
      delivered followed by what is pending. */
  ghost predicate SideOk(s: Side, gone: bool, maxQueue: nat) {
    && s.next == |s.accepted| + 1 <= MAX_SESSION_SEQ + 1
    && (forall k :: 0 <= k < |s.accepted| ==> s.accepted[k].number == k + 1)
    && s.delivered <= s.accepted
    && (!gone ==> s.delivered + s.pending == s.accepted)
    && (gone ==> s.pending == [] && s.last.None?)
    && |s.pending| <= maxQueue
    && (!gone ==> s.last == LastOf(s.accepted))
  }

  ghost predicate LiveOk(live: Live, maxQueue: nat) {
    SideOk(live.jobs, live.gone, maxQueue) && SideOk(live.results, live.gone, maxQueue)
  }

  /** There is nothing to give a poll of this kind, and the session is there. */
  ghost predicate NothingFor(live: Live, kind: Kind) {
    !live.gone &&
    match kind
    case JoinKind => live.joined.None?
    case JobsKind => live.jobs.pending == []
    case ResultsKind => live.results.pending == []
  }

  /** A step on an object either closes its channel or leaves every poll's view alone;
      histories only grow. */
  ghost predicate Evolves(a: Live, b: Live) {
    && a.changed <= b.changed
    && (a.gone ==> b.gone)
    && (a.changed == b.changed ==> forall kind :: NothingFor(a, kind) ==> NothingFor(b, kind))
    && a.jobs.delivered <= b.jobs.delivered && a.results.delivered <= b.results.delivered
    && a.jobs.accepted <= b.jobs.accepted && a.results.accepted <= b.results.accepted
  }

  lemma PostOk(live: Live, e: Envelope, results: bool, maxQueue: nat)
    requires LiveOk(live, maxQueue) && WellFormed(e)
    ensures var l := Post(live, e, results, maxQueue).0; LiveOk(l, maxQueue) && Evolves(live, l) && l.gone == live.gone
  {
    var s, l := SideOf(live, results), Post(live, e, results, maxQueue).0;
    if l != live {
      assert (s.delivered + s.pending) + [e] == s.delivered + (s.pending + [e]);
      assert SideOk(Enqueue(s, e), false, maxQueue);
    }
  }

  lemma PollOk(live: Live, kind: Kind, now: int, maxQueue: nat)
    requires LiveOk(live, maxQueue)
    ensures var l := Poll(live, kind, now).0; LiveOk(l, maxQueue) && Evolves(live, l) && l.gone == live.gone
  {
    var l := Poll(live, kind, now).0;
    if l != live {
      var s := SideOf(live, kind.ResultsKind?);
      assert (s.delivered + s.pending) + [] == s.accepted;
      assert SideOk(Take(s), false, maxQueue);
    }
  }

  lemma DropOk(live: Live, maxQueue: nat)
    requires LiveOk(live, maxQueue)
    ensures LiveOk(Drop(live), maxQueue) && Evolves(live, Drop(live))
  {
  }

  // ----- the invariant

  ghost predicate ObjectsOk(s: Sys) {
    && |s.ids| == |s.objs|
    && (forall o :: 0 <= o < |s.objs| ==> LiveOk(s.objs[o], s.maxQueue))
  }

  /** An object is registered under its own identifier exactly while it is not gone. */
  ghost predicate RegistryOk(s: Sys) {
    && |s.ids| == |s.objs|
    && (forall id :: id in s.registry ==> s.registry[id] < |s.objs| && s.ids[s.registry[id]] == id && !s.objs[s.registry[id]].gone)
    && (forall o :: 0 <= o < |s.objs| && !s.objs[o].gone ==> s.ids[o] in s.registry && s.registry[s.ids[o]] == o)
  }

  /** A poll asleep on a channel that is still open has nothing to be given. */
  ghost predicate RequestOk(r: Request, objs: seq<Live>) {
    && r.obj < |objs|
    && (r.Waiting? ==> r.channel <= objs[r.obj].changed &&
                       (r.channel == objs[r.obj].changed ==> NothingFor(objs[r.obj], r.kind)))
    && (r.Finished? && r.outcome.GotMessages? ==>
          var m := r.outcome; var d := SideOf(objs[r.obj], m.results).delivered;
          m.start + |m.list| <= |d| && m.list == d[m.start..m.start + |m.list|])
  }

  /** Two replies from one queue took disjoint stretches of it. */
  ghost predicate Apart(q: Request, r: Request) {
    q.Finished? && r.Finished? && q.outcome.GotMessages? && r.outcome.GotMessages? &&
    q.obj == r.obj && q.outcome.results == r.outcome.results ==>
      q.outcome.start + |q.outcome.list| <= r.outcome.start || r.outcome.start + |r.outcome.list| <= q.outcome.start
  }

  ghost predicate PollsOk(s: Sys) {
    && (forall p :: 0 <= p < |s.polls| ==> RequestOk(s.polls[p], s.objs))
    && (forall p, q :: 0 <= p < q < |s.polls| ==> Apart(s.polls[p], s.polls[q]))
  }

  ghost predicate Inv(s: Sys) { ObjectsOk(s) && RegistryOk(s) && PollsOk(s) }

  // ----- every step keeps it

  /** Requests survive any evolution of the objects. */
  lemma RequestsSurvive(s: Sys, objs: seq<Live>)
    requires PollsOk(s) && |s.objs| <= |objs|
    requires forall o :: 0 <= o < |s.objs| ==> Evolves(s.objs[o], objs[o])
    ensures PollsOk(s.(objs := objs))
  {
    forall p | 0 <= p < |s.polls| ensures RequestOk(s.polls[p], objs) {
      RequestSurvives(s.polls[p], s.objs, objs);
    }
  }

  lemma RequestSurvives(r: Request, objs: seq<Live>, objs': seq<Live>)
    requires RequestOk(r, objs) && |objs| <= |objs'|
    requires Evolves(objs[r.obj], objs'[r.obj])
    ensures RequestOk(r, objs')
  {
    if r.Finished? && r.outcome.GotMessages? {
      var d, d' := SideOf(objs[r.obj], r.outcome.results).delivered, SideOf(objs'[r.obj], r.outcome.results).delivered;
      assert d <= d';
    }
  }

  lemma {:induction false} EvolvesSame(l: Live)
    ensures Evolves(l, l)
  {
  }

  /** Replacing one object by one it evolves into, with the same registration. */
  lemma UpdateKeeps(s: Sys, o: nat, l: Live)
    requires Inv(s) && o < |s.objs|
    requires LiveOk(l, s.maxQueue) && Evolves(s.objs[o], l) && l.gone == s.objs[o].gone
    ensures Inv(s.(objs := s.objs[o := l]))
  {
    hide LiveOk, RequestOk, Apart, Evolves;
    var objs := s.objs[o := l];
    forall k | 0 <= k < |s.objs| ensures Evolves(s.objs[k], objs[k]) {
      EvolvesSame(s.objs[k]);
    }
    RequestsSurvive(s, objs);
  }

  lemma DropKeeps(s: Sys, id: SessionID)
    requires Inv(s)
    ensures Inv(DropID(s, id)) && id !in DropID(s, id).registry
  {
    if id in s.registry {
      var o := s.registry[id];
      var objs := s.objs[o := Drop(s.objs[o])];
      DropOk(s.objs[o], s.maxQueue);
      forall k | 0 <= k < |s.objs| ensures Evolves(s.objs[k], objs[k]) {
        EvolvesSame(s.objs[k]);
      }
      RequestsSurvive(s, objs);
    }
  }

  /** A fresh object is registered under an identifier that had none. */
  lemma RegisterKeeps(d: Sys, id: SessionID, live: Live)
    requires Inv(d) && id !in d.registry && LiveOk(live, d.maxQueue) && !live.gone
    ensures Inv(d.(ids := d.ids + [id], objs := d.objs + [live], registry := d.registry[id := |d.objs|]))
  {
    hide LiveOk, RequestOk, Apart, Evolves;
    var t := d.(ids := d.ids + [id], objs := d.objs + [live], registry := d.registry[id := |d.objs|]);
    forall k | 0 <= k < |d.objs| ensures Evolves(d.objs[k], t.objs[k]) {
      EvolvesSame(d.objs[k]);
    }
    RequestsSurvive(d, t.objs);
    assert PollsOk(t);
    forall o | 0 <= o < |t.objs| && !t.objs[o].gone ensures t.ids[o] in t.registry && t.registry[t.ids[o]] == o {
      if o < |d.objs| {
        assert t.objs[o] == d.objs[o] && t.ids[o] == d.ids[o];
      }
    }
  }

  lemma CreateKeeps(s: Sys, id: SessionID, ttl: nat, session: bool)
    requires Inv(s)
    ensures Inv(CreateSession(s, id, ttl, session))
  {
    hide Inv;
    DropKeeps(s, id);
    if session {
      RegisterKeeps(DropID(s, id), id, NewLive(s.now + ttl));
    }
  }

  /** Replacing one request by another that is in order and apart from the others. */
  lemma RequestKeeps(s: Sys, p: nat, r: Request)
    requires Inv(s) && p < |s.polls| && RequestOk(r, s.objs)
    requires forall q :: 0 <= q < |s.polls| && q != p ==> Apart(s.polls[q], r) && Apart(r, s.polls[q])
    ensures Inv(s.(polls := s.polls[p := r]))
  {
    hide LiveOk;
  }

  /** What a look hands out starts where every earlier reply from that queue ended. */
  lemma LookApart(s: Sys, p: nat)
    requires Inv(s) && p < |s.polls| && s.polls[p].Looking?
    ensures var r := s.polls[p]; var look := Poll(s.objs[r.obj], r.kind, s.now);
            var r' := AfterLook(r, s.objs[r.obj], look.1);
            && RequestOk(r', s.objs[r.obj := look.0])
            && forall q :: 0 <= q < |s.polls| && q != p ==> Apart(s.polls[q], r') && Apart(r', s.polls[q])
  {
    hide LiveOk, RegistryOk;
    var r := s.polls[p];
    var look := Poll(s.objs[r.obj], r.kind, s.now);
    var r' := AfterLook(r, s.objs[r.obj], look.1);
    if look.1.Messages? {
      var d := SideOf(s.objs[r.obj], r.kind.ResultsKind?).delivered;
      assert SideOf(look.0, r.kind.ResultsKind?).delivered == d + look.1.list;
    }
    forall q | 0 <= q < |s.polls| && q != p ensures Apart(s.polls[q], r') && Apart(r', s.polls[q]) {
      assert RequestOk(s.polls[q], s.objs);
    }
  }

  lemma LookKeeps(s: Sys, p: nat)
    requires Inv(s) && p < |s.polls| && s.polls[p].Looking?
    ensures Inv(StepPoll(s, p))
  {
    var r := s.polls[p];
    var look := Poll(s.objs[r.obj], r.kind, s.now);
    PollOk(s.objs[r.obj], r.kind, s.now, s.maxQueue);
    UpdateKeeps(s, r.obj, look.0);
    LookApart(s, p);
    RequestKeeps(s.(objs := s.objs[r.obj := look.0]), p, AfterLook(r, s.objs[r.obj], look.1));
  }

  lemma StepPollKeeps(s: Sys, p: nat)
    requires Inv(s)
    ensures Inv(StepPoll(s, p))
  {
    if p < |s.polls| {
      assert RequestOk(s.polls[p], s.objs);
      if s.polls[p].Looking? {
        LookKeeps(s, p);
      } else if s.polls[p].Expiring? {
        var o := s.polls[p].obj;
        var id := s.ids[o];
        DropKeeps(s, id);
        var d := if id in s.registry && s.registry[id] == o then DropID(s, id) else s;
        RequestKeeps(d, p, Finished(o, Gone404));
      }
    }
  }

  lemma StartPollKeeps(s: Sys, o: nat, kind: Kind, wait: bool)
    requires Inv(s)
    ensures Inv(StartPoll(s, o, kind, wait))
  {
    var t := StartPoll(s, o, kind, wait);
    forall p | 0 <= p < |t.polls| ensures RequestOk(t.polls[p], t.objs) {
      assert p < |s.polls| ==> t.polls[p] == s.polls[p];
    }
  }

  lemma PostKeeps(s: Sys, o: nat, e: Envelope, results: bool)
    requires Inv(s)
    ensures Inv(DoPost(s, o, e, results))
  {
    if o < |s.objs| && Admitted(e, s.ids[o], results) {
      PostOk(s.objs[o], e, results, s.maxQueue);
      UpdateKeeps(s, o, Post(s.objs[o], e, results, s.maxQueue).0);
    }
  }

  lemma JoinKeeps(s: Sys, o: nat, info: JoinInfo)
    requires Inv(s)
    ensures Inv(DoJoin(s, o, info))
  {
    if o < |s.objs| {
      UpdateKeeps(s, o, Join(s.objs[o], info).0);
    }
  }

  lemma TickKeeps(s: Sys, d: nat)
    requires Inv(s)
    ensures Inv(s.(now := s.now + d))
  {
  }

  lemma ApplyKeeps(s: Sys, step: Step)
    requires Inv(s)
    ensures Inv(Apply(s, step))
  {
    match step
    case Tick(d) => TickKeeps(s, d);
    case CreateStep(id, ttl, session) => CreateKeeps(s, id, ttl, session);
    case DeleteStep(id) => DropKeeps(s, id);
    case SweepStep(id) => DropKeeps(s, id);
    case JoinStep(o, info) => JoinKeeps(s, o, info);
    case PostStep(o, e, results) => PostKeeps(s, o, e, results);
    case PollStart(o, kind, wait) => StartPollKeeps(s, o, kind, wait);
    case PollStep(p) => StepPollKeeps(s, p);
    case PollWake(p, cause) =>
      if WakePoll(s, p, cause) != s {
        RequestKeeps(s, p, Looking(s.polls[p].obj, s.polls[p].kind, cause.WaitOver?));
      }
    case PollCancel(p) =>
      if CancelPoll(s, p) != s {
        RequestKeeps(s, p, Finished(s.polls[p].obj, Cancelled));
      }
  }

  lemma {:induction false} ExecKeeps(s: Sys, steps: seq<Step>)
    requires Inv(s)
    ensures Inv(Exec(s, steps))
    decreases |steps|
  {
    hide Inv;
    if steps != [] {
      ApplyKeeps(s, steps[0]);
      ExecKeeps(Apply(s, steps[0]), steps[1..]);
    }
  }

  lemma ReachableInv(maxQueue: nat, now: int, steps: seq<Step>)
    ensures Inv(Exec(Init(maxQueue, now), steps))
  {
    ExecKeeps(Init(maxQueue, now), steps);
  }

  // ----- the theorems

  /** In every run, in both directions of every session object: the accepted envelopes
      carry 1..next-1 and next never passes 2^32; the queue never exceeds its cap; what
      was delivered followed by what is pending is what was accepted while the session
      lives, and a prefix of it once the session is gone. */
  lemma QueueIsFaithful(maxQueue: nat, now: int, steps: seq<Step>, o: nat, results: bool)
    requires o < |Exec(Init(maxQueue, now), steps).objs|
    ensures var live := Exec(Init(maxQueue, now), steps).objs[o]; var s := SideOf(live, results);
            && s.next == |s.accepted| + 1 <= 0x1_0000_0000
            && (forall k :: 0 <= k < |s.accepted| ==> s.accepted[k].number == k + 1)
            && |s.pending| <= maxQueue
            && (if live.gone then s.pending == [] && s.delivered <= s.accepted else s.delivered + s.pending == s.accepted)
  {
    MaxQueueConstant(Init(maxQueue, now), steps);
    ReachableInv(maxQueue, now, steps);
  }

  lemma {:induction false} MaxQueueConstant(s: Sys, steps: seq<Step>)
    ensures Exec(s, steps).maxQueue == s.maxQueue
    decreases |steps|
  {
    if steps != [] {
      MaxQueueConstant(Apply(s, steps[0]), steps[1..]);
    }
  }

  /** The i-th message of a reply carries the number of its place in the queue. */
  lemma MessageNumber(s: Sys, p: nat, i: nat)
    requires Inv(s) && p < |s.polls|
    requires var r := s.polls[p]; r.Finished? && r.outcome.GotMessages? && i < |r.outcome.list|
    ensures s.polls[p].outcome.list[i].number == s.polls[p].outcome.start + i + 1
  {
    var r := s.polls[p];
    assert RequestOk(r, s.objs) && LiveOk(s.objs[r.obj], s.maxQueue);
    var side := SideOf(s.objs[r.obj], r.outcome.results);
    assert r.outcome.list[i] == side.delivered[r.outcome.start + i] == side.accepted[r.outcome.start + i];
  }

  /** No envelope reaches two polls, and none reaches one poll twice. */
  lemma DeliveredAtMostOnce(maxQueue: nat, now: int, steps: seq<Step>, p: nat, q: nat, i: nat, j: nat)
    requires var polls := Exec(Init(maxQueue, now), steps).polls;
             && p < |polls| && q < |polls|
             && polls[p].Finished? && polls[p].outcome.GotMessages? && i < |polls[p].outcome.list|
             && polls[q].Finished? && polls[q].outcome.GotMessages? && j < |polls[q].outcome.list|
             && polls[p].obj == polls[q].obj && polls[p].outcome.results == polls[q].outcome.results
             && (p, i) != (q, j)
    ensures var polls := Exec(Init(maxQueue, now), steps).polls;
            polls[p].outcome.list[i].number != polls[q].outcome.list[j].number
  {
    var s := Exec(Init(maxQueue, now), steps);
    ReachableInv(maxQueue, now, steps);
    MessageNumber(s, p, i);
    MessageNumber(s, q, j);
    assert p < q ==> Apart(s.polls[p], s.polls[q]);
    assert q < p ==> Apart(s.polls[q], s.polls[p]);
  }

  /** A poll is never asleep on ready work: while its channel is open there is no message
      (or no join) for it and its session is not gone. */
  lemma NoLostWakeup(maxQueue: nat, now: int, steps: seq<Step>, p: nat)
    requires var s := Exec(Init(maxQueue, now), steps); p < |s.polls| && s.polls[p].Waiting?
    ensures var s := Exec(Init(maxQueue, now), steps); var r := s.polls[p];
            && r.obj < |s.objs|
            && (s.objs[r.obj].changed <= r.channel ==> NothingFor(s.objs[r.obj], r.kind))
  {
    ReachableInv(maxQueue, now, steps);
    assert RequestOk(Exec(Init(maxQueue, now), steps).polls[p], Exec(Init(maxQueue, now), steps).objs);
  }

  /** A 204 answers a look that found nothing in a session neither gone nor expired. */
  lemma NoContentOnlyWhenEmpty(s: Sys, step: Step, p: nat)
    requires Inv(s) && p < |s.polls| && p < |Apply(s, step).polls|
    requires Apply(s, step).polls[p].Finished? && Apply(s, step).polls[p].outcome.NoContent204?
    requires !s.polls[p].Finished?
    ensures var r := s.polls[p];
            && step == PollStep(p) && r.Looking? && r.timedOut
            && NothingFor(s.objs[r.obj], r.kind) && s.now < s.objs[r.obj].expiresAt
  {
    hide LiveOk, RegistryOk, Apart;
    assert RequestOk(s.polls[p], s.objs);
  }

  /** Every object is, at all times, registered under its own identifier and not gone, or
      gone with empty queues; each identifier leads to at most one live object. */
  lemma RegisteredOrGone(maxQueue: nat, now: int, steps: seq<Step>, o: nat)
    requires o < |Exec(Init(maxQueue, now), steps).objs|
    ensures var s := Exec(Init(maxQueue, now), steps); var live := s.objs[o];
            && |s.ids| == |s.objs|
            && (if live.gone
                then live.jobs.pending == [] && live.results.pending == [] && !(s.ids[o] in s.registry && s.registry[s.ids[o]] == o)
                else s.ids[o] in s.registry && s.registry[s.ids[o]] == o)
            && forall u :: 0 <= u < |s.objs| && u != o && s.ids[u] == s.ids[o] && !live.gone ==> s.objs[u].gone
  {
    var s := Exec(Init(maxQueue, now), steps);
    ReachableInv(maxQueue, now, steps);
    assert LiveOk(s.objs[o], s.maxQueue);
  }

  lemma DropEvolves(s: Sys, id: SessionID, o: nat)
    requires Inv(s) && o < |s.objs|
    ensures var d := DropID(s, id); |d.objs| == |s.objs| && Evolves(s.objs[o], d.objs[o])
  {
    EvolvesSame(s.objs[o]);
    DropOk(s.objs[o], s.maxQueue);
  }

  lemma StepPollEvolves(s: Sys, p: nat, o: nat)
    requires Inv(s) && o < |s.objs|
    ensures var t := StepPoll(s, p); |t.objs| == |s.objs| && Evolves(s.objs[o], t.objs[o])
  {
    hide LiveOk, Evolves, RegistryOk, Apart;
    EvolvesSame(s.objs[o]);
    if p < |s.polls| {
      var r := s.polls[p];
      assert RequestOk(r, s.objs);
      if r.Looking? {
        PollOk(s.objs[r.obj], r.kind, s.now, s.maxQueue);
        assert StepPoll(s, p).objs == s.objs[r.obj := Poll(s.objs[r.obj], r.kind, s.now).0];
      } else if r.Expiring? {
        DropEvolves(s, s.ids[r.obj], o);
      }
    }
  }

  lemma PostEvolves(s: Sys, u: nat, e: Envelope, results: bool, o: nat)
    requires Inv(s) && o < |s.objs|
    ensures var t := DoPost(s, u, e, results); |t.objs| == |s.objs| && Evolves(s.objs[o], t.objs[o])
  {
    EvolvesSame(s.objs[o]);
    if DoPost(s, u, e, results) != s {
      PostOk(s.objs[u], e, results, s.maxQueue);
    }
  }

  lemma JoinEvolves(s: Sys, u: nat, info: JoinInfo, o: nat)
    requires Inv(s) && o < |s.objs|
    ensures var t := DoJoin(s, u, info); |t.objs| == |s.objs| && Evolves(s.objs[o], t.objs[o])
  {
    EvolvesSame(s.objs[o]);
  }

  lemma ObjectEvolves(s: Sys, step: Step, o: nat)
    requires Inv(s) && o < |s.objs|
    ensures o < |Apply(s, step).objs| && Evolves(s.objs[o], Apply(s, step).objs[o])
  {
    hide Inv, Evolves;
    EvolvesSame(s.objs[o]);
    match step
    case CreateStep(id, ttl, session) => DropEvolves(s, id, o);
    case DeleteStep(id) => DropEvolves(s, id, o);
    case SweepStep(id) => DropEvolves(s, id, o);
    case PostStep(u, e, results) => PostEvolves(s, u, e, results, o);
    case PollStep(p) => StepPollEvolves(s, p, o);
    case JoinStep(u, info) => JoinEvolves(s, u, info, o);
    case Tick(_) =>
    case PollStart(_, _, _) =>
    case PollWake(_, _) =>
    case PollCancel(_) =>
  }

  /** A gone session stays gone, and what a queue accepted or delivered stays so. */
  lemma {:induction false} GoneForever(s: Sys, steps: seq<Step>, o: nat)
    requires Inv(s) && o < |s.objs|
    ensures var t := Exec(s, steps);
            && o < |t.objs|
            && (s.objs[o].gone ==> t.objs[o].gone && t.objs[o].jobs.pending == [] && t.objs[o].results.pending == [])
            && s.objs[o].jobs.delivered <= t.objs[o].jobs.delivered
            && s.objs[o].results.delivered <= t.objs[o].results.delivered
            && s.objs[o].jobs.accepted <= t.objs[o].jobs.accepted
            && s.objs[o].results.accepted <= t.objs[o].results.accepted
    decreases |steps|
  {
    if steps == [] {
      assert LiveOk(s.objs[o], s.maxQueue);
    } else {
      ApplyKeeps(s, steps[0]);
      ObjectEvolves(s, steps[0], o);
      GoneForever(Apply(s, steps[0]), steps[1..], o);
    }
  }

  /** A poll that saw its own session expire never drops a session that replaced it. */
  lemma OldPollSparesReplacement(s: Sys, p: nat, u: nat)
    requires Inv(s) && p < |s.polls| && s.polls[p].Expiring? && u < |s.objs| && u != s.polls[p].obj
    ensures StepPoll(s, p).objs[u] == s.objs[u]
    ensures forall id :: id in s.registry && s.registry[id] == u ==>
              id in StepPoll(s, p).registry && StepPoll(s, p).registry[id] == u
  {
    assert RequestOk(s.polls[p], s.objs);
  }

  /** Reposting the last accepted envelope is answered 202 and changes nothing, in any
      state of the queue, also after delivery. */
  lemma RepostIsIdempotent(live: Live, e: Envelope, results: bool, maxQueue: nat, more: nat)
    requires var r := Post(live, e, results, maxQueue); r.1 == Reply(202, "")
    ensures var l := Post(live, e, results, maxQueue).0; Post(l, e, results, more) == (l, Reply(202, ""))
    ensures forall kind, now :: var l := Poll(Post(live, e, results, maxQueue).0, kind, now).0;
              Post(l, e, results, more) == (l, Reply(202, ""))
  {
  }

  /** When a post is accepted as new: exactly the next number, with room, joined and live. */
  lemma PostAcceptsExactly(live: Live, e: Envelope, results: bool, maxQueue: nat)
    requires LiveOk(live, maxQueue)
    ensures var s, t := SideOf(live, results), SideOf(Post(live, e, results, maxQueue).0, results);
            && (t.accepted != s.accepted <==> !live.gone && live.joined.Some? && e.number == s.next && |s.pending| < maxQueue)
            && (t.accepted != s.accepted ==> t.accepted == s.accepted + [e] && Post(live, e, results, maxQueue).1.status == 202)
            && (t.accepted == s.accepted ==> Post(live, e, results, maxQueue).0 == live)
  {
    var s := SideOf(live, results);
    if s.last.Some? {
      assert s.last.value.number == |s.accepted| < s.next;
    }
  }

  /** What the answer to a post means. It is 202 exactly if the session is there and joined
      and, after the call, the envelope is the last one this direction accepted; every other
      answer names the first thing that is wrong, and then nothing changed. */
  lemma PostAnswersExactly(live: Live, e: Envelope, results: bool, maxQueue: nat)
    requires LiveOk(live, maxQueue)
    ensures var (l, reply) := Post(live, e, results, maxQueue);
            var s, t := SideOf(live, results), SideOf(l, results);
            && (reply.status == 202 <==> !l.gone && l.joined.Some? && LastOf(t.accepted) == Some(e))
            && (reply == Reply(404, "not_found") <==> live.gone)
            && (reply == Reply(409, "not_joined") <==> !live.gone && live.joined.None?)
            && (reply == Reply(409, "bad_sequence") <==>
                  !live.gone && live.joined.Some? && LastOf(s.accepted) != Some(e) && e.number != |s.accepted| + 1)
            && (reply == Reply(429, "queue_full") <==>
                  !live.gone && live.joined.Some? && e.number == |s.accepted| + 1 && |s.pending| >= maxQueue)
            && (reply.status != 202 ==> l == live)
            && reply in {Reply(202, ""), Reply(404, "not_found"), Reply(409, "not_joined"), Reply(409, "bad_sequence"), Reply(429, "queue_full")}
  {
    var s := SideOf(live, results);
    if s.accepted != [] {
      assert s.accepted[|s.accepted| - 1].number == |s.accepted|;
    }
  }

  /** What a post puts into a queue a poll can take out: at the end, and nothing else. */
  lemma PostAppends(live: Live, e: Envelope, results: bool, maxQueue: nat)
    requires LiveOk(live, maxQueue)
    ensures var (l, reply) := Post(live, e, results, maxQueue);
            var s, t := SideOf(live, results), SideOf(l, results);
            && SideOf(l, !results) == SideOf(live, !results) && t.delivered == s.delivered
            && ((t.pending == s.pending && t.accepted == s.accepted && l == live) ||
                (t.pending == s.pending + [e] && t.accepted == s.accepted + [e] && l.changed > live.changed))
            && l.joined == live.joined && l.gone == live.gone && l.expiresAt == live.expiresAt
  {
  }

  /** What one look of a poll finds: the session gone, the session expired, the join, all
      waiting messages of its direction in order, or nothing; in this order of precedence. */
  lemma PollAnswersExactly(live: Live, kind: Kind, now: int)
    ensures var (l, look) := Poll(live, kind, now);
            var waiting := if kind.ResultsKind? then live.results.pending else live.jobs.pending;
            && (look == NotFound <==> live.gone)
            && (look == Expired <==> !live.gone && now >= live.expiresAt)
            && (forall info :: look == Joined(info) <==> !live.gone && now < live.expiresAt && kind.JoinKind? && live.joined == Some(info))
            && (forall list :: look == Messages(list) <==> !live.gone && now < live.expiresAt && !kind.JoinKind? && list == waiting != [])
            && (forall c :: look == Empty(c) <==> now < live.expiresAt && NothingFor(live, kind) && c == live.changed)
            && (!look.Messages? ==> l == live)
            && (look.Messages? ==>
                  var s, t := SideOf(live, kind.ResultsKind?), SideOf(l, kind.ResultsKind?);
                  && t.pending == [] && t.delivered == s.delivered + look.list && t.accepted == s.accepted && t.last == s.last
                  && SideOf(l, !kind.ResultsKind?) == SideOf(live, !kind.ResultsKind?) && l.changed > live.changed)
  {
  }

  /** The first join of a session that is there is recorded, and wakes whoever waits; every
      later one is told so and changes nothing. */
  lemma JoinAnswersExactly(live: Live, info: JoinInfo)
    ensures var (l, reply) := Join(live, info);
            && (reply == Reply(201, "") <==> !live.gone && live.joined.None?)
            && (reply == Reply(404, "not_found") <==> live.gone)
            && (reply == Reply(409, "already_exists") <==> !live.gone && live.joined.Some?)
            && (reply.status == 201 ==> l.joined == Some(info) && l.changed > live.changed && l.jobs == live.jobs && l.results == live.results)
            && (reply.status != 201 ==> l == live)
  {
  }

  /** A poll is answered 404 only about a session that is gone from then on. */
  lemma NotFoundOnlyIfGone(s: Sys, step: Step, p: nat)
    requires Inv(s) && p < |s.polls| && p < |Apply(s, step).polls| && !s.polls[p].Finished?
    requires Apply(s, step).polls[p].Finished? && Apply(s, step).polls[p].outcome.Gone404?
    ensures var o := s.polls[p].obj; o < |Apply(s, step).objs| && Apply(s, step).objs[o].gone
  {
    hide LiveOk, Apart;
    assert RequestOk(s.polls[p], s.objs);
  }

  /** A new session is there, unjoined, empty in both directions, and expects number 1. */
  lemma NewSessionEmpty(expiresAt: int, maxQueue: nat, results: bool)
    ensures var live := NewLive(expiresAt);
            && LiveOk(live, maxQueue) && !live.gone && live.joined.None? && live.expiresAt == expiresAt
            && SideOf(live, results).next == 1 && SideOf(live, results).pending == [] == SideOf(live, results).accepted
  {
  }
}

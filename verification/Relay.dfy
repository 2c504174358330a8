/** The relay's live sessions: queues, counters, the `changed` channel and the registry.

    Each critical section under a mutex is one function on values, and the methods of
    `LiveSession` and `Registry` are proved to perform exactly those functions (module Relay). A channel
    is a generation number: `notify` closes the current one and makes the next, so
    channel c is closed when c < changed. */
module RelaySteps {
  import opened Base
  import opened Envelopes

  datatype JoinInfo = JoinInfo(collectorKey: string, collectorMAC: string, mcpKey: string, mcpMAC: string, via: string, joinedAt: int)

  /** One direction. `accepted` and `delivered` are its history. */
  datatype Side = Side(pending: seq<Envelope>, next: nat, last: Option<Envelope>, accepted: seq<Envelope>, delivered: seq<Envelope>)

  datatype Live = Live(joined: Option<JoinInfo>, jobs: Side, results: Side, changed: nat, gone: bool, expiresAt: int)

  datatype Reply = Reply(status: int, code: string)
  datatype Kind = JoinKind | JobsKind | ResultsKind

  /** What one look of a poll under the session lock finds. */
  datatype Look = NotFound | Expired | Joined(info: JoinInfo) | Messages(list: seq<Envelope>) | Empty(channel: nat)

  const NEW_SIDE := Side([], 1, None, [], [])

  function NewLive(expiresAt: int): Live {
    Live(None, NEW_SIDE, NEW_SIDE, 0, false, expiresAt)
  }

  function SideOf(live: Live, results: bool): Side {
    if results then live.results else live.jobs
  }

  function WithSide(live: Live, results: bool, s: Side): Live {
    if results then live.(results := s) else live.(jobs := s)
  }

  function Notify(live: Live): Live {
    live.(changed := live.changed + 1)
  }

  function Enqueue(s: Side, e: Envelope): Side {
    s.(pending := s.pending + [e], next := s.next + 1, last := Some(e), accepted := s.accepted + [e])
  }

  function Post(live: Live, e: Envelope, results: bool, maxQueue: nat): (Live, Reply) {
    var s := SideOf(live, results);
    if live.gone then (live, Reply(404, "not_found"))
    else if live.joined.None? then (live, Reply(409, "not_joined"))
    else if s.last == Some(e) then (live, Reply(202, ""))
    else if e.number != s.next then (live, Reply(409, "bad_sequence"))
    else if |s.pending| >= maxQueue then (live, Reply(429, "queue_full"))
    else (Notify(WithSide(live, results, Enqueue(s, e))), Reply(202, ""))
  }

  function Join(live: Live, info: JoinInfo): (Live, Reply) {
    if live.gone then (live, Reply(404, "not_found"))
    else if live.joined.Some? then (live, Reply(409, "already_exists"))
    else (Notify(live.(joined := Some(info))), Reply(201, ""))
  }

  function Cleared(s: Side): Side { s.(pending := [], last := None) }

  function Drop(live: Live): Live {
    Notify(live.(gone := true, jobs := Cleared(live.jobs), results := Cleared(live.results)))
  }

  function Take(s: Side): Side { s.(pending := [], delivered := s.delivered + s.pending) }

  function Poll(live: Live, kind: Kind, now: int): (Live, Look) {
    if live.gone then (live, NotFound)
    else if now >= live.expiresAt then (live, Expired)
    else if kind.JoinKind? then
      if live.joined.Some? then (live, Joined(live.joined.value)) else (live, Empty(live.changed))
    else
      var s := SideOf(live, kind.ResultsKind?);
      if s.pending != [] then (Notify(WithSide(live, kind.ResultsKind?, Take(s))), Messages(s.pending))
      else (live, Empty(live.changed))
  }
}

/** The relay's objects, updated in place under their locks. */
module Relay {
  import opened Base
  import opened Envelopes
  import opened RelaySteps

  class LiveSession {
    var joined: Option<JoinInfo>
    var jobs: seq<Envelope>
    var results: seq<Envelope>
    var nextJob: nat
    var nextResult: nat
    var lastJob: Option<Envelope>
    var lastResult: Option<Envelope>
    var changed: nat
    var gone: bool
    const expiresAt: int
    ghost var acceptedJobs: seq<Envelope>
    ghost var acceptedResults: seq<Envelope>
    ghost var deliveredJobs: seq<Envelope>
    ghost var deliveredResults: seq<Envelope>

    ghost function View(): Live
      reads this
    {
      Live(joined, Side(jobs, nextJob, lastJob, acceptedJobs, deliveredJobs),
           Side(results, nextResult, lastResult, acceptedResults, deliveredResults), changed, gone, expiresAt)
    }

    constructor (expiresAt: int)
      ensures View() == NewLive(expiresAt)
    {
      this.expiresAt := expiresAt;
      joined, jobs, results, lastJob, lastResult := None, [], [], None, None;
      nextJob, nextResult, changed, gone := 1, 1, 0, false;
      acceptedJobs, acceptedResults, deliveredJobs, deliveredResults := [], [], [], [];
    }

    method Notify()
      modifies this`changed
      ensures changed == old(changed) + 1
    {
      changed := changed + 1;
    }

    method Post(e: Envelope, toResults: bool, maxQueue: nat) returns (reply: Reply)
      modifies this
      ensures (View(), reply) == RelaySteps.Post(old(View()), e, toResults, maxQueue)
    {
      if gone {
        return Reply(404, "not_found");
      }
      if joined.None? {
        return Reply(409, "not_joined");
      }
      var pending, next, last := jobs, nextJob, lastJob;
      if toResults {
        pending, next, last := results, nextResult, lastResult;
      }
      if last.Some? && e == last.value {
        return Reply(202, "");
      }
      if e.number != next {
        return Reply(409, "bad_sequence");
      }
      if |pending| >= maxQueue {
        return Reply(429, "queue_full");
      }
      Append(e, toResults);
      return Reply(202, "");
    }

    method Append(e: Envelope, toResults: bool)
      modifies this
      ensures var live := old(View()); View() == RelaySteps.Notify(WithSide(live, toResults, Enqueue(SideOf(live, toResults), e)))
    {
      if toResults {
        results, lastResult, nextResult := results + [e], Some(e), nextResult + 1;
        acceptedResults := acceptedResults + [e];
      } else {
        jobs, lastJob, nextJob := jobs + [e], Some(e), nextJob + 1;
        acceptedJobs := acceptedJobs + [e];
      }
      Notify();
    }

    method Join(info: JoinInfo) returns (reply: Reply)
      modifies this
      ensures (View(), reply) == RelaySteps.Join(old(View()), info)
    {
      if gone {
        return Reply(404, "not_found");
      }
      if joined.Some? {
        return Reply(409, "already_exists");
      }
      joined := Some(info);
      Notify();
      return Reply(201, "");
    }

    /** The part of dropLocked that runs under the session lock. */
    method Drop()
      modifies this
      ensures View() == RelaySteps.Drop(old(View()))
    {
      gone := true;
      jobs, results := [], [];
      lastJob, lastResult := None, None;
      Notify();
    }

    /** One turn of the poll loop under the session lock. */
    method Look(kind: Kind, now: int) returns (look: Look)
      modifies this
      ensures (View(), look) == RelaySteps.Poll(old(View()), kind, now)
    {
      if gone {
        return NotFound;
      }
      if now >= expiresAt {
        return Expired;
      }
      if kind.JoinKind? && joined.Some? {
        return Joined(joined.value);
      }
      if !kind.JoinKind? {
        var pending := if kind.ResultsKind? then results else jobs;
        if pending != [] {
          if kind.ResultsKind? {
            results, deliveredResults := [], deliveredResults + pending;
          } else {
            jobs, deliveredJobs := [], deliveredJobs + pending;
          }
          Notify();
          return Messages(pending);
        }
      }
      return Empty(changed);
    }
  }

  class Registry {
    var sessions: map<SessionID, LiveSession>

    /** Each registered object is registered once and is not gone. */
    ghost predicate Valid()
      reads this, sessions.Values
    {
      && (forall id :: id in sessions ==> !sessions[id].gone)
      && forall i, j :: i in sessions && j in sessions && i != j ==> sessions[i] != sessions[j]
    }

    constructor ()
      ensures Valid() && sessions == map[]
    {
      sessions := map[];
    }

    method DropLocked(id: SessionID)
      requires Valid()
      modifies this, sessions.Values
      ensures Valid() && sessions == old(sessions) - {id}
      ensures id in old(sessions) ==> old(sessions)[id].View() == RelaySteps.Drop(old(sessions[id].View()))
      ensures forall live :: live in old(sessions.Values) && !(id in old(sessions) && live == old(sessions)[id]) ==>
                live.View() == old(live.View())
    {
      if id in sessions {
        sessions[id].Drop();
        sessions := sessions - {id};
      }
    }

    /** The registry part of create, for a session or, with `live` false, a blob. */
    method Create(id: SessionID, expiresAt: int, live: bool)
      requires Valid()
      modifies this, sessions.Values
      ensures Valid()
      ensures sessions.Keys == old(sessions.Keys) - {id} + (if live then {id} else {})
      ensures live ==> fresh(sessions[id]) && sessions[id].View() == NewLive(expiresAt)
      ensures forall i :: i in sessions && i != id ==> sessions[i] == old(sessions)[i] && sessions[i].View() == old(sessions[i].View())
      ensures id in old(sessions) ==> old(sessions)[id].View() == RelaySteps.Drop(old(sessions[id].View()))
    {
      DropLocked(id);
      if live {
        var s := new LiveSession(expiresAt);
        sessions := sessions[id := s];
      }
    }

    /** What is left of `before` after the identifiers outside `todo` were examined:
        examined sessions stay exactly when they have not expired, and dropped objects
        went from their view in `views` to its drop. */
    ghost predicate Swept(before: map<SessionID, LiveSession>, views: map<SessionID, Live>, todo: set<SessionID>, now: int)
      requires views.Keys == before.Keys
      reads this, before.Values
    {
      && todo <= sessions.Keys <= before.Keys && sessions.Values <= before.Values
      && (forall id :: id in sessions ==> sessions[id] == before[id])
      && (forall id :: id in before && id !in todo ==> (id in sessions <==> now < before[id].expiresAt))
      && forall id :: id in before ==> before[id].View() == (if id in sessions then views[id] else RelaySteps.Drop(views[id]))
    }

    ghost function Views(): (m: map<SessionID, Live>)
      reads this, sessions.Values
      ensures m.Keys == sessions.Keys
    {
      map id | id in sessions :: sessions[id].View()
    }

    /** Drops exactly the sessions that have expired. */
    method Sweep(now: int)
      requires Valid()
      modifies this, sessions.Values
      ensures Valid() && Swept(old(sessions), old(Views()), {}, now)
    {
      ghost var before, views := sessions, Views();
      var todo := sessions.Keys;
      while todo != {}
        invariant Valid() && Swept(before, views, todo, now)
        decreases |todo|
      {
        var id :| id in todo;
        SweepOne(id, before, views, todo, now);
        todo := todo - {id};
      }
    }

    method SweepOne(id: SessionID, ghost before: map<SessionID, LiveSession>, ghost views: map<SessionID, Live>, ghost todo: set<SessionID>, now: int)
      requires Valid() && id in todo && views.Keys == before.Keys && Swept(before, views, todo, now)
      requires forall i, j :: i in before && j in before && i != j ==> before[i] != before[j]
      modifies this, sessions.Values
      ensures Valid() && Swept(before, views, todo - {id}, now)
    {
      if now >= sessions[id].expiresAt {
        assert forall i :: i in before && i !in sessions ==> before[i] !in sessions.Values;
        DropLocked(id);
      }
    }
  }
}

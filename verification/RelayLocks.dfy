/** The relay's locks: one on the registry, one on each session, one inside the memory store.
    Each handler is the list of its lock operations; requests run in any interleaving. */
module RelayLocks {
  import opened Base

  datatype Lock = RegistryLock | SessionLock(o: nat) | StoreLock
  datatype Act = Acquire(l: Lock) | Release(l: Lock)

  /** Locks are taken in the order of their ranks: two sessions are never held at once. */
  function Rank(l: Lock): nat {
    match l
    case RegistryLock => 0
    case SessionLock(_) => 1
    case StoreLock => 2
  }

  // ----- the handlers

  /** What one request, poll turn or sweep does. An object is the one the registry leads
      to, if any; the flags are the outcomes of the tests in the code. */
  datatype Op =
    | Get
    | Store                                          // any single store call
    | Post(o: nat)
    | Join(o: nat)
    | PollTurn(o: nat, expired: bool, registered: bool)
    | Expire(there: Option<nat>, still: bool)            // the expiry path of handleSession
    | Create(there: Option<nat>)                         // after the store accepted the session
    | Delete(there: Option<nat>, found: bool)
    | Sweep(objects: seq<nat>)

  function Within(l: Lock, body: seq<Act>): seq<Act> { [Acquire(l)] + body + [Release(l)] }

  function StoreCall(): seq<Act> { Within(StoreLock, []) }

  function DropLocked(o: Option<nat>): seq<Act> {
    match o
    case None => []
    case Some(o) => Within(SessionLock(o), [])
  }

  function SweepBody(expired: seq<nat>): seq<Act> {
    if expired == [] then [] else SweepBody(expired[..|expired| - 1]) + (StoreCall() + DropLocked(Some(expired[|expired| - 1])))
  }

  function Script(op: Op): seq<Act> {
    match op
    case Get => Within(RegistryLock, [])
    case Store => StoreCall()
    case Post(o) => Within(SessionLock(o), [])
    case Join(o) => Within(SessionLock(o), [])
    case PollTurn(o, expired, registered) =>
      Within(SessionLock(o), []) +
      if expired then Within(RegistryLock, if registered then StoreCall() + DropLocked(Some(o)) else []) else []
    case Expire(o, still) =>
      StoreCall() + Within(RegistryLock, StoreCall() + if still then StoreCall() + DropLocked(o) else [])
    case Create(o) => StoreCall() + Within(RegistryLock, DropLocked(o))
    case Delete(o, found) => Within(RegistryLock, StoreCall() + if found then DropLocked(o) else [])
    case Sweep(expired) => Within(RegistryLock, SweepBody(expired))
  }

  function Scripts(ops: seq<Op>): seq<Act> {
    if ops == [] then [] else Scripts(ops[..|ops| - 1]) + Script(ops[|ops| - 1])
  }

  // ----- order

  predicate Below(held: seq<Lock>, l: Lock) { forall i :: 0 <= i < |held| ==> Rank(held[i]) < Rank(l) }

  /** The locks held after some acts, if every lock is taken above those held and given
      back in reverse. */
  function After(held: seq<Lock>, acts: seq<Act>): Option<seq<Lock>>
    decreases |acts|
  {
    if acts == [] then Some(held)
    else match acts[0]
      case Acquire(l) => if Below(held, l) then After(held + [l], acts[1..]) else None
      case Release(l) => if held != [] && held[|held| - 1] == l then After(held[..|held| - 1], acts[1..]) else None
  }

  lemma {:induction false} AfterAppend(held: seq<Lock>, a: seq<Act>, b: seq<Act>)
    requires After(held, a).Some?
    ensures After(held, a + b) == After(After(held, a).value, b)
    decreases |a|
  {
    if a == [] {
      assert a + b == b;
    } else {
      assert (a + b)[1..] == a[1..] + b;
      match a[0]
      case Acquire(l) => AfterAppend(held + [l], a[1..], b);
      case Release(l) => AfterAppend(held[..|held| - 1], a[1..], b);
    }
  }

  lemma AfterTwo(held: seq<Lock>, a: seq<Act>, b: seq<Act>)
    requires After(held, a) == Some(held) && After(held, b) == Some(held)
    ensures After(held, a + b) == Some(held)
  {
    hide After;
    AfterAppend(held, a, b);
  }

  lemma AfterWithin(held: seq<Lock>, l: Lock, body: seq<Act>)
    requires Below(held, l) && After(held + [l], body) == Some(held + [l])
    ensures After(held, Within(l, body)) == Some(held)
  {
    var acts := Within(l, body);
    assert acts[0] == Acquire(l) && acts[1..] == body + [Release(l)];
    AfterAppend(held + [l], body, [Release(l)]);
    assert (held + [l])[..|held|] == held;
    assert [Release(l)][1..] == [];
  }

  lemma AfterNothing(held: seq<Lock>)
    ensures After(held, []) == Some(held)
  {
  }

  /** Under the registry lock, or under none, a store call and a drop keep the order. */
  lemma Leaves(held: seq<Lock>, o: Option<nat>)
    requires held == [] || held == [RegistryLock]
    ensures After(held, StoreCall()) == Some(held) && After(held, DropLocked(o)) == Some(held)
    ensures After(held, []) == Some(held)
    ensures After(held, StoreCall() + DropLocked(o)) == Some(held)
  {
    hide After, Within;
    AfterNothing(held);
    AfterNothing(held + [StoreLock]);
    AfterWithin(held, StoreLock, []);
    if o.Some? {
      AfterNothing(held + [SessionLock(o.value)]);
      AfterWithin(held, SessionLock(o.value), []);
    }
    AfterTwo(held, StoreCall(), DropLocked(o));
  }

  lemma {:induction false} SweepOrdered(expired: seq<nat>)
    ensures After([RegistryLock], SweepBody(expired)) == Some([RegistryLock])
  {
    hide After, StoreCall, DropLocked;
    AfterNothing([RegistryLock]);
    if expired != [] {
      SweepOrdered(expired[..|expired| - 1]);
      Leaves([RegistryLock], Some(expired[|expired| - 1]));
      AfterTwo([RegistryLock], SweepBody(expired[..|expired| - 1]), StoreCall() + DropLocked(Some(expired[|expired| - 1])));
    }
  }

  lemma UnderRegistry(body: seq<Act>)
    requires After([RegistryLock], body) == Some([RegistryLock])
    ensures After([], Within(RegistryLock, body)) == Some([])
  {
    hide After, Within;
    assert [] + [RegistryLock] == [RegistryLock];
    AfterWithin([], RegistryLock, body);
  }

  lemma SessionAlone(o: nat)
    ensures After([], Within(SessionLock(o), [])) == Some([])
  {
    hide After, Within;
    Leaves([], Some(o));
  }

  /** Every handler takes its locks in order and ends with none: in particular none asks
      for the registry lock while it holds a session. */
  lemma ScriptOrdered(op: Op)
    ensures After([], Script(op)) == Some([])
  {
    hide After, Within, StoreCall, DropLocked, SweepBody;
    var r := [RegistryLock];
    Leaves([], None);
    Leaves(r, None);
    match op
    case Get => UnderRegistry([]);
    case Store =>
    case Post(o) => SessionAlone(o);
    case Join(o) => SessionAlone(o);
    case PollTurn(o, expired, registered) =>
      SessionAlone(o);
      Leaves(r, Some(o));
      var body := if registered then StoreCall() + DropLocked(Some(o)) else [];
      UnderRegistry(body);
      AfterTwo([], Within(SessionLock(o), []), if expired then Within(RegistryLock, body) else []);
    case Expire(o, still) =>
      Leaves(r, o);
      var body := if still then StoreCall() + DropLocked(o) else [];
      AfterTwo(r, StoreCall(), body);
      UnderRegistry(StoreCall() + body);
      AfterTwo([], StoreCall(), Within(RegistryLock, StoreCall() + body));
    case Create(o) =>
      Leaves(r, o);
      UnderRegistry(DropLocked(o));
      AfterTwo([], StoreCall(), Within(RegistryLock, DropLocked(o)));
    case Delete(o, found) =>
      Leaves(r, o);
      var body := if found then DropLocked(o) else [];
      AfterTwo(r, StoreCall(), body);
      UnderRegistry(StoreCall() + body);
    case Sweep(expired) =>
      SweepOrdered(expired);
      UnderRegistry(SweepBody(expired));
  }

  lemma {:induction false} ScriptsOrdered(ops: seq<Op>)
    ensures After([], Scripts(ops)) == Some([])
  {
    hide After, Script;
    if ops == [] {
      AfterNothing([]);
    } else {
      ScriptsOrdered(ops[..|ops| - 1]);
      ScriptOrdered(ops[|ops| - 1]);
      AfterTwo([], Scripts(ops[..|ops| - 1]), Script(ops[|ops| - 1]));
    }
  }

  // ----- interleavings

  datatype Thread = Thread(held: seq<Lock>, todo: seq<Act>)
  type State = seq<Thread>

  function Start(requests: seq<seq<Op>>): (s: State)
    ensures |s| == |requests| && forall i :: 0 <= i < |s| ==> s[i] == Thread([], Scripts(requests[i]))
  {
    seq(|requests|, i requires 0 <= i < |requests| => Thread([], Scripts(requests[i])))
  }

  predicate Held(s: State, l: Lock) { exists i :: 0 <= i < |s| && l in s[i].held }

  /** Thread i can make its next step: a lock it asks for is free. */
  predicate Enabled(s: State, i: nat) {
    i < |s| && s[i].todo != [] && (s[i].todo[0].Acquire? ==> !Held(s, s[i].todo[0].l))
  }

  function Advance(t: Thread): Thread
    requires t.todo != []
  {
    match t.todo[0]
    case Acquire(l) => Thread(t.held + [l], t.todo[1..])
    case Release(_) => Thread(if t.held == [] then [] else t.held[..|t.held| - 1], t.todo[1..])
  }

  function Apply(s: State, i: nat): State { if Enabled(s, i) then s[i := Advance(s[i])] else s }

  function Exec(requests: seq<seq<Op>>, steps: seq<nat>): State {
    if steps == [] then Start(requests) else Apply(Exec(requests, steps[..|steps| - 1]), steps[|steps| - 1])
  }

  ghost predicate InOrder(s: State) {
    forall i :: 0 <= i < |s| ==> After(s[i].held, s[i].todo) == Some([])
  }

  /** No lock has two holders. */
  ghost predicate Exclusive(s: State) {
    forall i, j, l :: 0 <= i < |s| && 0 <= j < |s| && l in s[i].held && l in s[j].held ==> i == j
  }

  lemma AdvanceInOrder(t: Thread)
    requires t.todo != [] && After(t.held, t.todo) == Some([])
    ensures After(Advance(t).held, Advance(t).todo) == Some([])
    ensures forall l :: l in Advance(t).held ==> l in t.held || t.todo[0] == Acquire(l)
  {
  }

  lemma ApplyKeeps(s: State, i: nat)
    requires InOrder(s) && Exclusive(s)
    ensures InOrder(Apply(s, i)) && Exclusive(Apply(s, i)) && |Apply(s, i)| == |s|
  {
    hide After, Advance;
    if Enabled(s, i) {
      AdvanceInOrder(s[i]);
      var t := Apply(s, i);
      forall j, k, l | 0 <= j < |t| && 0 <= k < |t| && l in t[j].held && l in t[k].held
        ensures j == k
      {
        if l in t[i].held && l !in s[i].held {
          assert !Held(s, l);
        }
      }
    }
  }

  lemma {:induction false} ReachableOrdered(requests: seq<seq<Op>>, steps: seq<nat>)
    ensures InOrder(Exec(requests, steps)) && Exclusive(Exec(requests, steps)) && |Exec(requests, steps)| == |requests|
  {
    hide After, Apply, Scripts;
    if steps == [] {
      forall i | 0 <= i < |requests|
        ensures After([], Scripts(requests[i])) == Some([])
      {
        ScriptsOrdered(requests[i]);
      }
    } else {
      ReachableOrdered(requests, steps[..|steps| - 1]);
      ApplyKeeps(Exec(requests, steps[..|steps| - 1]), steps[|steps| - 1]);
    }
  }

  /** At no moment of any interleaving does a request that holds a session or the store
      ask for the registry lock, nor one that holds a session for another session. */
  lemma RegistryFirst(requests: seq<seq<Op>>, steps: seq<nat>, i: nat)
    requires var s := Exec(requests, steps); i < |s| && s[i].todo != [] && s[i].todo[0].Acquire?
    ensures var t := Exec(requests, steps)[i];
            forall l :: l in t.held ==> Rank(l) < Rank(t.todo[0].l)
  {
    ReachableOrdered(requests, steps);
    var t := Exec(requests, steps)[i];
    assert Below(t.held, t.todo[0].l);
  }

  /** A thread that waits, wanting a lock of the highest rank among those waited for. */
  lemma {:induction false} TopWaiter(s: State, n: nat) returns (i: nat)
    requires n <= |s| && exists j :: 0 <= j < n && s[j].todo != [] && s[j].todo[0].Acquire?
    ensures i < n && s[i].todo != [] && s[i].todo[0].Acquire?
    ensures forall j :: 0 <= j < n && s[j].todo != [] && s[j].todo[0].Acquire? ==> Rank(s[j].todo[0].l) <= Rank(s[i].todo[0].l)
  {
    var k := n - 1;
    if exists j :: 0 <= j < k && s[j].todo != [] && s[j].todo[0].Acquire? {
      i := TopWaiter(s, k);
      if s[k].todo != [] && s[k].todo[0].Acquire? && Rank(s[k].todo[0].l) > Rank(s[i].todo[0].l) {
        i := k;
      }
    } else {
      i := k;
    }
  }

  /** A holder of a lock has something left to do, and if it waits, it waits for a lock of
      a higher rank. */
  lemma HolderGoesOn(t: Thread, l: Lock)
    requires After(t.held, t.todo) == Some([]) && l in t.held
    ensures t.todo != [] && (t.todo[0].Acquire? ==> Rank(l) < Rank(t.todo[0].l))
  {
  }

  /** No deadlock: in every interleaving, while some request is unfinished, some request
      can go on. */
  lemma NoDeadlock(requests: seq<seq<Op>>, steps: seq<nat>, u: nat)
    requires u < |requests|
    ensures |Exec(requests, steps)| == |requests|
    ensures Exec(requests, steps)[u].todo != [] ==> exists i: nat :: Enabled(Exec(requests, steps), i)
  {
    hide After, Apply, Exec;
    ReachableOrdered(requests, steps);
    var s := Exec(requests, steps);
    if s[u].todo != [] && !Enabled(s, u) {
      var i := TopWaiter(s, |s|);
      if !Enabled(s, i) {
        var h: nat :| h < |s| && s[i].todo[0].l in s[h].held;
        HolderGoesOn(s[h], s[i].todo[0].l);
        assert Enabled(s, h);
      }
    }
  }
}

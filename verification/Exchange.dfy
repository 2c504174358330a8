/** The authenticated key exchange of a live session. HMAC under the token's exchange key
    is idealised as a table of the tags its holders computed: a tag verifies only if it
    was computed. X25519 is any pair of functions whose two halves agree. The relay may
    hand either side whatever it likes. */
module Exchange {
  import opened Base
  import opened Envelopes

  type Key = b: Bytes | |b| == 32 witness seq(32, _ => 0)

  // ----- MAC inputs

  function Ascii(s: string): (b: Bytes)
    requires forall i :: 0 <= i < |s| ==> s[i] < 128 as char
    ensures |b| == |s|
  {
    seq(|s|, i requires 0 <= i < |s| => s[i] as int)
  }

  const SESSION_LABEL: Bytes := Ascii("aken/session/v1")

  function CollectorMACInput(id: SessionID, collectorKey: Key): Bytes {
    SESSION_LABEL + [1] + id + collectorKey
  }

  function McpMACInput(id: SessionID, collectorKey: Key, mcpKey: Key): Bytes {
    SESSION_LABEL + [2] + id + collectorKey + mcpKey
  }

  /** No collector MAC is ever the MAC of an MCP, for any arguments. */
  lemma MACInputsDisjoint(id: SessionID, c: Key, id': SessionID, c': Key, m': Key)
    ensures CollectorMACInput(id, c) != McpMACInput(id', c', m')
  {
    assert CollectorMACInput(id, c)[15] == 1;
    assert McpMACInput(id', c', m')[15] == 2;
  }

  lemma CollectorMACInputInjective(id: SessionID, c: Key, id': SessionID, c': Key)
    requires CollectorMACInput(id, c) == CollectorMACInput(id', c')
    ensures id == id' && c == c'
  {
    var x, y := CollectorMACInput(id, c), CollectorMACInput(id', c');
    assert x[16..32] == id && y[16..32] == id';
    assert x[32..] == c && y[32..] == c';
  }

  lemma McpMACInputInjective(id: SessionID, c: Key, m: Key, id': SessionID, c': Key, m': Key)
    requires McpMACInput(id, c, m) == McpMACInput(id', c', m')
    ensures id == id' && c == c' && m == m'
  {
    var x, y := McpMACInput(id, c, m), McpMACInput(id', c', m');
    assert x[16..32] == id && y[16..32] == id';
    assert x[32..64] == c && y[32..64] == c';
    assert x[64..] == m && y[64..] == m';
  }

  // ----- key derivation

  /** `pub` is the public half of a private key; `shared` the ECDH, which refuses some
      peers; `digest` SHA-256; `kdf` HKDF with secret, salt and info. How long digests and
      derived keys are is left open, so that they can be free of collisions. */
  datatype Crypto = Crypto(pub: nat -> Key, shared: (nat, Key) -> Option<Bytes>, digest: Bytes -> Bytes, kdf: (Bytes, Bytes, string) -> Bytes)

  ghost predicate Agrees(x: Crypto) {
    forall a: nat, b: nat {:trigger x.shared(a, x.pub(b))} :: x.shared(a, x.pub(b)) == x.shared(b, x.pub(a))
  }

  /** The idealisation of HKDF and SHA-256: different inputs, different outputs. */
  ghost predicate CollisionFree(x: Crypto) {
    && (forall a, b, c, a', b', c' :: x.kdf(a, b, c) == x.kdf(a', b', c') ==> a == a' && b == b' && c == c')
    && (forall d, d' :: x.digest(d) == x.digest(d') ==> d == d')
  }

  function ContentRoot(x: Crypto, private: nat, peer: Key, id: SessionID, collectorKey: Key, mcpKey: Key): Option<Bytes> {
    match x.shared(private, peer)
    case None => None
    case Some(secret) => Some(x.kdf(secret, x.digest(SESSION_LABEL + id + collectorKey + mcpKey), "content-root"))
  }

  datatype SessionKeys = SessionKeys(job: Bytes, result: Bytes)

  function DeriveSessionKeys(x: Crypto, root: Bytes): SessionKeys {
    SessionKeys(x.kdf(root, SESSION_LABEL, "job-key"), x.kdf(root, SESSION_LABEL, "result-key"))
  }

  const BLOB_LABEL: Bytes := Ascii("aken/blob/v1")

  datatype BlobKeys = BlobKeys(manifest: Bytes, chunk: Bytes)

  function DeriveBlobKeys(x: Crypto, root: Bytes): BlobKeys {
    BlobKeys(x.kdf(root, BLOB_LABEL, "manifest-key"), x.kdf(root, BLOB_LABEL, "chunk-key"))
  }

  /** Each direction and each kind of blob has its own key, and different roots share none. */
  lemma KeysDiffer(x: Crypto, root: Bytes, other: Bytes)
    requires CollisionFree(x)
    ensures var s, b := DeriveSessionKeys(x, root), DeriveBlobKeys(x, root);
            Distinct([s.job, s.result, b.manifest, b.chunk])
    ensures root != other ==>
              var s, b, t, c := DeriveSessionKeys(x, root), DeriveBlobKeys(x, root), DeriveSessionKeys(x, other), DeriveBlobKeys(x, other);
              {s.job, s.result, b.manifest, b.chunk} !! {t.job, t.result, c.manifest, c.chunk}
  {
    assert |SESSION_LABEL| == 15 && |BLOB_LABEL| == 12;
    assert |"job-key"| == 7 && |"result-key"| == 10 && |"manifest-key"| == 12 && |"chunk-key"| == 9;
    var s, b := DeriveSessionKeys(x, root), DeriveBlobKeys(x, root);
    var keys := [s.job, s.result, b.manifest, b.chunk];
    assert keys[0] != keys[1] && keys[0] != keys[2] && keys[0] != keys[3] && keys[1] != keys[2] && keys[1] != keys[3] && keys[2] != keys[3];
  }

  /** The root is fixed by the shared secret, the session and both public keys, and fixes
      them. */
  lemma RootsDiffer(x: Crypto, p: nat, peer: Key, id: SessionID, c: Key, m: Key, p': nat, peer': Key, id': SessionID, c': Key, m': Key)
    requires CollisionFree(x) && x.shared(p, peer).Some? && x.shared(p', peer').Some?
    ensures ContentRoot(x, p, peer, id, c, m) == ContentRoot(x, p', peer', id', c', m') <==>
            x.shared(p, peer) == x.shared(p', peer') && id == id' && c == c' && m == m'
  {
    var d, d' := SESSION_LABEL + id + c + m, SESSION_LABEL + id' + c' + m';
    if ContentRoot(x, p, peer, id, c, m) == ContentRoot(x, p', peer', id', c', m') {
      assert d == d';
      assert d[15..31] == id && d'[15..31] == id';
      assert d[31..63] == c && d'[31..63] == c';
      assert d[63..] == m && d'[63..] == m';
    }
  }

  // ----- runs

  /** One MCP join: it checked the collector's key and computed its own MAC; `keys` once
      the relay answered and it derived them. */
  datatype McpJoin = McpJoin(private: nat, collectorKey: Key, keys: Option<SessionKeys>)

  /** `Failed` is an exchange the collector could not complete, which ends its session. */
  datatype Collector = WaitingForJoin | Joined(mcpKey: Key, keys: SessionKeys) | Failed

  /** `macs` holds every tag computed under the exchange key, by its input. */
  datatype State = State(id: SessionID, private: nat, macs: map<Bytes, Key>, joins: seq<McpJoin>, collector: Collector)

  predicate Verifies(s: State, input: Bytes, tag: Key) {
    input in s.macs && s.macs[input] == tag
  }

  /** HMAC is a function: a second computation over the same input gives the same tag. */
  function Compute(s: State, input: Bytes, tag: Key): State {
    if input in s.macs then s else s.(macs := s.macs[input := tag])
  }

  function Init(x: Crypto, id: SessionID, private: nat, tag: Key): State {
    State(id, private, map[CollectorMACInput(id, x.pub(private)) := tag], [], WaitingForJoin)
  }

  /** session.Join up to the post of the join request. */
  function StartJoin(x: Crypto, s: State, key: Key, mac: Key, private: nat, tag: Key): State {
    if !Verifies(s, CollectorMACInput(s.id, key), mac) then s
    else
      var t := Compute(s, McpMACInput(s.id, key, x.pub(private)), tag);
      t.(joins := t.joins + [McpJoin(private, key, None)])
  }

  /** session.Join from the relay's answer on. */
  function FinishJoin(x: Crypto, s: State, i: nat, key: Key, mac: Key): State {
    if i >= |s.joins| || key != s.joins[i].collectorKey || !Verifies(s, CollectorMACInput(s.id, key), mac) then s
    else
      var j := s.joins[i];
      match ContentRoot(x, j.private, j.collectorKey, s.id, j.collectorKey, x.pub(j.private))
      case None => s
      case Some(root) => s.(joins := s.joins[i := j.(keys := Some(DeriveSessionKeys(x, root)))])
  }

  /** The collector's join, for one reply of the relay. */
  function AcceptJoin(x: Crypto, s: State, key: Key, mac: Key): State {
    if !s.collector.WaitingForJoin? || !Verifies(s, McpMACInput(s.id, x.pub(s.private), key), mac) then s
    else match ContentRoot(x, s.private, key, s.id, x.pub(s.private), key)
      case None => s.(collector := Failed)
      case Some(root) => s.(collector := Joined(key, DeriveSessionKeys(x, root)))
  }

  datatype Step =
    | Start(key: Key, mac: Key, private: nat, tag: Key)
    | Finish(i: nat, key: Key, mac: Key)
    | Accept(key: Key, mac: Key)

  function Apply(x: Crypto, s: State, step: Step): State {
    match step
    case Start(key, mac, private, tag) => StartJoin(x, s, key, mac, private, tag)
    case Finish(i, key, mac) => FinishJoin(x, s, i, key, mac)
    case Accept(key, mac) => AcceptJoin(x, s, key, mac)
  }

  function Exec(x: Crypto, s: State, steps: seq<Step>): State
    decreases |steps|
  {
    if steps == [] then s else Exec(x, Apply(x, s, steps[0]), steps[1..])
  }

  // ----- the invariant

  /** A join that owns `key` authenticated itself towards the collector's real key. */
  ghost predicate Claimed(x: Crypto, s: State, key: Key) {
    exists j :: j in s.joins && x.pub(j.private) == key && j.collectorKey == x.pub(s.private)
  }

  ghost predicate JoinOk(x: Crypto, s: State, j: McpJoin) {
    && j.collectorKey == x.pub(s.private)
    && (j.keys.Some? ==>
          var root := ContentRoot(x, j.private, j.collectorKey, s.id, j.collectorKey, x.pub(j.private));
          root.Some? && j.keys.value == DeriveSessionKeys(x, root.value))
  }

  /** Every computed tag is the collector's own or belongs to a join. */
  ghost predicate TagOk(x: Crypto, s: State, input: Bytes) {
    || input == CollectorMACInput(s.id, x.pub(s.private))
    || exists j :: j in s.joins && input == McpMACInput(s.id, j.collectorKey, x.pub(j.private))
  }

  ghost predicate Inv(x: Crypto, s: State) {
    && (forall j :: j in s.joins ==> JoinOk(x, s, j))
    && (forall input :: input in s.macs ==> TagOk(x, s, input))
    && (s.collector.Joined? ==>
          var key := s.collector.mcpKey;
          var root := ContentRoot(x, s.private, key, s.id, x.pub(s.private), key);
          Claimed(x, s, key) && root.Some? && s.collector.keys == DeriveSessionKeys(x, root.value))
  }

  lemma StartKeeps(x: Crypto, s: State, key: Key, mac: Key, private: nat, tag: Key)
    requires Inv(x, s)
    ensures Inv(x, StartJoin(x, s, key, mac, private, tag))
  {
    var t := StartJoin(x, s, key, mac, private, tag);
    if t != s {
      var own := x.pub(s.private);
      // The verified MAC was computed; it is not an MCP's, so it is the collector's own.
      assert TagOk(x, s, CollectorMACInput(s.id, key));
      forall j | j in s.joins ensures CollectorMACInput(s.id, key) != McpMACInput(s.id, j.collectorKey, x.pub(j.private)) {
        MACInputsDisjoint(s.id, key, s.id, j.collectorKey, x.pub(j.private));
      }
      CollectorMACInputInjective(s.id, key, s.id, own);
      var n := McpJoin(private, key, None);
      assert n in t.joins && forall j :: j in s.joins ==> j in t.joins;
      forall input | input in t.macs ensures TagOk(x, t, input) {
        if input in s.macs {
          assert TagOk(x, s, input);
        }
      }
    }
  }

  /** Filling in the keys of a join keeps who it is. */
  lemma KeysKeepIdentity(x: Crypto, s: State, t: State, i: nat, keys: SessionKeys)
    requires i < |s.joins| && t == s.(joins := s.joins[i := s.joins[i].(keys := Some(keys))])
    ensures forall key :: Claimed(x, s, key) ==> Claimed(x, t, key)
    ensures forall input :: TagOk(x, s, input) ==> TagOk(x, t, input)
  {
    forall j | j in s.joins ensures exists j' :: j' in t.joins && j'.private == j.private && j'.collectorKey == j.collectorKey {
      var k :| 0 <= k < |s.joins| && s.joins[k] == j;
      assert t.joins[k] in t.joins;
    }
  }

  lemma FinishKeeps(x: Crypto, s: State, i: nat, key: Key, mac: Key)
    requires Inv(x, s)
    ensures Inv(x, FinishJoin(x, s, i, key, mac))
  {
    hide Claimed, TagOk;
    var t := FinishJoin(x, s, i, key, mac);
    if t != s {
      assert s.joins[i] in s.joins;
      KeysKeepIdentity(x, s, t, i, t.joins[i].keys.value);
      forall j | j in t.joins ensures JoinOk(x, t, j) {
        var k :| 0 <= k < |t.joins| && t.joins[k] == j;
        assert s.joins[k] in s.joins && JoinOk(x, s, s.joins[k]);
      }
    }
  }

  lemma AcceptKeeps(x: Crypto, s: State, key: Key, mac: Key)
    requires Inv(x, s)
    ensures Inv(x, AcceptJoin(x, s, key, mac))
  {
    var t := AcceptJoin(x, s, key, mac);
    if t != s {
      var own := x.pub(s.private);
      var input := McpMACInput(s.id, own, key);
      assert TagOk(x, s, input);
      MACInputsDisjoint(s.id, own, s.id, own, key);
      var j :| j in s.joins && input == McpMACInput(s.id, j.collectorKey, x.pub(j.private));
      McpMACInputInjective(s.id, own, key, s.id, j.collectorKey, x.pub(j.private));
      assert Claimed(x, t, key);
      forall input | input in t.macs ensures TagOk(x, t, input) {
        assert TagOk(x, s, input);
      }
    }
  }

  lemma {:induction false} ExecKeeps(x: Crypto, s: State, steps: seq<Step>)
    requires Inv(x, s)
    ensures Inv(x, Exec(x, s, steps))
    ensures Exec(x, s, steps).id == s.id && Exec(x, s, steps).private == s.private
    decreases |steps|
  {
    if steps != [] {
      match steps[0]
      case Start(key, mac, private, tag) => StartKeeps(x, s, key, mac, private, tag);
      case Finish(i, key, mac) => FinishKeeps(x, s, i, key, mac);
      case Accept(key, mac) => AcceptKeeps(x, s, key, mac);
    }
    if steps != [] {
      ExecKeeps(x, Apply(x, s, steps[0]), steps[1..]);
    }
  }

  // ----- the theorem

  /** Whatever the relay hands out: when the collector accepts a key, some MCP join owns
      that key and computed its MAC over this session and the collector's real key; every
      join that finished with that key holds the very session keys the collector holds;
      and no MCP ever talks to another collector key. */
  lemma AuthenticatedAgreement(x: Crypto, id: SessionID, private: nat, tag: Key, steps: seq<Step>)
    requires Agrees(x)
    ensures var s := Exec(x, Init(x, id, private, tag), steps);
            && (forall j :: j in s.joins ==> j.collectorKey == x.pub(private))
            && (s.collector.Joined? ==>
                  && (exists j :: j in s.joins && x.pub(j.private) == s.collector.mcpKey && j.collectorKey == x.pub(private))
                  && forall j :: j in s.joins && x.pub(j.private) == s.collector.mcpKey && j.keys.Some? ==> j.keys.value == s.collector.keys)
  {
    var s := Exec(x, Init(x, id, private, tag), steps);
    ExecKeeps(x, Init(x, id, private, tag), steps);
    if s.collector.Joined? {
      forall j | j in s.joins && x.pub(j.private) == s.collector.mcpKey && j.keys.Some?
        ensures j.keys.value == s.collector.keys
      {
        assert JoinOk(x, s, j);
        assert x.shared(j.private, x.pub(private)) == x.shared(private, x.pub(j.private));
      }
    }
  }

  /** The collector's wait for a join: replies that do not authenticate are turned away
      and change nothing; the first that does decides. */
  method AwaitJoin(x: Crypto, s: State, replies: seq<(Key, Key)>) returns (s': State, taken: nat)
    requires s.collector.WaitingForJoin?
    ensures taken <= |replies|
    ensures forall i :: 0 <= i < taken ==> !Verifies(s, McpMACInput(s.id, x.pub(s.private), replies[i].0), replies[i].1)
    ensures taken == |replies| ==> s' == s
    ensures taken < |replies| ==>
              && Verifies(s, McpMACInput(s.id, x.pub(s.private), replies[taken].0), replies[taken].1)
              && s' == AcceptJoin(x, s, replies[taken].0, replies[taken].1) && !s'.collector.WaitingForJoin?
              && (s'.collector.Joined? ==> s'.collector.mcpKey == replies[taken].0)
  {
    taken := 0;
    while taken < |replies|
      invariant taken <= |replies|
      invariant forall i :: 0 <= i < taken ==> !Verifies(s, McpMACInput(s.id, x.pub(s.private), replies[i].0), replies[i].1)
    {
      s' := AcceptJoin(x, s, replies[taken].0, replies[taken].1);
      if !s'.collector.WaitingForJoin? {
        return;
      }
      taken := taken + 1;
    }
    s' := s;
  }

  /** With a relay that hands everything on, the exchange completes: the collector accepts the
      MCP's key, and both hold the same keys. */
  lemma ExchangeCompletes(x: Crypto, id: SessionID, private: nat, tag: Key, mcp: nat, mcpTag: Key)
    requires Agrees(x) && x.shared(private, x.pub(mcp)).Some?
    ensures var s := Exec(x, Init(x, id, private, tag), [Start(x.pub(private), tag, mcp, mcpTag), Accept(x.pub(mcp), mcpTag), Finish(0, x.pub(private), tag)]);
            && s.collector.Joined? && s.collector.mcpKey == x.pub(mcp)
            && |s.joins| == 1 && s.joins[0].keys == Some(s.collector.keys)
            && var root := ContentRoot(x, private, x.pub(mcp), id, x.pub(private), x.pub(mcp));
               root.Some? && s.collector.keys == DeriveSessionKeys(x, root.value)
  {
    var c, m := x.pub(private), x.pub(mcp);
    MACInputsDisjoint(id, c, id, c, m);
    var s0 := Init(x, id, private, tag);
    var a, b, f := Start(c, tag, mcp, mcpTag), Accept(m, mcpTag), Finish(0, c, tag);
    var s1 := Apply(x, s0, a);
    assert s1.joins == [McpJoin(mcp, c, None)] && Verifies(s1, McpMACInput(id, c, m), mcpTag) && Verifies(s1, CollectorMACInput(id, c), tag);
    var s2 := Apply(x, s1, b);
    var s3 := Apply(x, s2, f);
    assert Exec(x, s0, [a, b, f]) == Exec(x, s1, [b, f]) by { assert [a, b, f][1..] == [b, f]; }
    assert Exec(x, s1, [b, f]) == Exec(x, s2, [f]) by { assert [b, f][1..] == [f]; }
    assert Exec(x, s2, [f]) == Exec(x, s3, []) by { assert [f][1..] == []; }
  }
}

/** Nonces and keys together: no pair of them is used twice, in one direction, in both, or in
    two sessions. */
module LiveKeys {
  import opened Base
  import opened Envelopes
  import opened Exchange
  import P = Protocol

  /** One use of the cipher. */
  datatype Use = Use(key: Bytes, nonce: Bytes)

  predicate InRange(log: seq<Sealing>) { forall i :: 0 <= i < |log| ==> log[i].envelope.number <= MAX_SESSION_SEQ }

  function UseOf(key: Bytes, r: Sealing): Use
    requires r.envelope.number <= MAX_SESSION_SEQ
  {
    Use(key, Nonce(r.envelope.number))
  }

  function UsesOf(key: Bytes, log: seq<Sealing>): (r: seq<Use>)
    requires InRange(log)
    ensures |r| == |log| && forall i :: 0 <= i < |log| ==> r[i] == UseOf(key, log[i])
  {
    seq(|log|, i requires 0 <= i < |log| => UseOf(key, log[i]))
  }

  lemma NumbersInRange(id: SessionID, steps: seq<P.Step>)
    ensures InRange(P.Exec(P.Init(id), steps).jobLog) && InRange(P.Exec(P.Init(id), steps).resultLog)
  {
    hide P.HandledOk, P.ConsumedOk, P.AcceptedOk, P.Exec, P.Increasing;
    P.ReachableInv(id, steps);
    var w := P.Exec(P.Init(id), steps);
    forall i | 0 <= i < |w.jobLog| ensures w.jobLog[i].envelope.number <= MAX_SESSION_SEQ {
      assert w.jobLog[i] in w.jobLog;
    }
  }

  /** All uses of the cipher in a live session, in both directions. */
  function Uses(keys: SessionKeys, id: SessionID, steps: seq<P.Step>): seq<Use> {
    NumbersInRange(id, steps);
    UsesOf(keys.job, P.Exec(P.Init(id), steps).jobLog) + UsesOf(keys.result, P.Exec(P.Init(id), steps).resultLog)
  }

  /** Uses of one key are distinct if the nonces are. */
  lemma UsesDistinct(key: Bytes, log: seq<Sealing>)
    requires InRange(log)
    requires forall i, j :: 0 <= i < j < |log| ==> Nonce(log[i].envelope.number) != Nonce(log[j].envelope.number)
    ensures Distinct(UsesOf(key, log))
  {
    hide Nonce;
  }

  lemma UsesApart(a: seq<Use>, b: seq<Use>, k: Bytes, l: Bytes)
    requires Distinct(a) && Distinct(b) && k != l
    requires (forall i :: 0 <= i < |a| ==> a[i].key == k) && forall i :: 0 <= i < |b| ==> b[i].key == l
    ensures Distinct(a + b)
  {
  }

  /** Over every run, no key is used twice with one nonce: jobs and results together. */
  lemma SealOnceUnion(x: Crypto, root: Bytes, id: SessionID, steps: seq<P.Step>)
    requires CollisionFree(x)
    ensures Distinct(Uses(DeriveSessionKeys(x, root), id, steps))
  {
    hide CollisionFree, DeriveSessionKeys, P.Exec, Nonce, Distinct;
    NumbersInRange(id, steps);
    P.SealOnce(id, steps);
    var keys := DeriveSessionKeys(x, root);
    DirectionsDiffer(x, root);
    UsesDistinct(keys.job, P.Exec(P.Init(id), steps).jobLog);
    UsesDistinct(keys.result, P.Exec(P.Init(id), steps).resultLog);
    UsesApart(UsesOf(keys.job, P.Exec(P.Init(id), steps).jobLog), UsesOf(keys.result, P.Exec(P.Init(id), steps).resultLog), keys.job, keys.result);
  }

  /** Jobs and results are sealed under different keys. */
  lemma DirectionsDiffer(x: Crypto, root: Bytes)
    requires CollisionFree(x)
    ensures DeriveSessionKeys(x, root).job != DeriveSessionKeys(x, root).result
  {
    hide CollisionFree, DeriveSessionKeys, DeriveBlobKeys;
    KeysDiffer(x, root, root);
    var s, b := DeriveSessionKeys(x, root), DeriveBlobKeys(x, root);
    var keys := [s.job, s.result, b.manifest, b.chunk];
    assert keys[0] != keys[1];
  }

  lemma UsesKeys(keys: SessionKeys, id: SessionID, steps: seq<P.Step>, u: Use)
    requires u in Uses(keys, id, steps)
    ensures u.key == keys.job || u.key == keys.result
  {
    hide P.Exec, Nonce;
    NumbersInRange(id, steps);
    var a, b := UsesOf(keys.job, P.Exec(P.Init(id), steps).jobLog), UsesOf(keys.result, P.Exec(P.Init(id), steps).resultLog);
    assert u in a || u in b;
  }

  /** Two sessions whose exchanges differ in the secret, the session or a public key never use
      one key with one nonce, whatever either does. */
  lemma SessionsApart(x: Crypto, root: Bytes, other: Bytes, id: SessionID, steps: seq<P.Step>, id': SessionID, steps': seq<P.Step>, u: Use)
    requires CollisionFree(x) && root != other
    ensures !(u in Uses(DeriveSessionKeys(x, root), id, steps) && u in Uses(DeriveSessionKeys(x, other), id', steps'))
  {
    hide CollisionFree, DeriveSessionKeys, Uses;
    KeysDiffer(x, root, other);
    var s, t := DeriveSessionKeys(x, root), DeriveSessionKeys(x, other);
    if u in Uses(s, id, steps) {
      UsesKeys(s, id, steps, u);
    }
    if u in Uses(t, id', steps') {
      UsesKeys(t, id', steps', u);
    }
  }
}

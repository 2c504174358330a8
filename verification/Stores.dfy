/** The relay's two stores. One keeps sessions in memory with a running chunk counter, the
    other keeps a directory tree and recounts by listing it. Both are proved against one
    specification of a write-once store, so no caller can tell them apart. */
module StoreSpec {
  import opened Base
  import opened Envelopes

  datatype Meta = Meta(mode: string, collectorKey: Bytes, collectorMAC: Bytes, credentialHash: Bytes,
                       expiresAt: int, chunkCount: nat)

  datatype Session = Session(meta: Meta, chunks: map<nat, Bytes>, manifest: Option<Bytes>)
  type Store = map<SessionID, Session>

  datatype Op =
    | Create(id: SessionID, meta: Meta)
    | Describe(id: SessionID)
    | PutChunk(id: SessionID, index: nat, body: Bytes)
    | GetChunk(id: SessionID, index: nat)
    | PutManifest(id: SessionID, body: Bytes)
    | GetManifest(id: SessionID)
    | Delete(id: SessionID)
    | Sweep(now: int)

  datatype Answer = Done | Exists | NotFound | Info(meta: Meta, stored: nat, manifestStored: bool) | Body(body: Bytes)

  predicate HasChunk(store: Store, id: SessionID, index: nat) {
    id in store && index < store[id].meta.chunkCount && index in store[id].chunks
  }

  function Reply(store: Store, op: Op): Answer {
    match op
    case Create(id, _) => if id in store then Exists else Done
    case Describe(id) =>
      if id in store then Info(store[id].meta, |store[id].chunks|, store[id].manifest.Some?) else NotFound
    case PutChunk(id, index, _) =>
      if id !in store || index >= store[id].meta.chunkCount then NotFound
      else if index in store[id].chunks then Exists
      else Done
    case GetChunk(id, index) => if HasChunk(store, id, index) then Body(store[id].chunks[index]) else NotFound
    case PutManifest(id, _) =>
      if id !in store then NotFound else if store[id].manifest.Some? then Exists else Done
    case GetManifest(id) =>
      if id in store && store[id].manifest.Some? then Body(store[id].manifest.value) else NotFound
    case Delete(id) => if id in store then Done else NotFound
    case Sweep(_) => Done
  }

  function After(store: Store, op: Op): Store {
    match op
    case Create(id, meta) => if id in store then store else store[id := Session(meta, map[], None)]
    case PutChunk(id, index, body) =>
      if Reply(store, op) == Done then store[id := WithChunk(store[id], index, body)] else store
    case PutManifest(id, body) =>
      if Reply(store, op) == Done then store[id := store[id].(manifest := Some(body))] else store
    case Delete(id) => store - {id}
    case Sweep(now) => map id | id in store && now < store[id].meta.expiresAt :: store[id]
    case _ => store
  }

  function WithChunk(s: Session, index: nat, body: Bytes): (r: Session)
    ensures index !in s.chunks ==> |r.chunks| == |s.chunks| + 1
  {
    assert s.chunks[index := body].Keys == s.chunks.Keys + {index};
    s.(chunks := s.chunks[index := body])
  }

  /** Chunks lie below the session's chunk count. */
  ghost predicate Bounded(store: Store) {
    forall id, i :: id in store && i in store[id].chunks ==> i < store[id].meta.chunkCount
  }

  function Run(ops: seq<Op>): Store {
    if ops == [] then map[] else After(Run(ops[..|ops| - 1]), ops[|ops| - 1])
  }

  /** Answers to a sequence of calls on a new store. */
  function Answers(ops: seq<Op>): (r: seq<Answer>)
    ensures |r| == |ops|
  {
    if ops == [] then []
    else Answers(ops[..|ops| - 1]) + [Reply(Run(ops[..|ops| - 1]), ops[|ops| - 1])]
  }

  // ----- what a store is for

  /** A chunk is written exactly once, inside its session's range; it reads back as written,
      is counted, and a second write changes nothing. */
  lemma ChunkLaws(store: Store, id: SessionID, i: nat, body: Bytes, other: Bytes)
    ensures Reply(store, PutChunk(id, i, body)) == Done <==> id in store && i < store[id].meta.chunkCount && i !in store[id].chunks
    ensures Reply(store, PutChunk(id, i, body)) == Done ==>
              var t := After(store, PutChunk(id, i, body));
              && Reply(t, GetChunk(id, i)) == Body(body)
              && Reply(t, PutChunk(id, i, other)) == Exists && After(t, PutChunk(id, i, other)) == t
              && Reply(t, Describe(id)) == Info(store[id].meta, |store[id].chunks| + 1, store[id].manifest.Some?)
              && forall j :: j != i ==> Reply(t, GetChunk(id, j)) == Reply(store, GetChunk(id, j))
    ensures Reply(store, PutChunk(id, i, body)) != Done ==> After(store, PutChunk(id, i, body)) == store
  {
  }

  /** A manifest is written once per session and reads back as written. */
  lemma ManifestLaws(store: Store, id: SessionID, body: Bytes, other: Bytes)
    ensures Reply(store, PutManifest(id, body)) == Done <==> id in store && store[id].manifest.None?
    ensures Reply(store, PutManifest(id, body)) == Done ==>
              var t := After(store, PutManifest(id, body));
              && Reply(t, GetManifest(id)) == Body(body)
              && Reply(t, PutManifest(id, other)) == Exists && After(t, PutManifest(id, other)) == t
              && Reply(t, Describe(id)) == Info(store[id].meta, |store[id].chunks|, true)
    ensures Reply(store, PutManifest(id, body)) != Done ==> After(store, PutManifest(id, body)) == store
  {
  }

  /** A new session is empty and keeps its description; an existing one is left alone; a
      deleted one is not found by any call. */
  lemma SessionLaws(store: Store, id: SessionID, meta: Meta, i: nat, body: Bytes)
    ensures id !in store ==>
              var t := After(store, Create(id, meta));
              && Reply(store, Create(id, meta)) == Done && Reply(t, Describe(id)) == Info(meta, 0, false)
              && Reply(t, GetChunk(id, i)) == NotFound && Reply(t, GetManifest(id)) == NotFound
    ensures id in store ==> Reply(store, Create(id, meta)) == Exists && After(store, Create(id, meta)) == store
    ensures var t := After(store, Delete(id));
            && Reply(t, Describe(id)) == NotFound && Reply(t, GetChunk(id, i)) == NotFound && Reply(t, GetManifest(id)) == NotFound
            && Reply(t, PutChunk(id, i, body)) == NotFound && Reply(t, PutManifest(id, body)) == NotFound && Reply(t, Delete(id)) == NotFound
    ensures Reply(store, Delete(id)) == Done <==> id in store
  {
  }

  /** A call on one session leaves every other alone; a sweep takes exactly the expired. */
  lemma OthersAlone(store: Store, op: Op, id: SessionID)
    ensures !op.Sweep? && op.id != id ==> (id in After(store, op) <==> id in store) && (id in store ==> After(store, op)[id] == store[id])
    ensures op.Sweep? ==>
              && (id in After(store, op) <==> id in store && op.now < store[id].meta.expiresAt)
              && (id in After(store, op) ==> After(store, op)[id] == store[id])
  {
  }

  /** A sweep that still has `rest` to look at: what it has seen is there unless expired. */
  ghost predicate Swept(before: Store, store: Store, now: int, rest: set<SessionID>) {
    && (forall id :: id in store <==> id in before && (id in rest || now < before[id].meta.expiresAt))
    && (forall id :: id in store ==> store[id] == before[id])
  }

  lemma SweptStart(store: Store, now: int)
    ensures Swept(store, store, now, store.Keys)
  {
  }

  lemma SweptDrop(before: Store, store: Store, now: int, rest: set<SessionID>, id: SessionID)
    requires Swept(before, store, now, rest + {id}) && id !in rest
    requires id in store && store[id].meta.expiresAt <= now
    ensures Swept(before, store - {id}, now, rest)
  {
  }

  lemma SweptKeep(before: Store, store: Store, now: int, rest: set<SessionID>, id: SessionID)
    requires Swept(before, store, now, rest + {id})
    requires id in store && now < store[id].meta.expiresAt
    ensures Swept(before, store, now, rest)
  {
  }

  lemma SweptEither(before: Store, store: Store, now: int, rest: set<SessionID>, id: SessionID)
    requires Swept(before, store, now, rest) && id in rest && rest <= store.Keys
    ensures Swept(before, if now < store[id].meta.expiresAt then store else store - {id}, now, rest - {id})
    ensures rest - {id} <= (store - {id}).Keys
  {
    hide Swept;
    assert rest == (rest - {id}) + {id};
    if now < store[id].meta.expiresAt {
      SweptKeep(before, store, now, rest - {id}, id);
    } else {
      SweptDrop(before, store, now, rest - {id}, id);
    }
  }

  lemma SweptAll(before: Store, store: Store, now: int)
    requires Swept(before, store, now, {})
    ensures store == After(before, Sweep(now))
  {
  }

  /** A call that may remove session `id`. */
  predicate Removes(store: Store, op: Op, id: SessionID) {
    match op
    case Delete(x) => x == id
    case Sweep(now) => id in store && store[id].meta.expiresAt <= now
    case _ => false
  }

  lemma {:induction false} StepKeepsObjects(store: Store, op: Op, id: SessionID)
    requires id in store && !Removes(store, op, id)
    ensures var t := After(store, op);
            && id in t && t[id].meta == store[id].meta
            && (store[id].manifest.Some? ==> t[id].manifest == store[id].manifest)
            && forall i :: i in store[id].chunks ==> i in t[id].chunks && t[id].chunks[i] == store[id].chunks[i]
  {
  }

  /** The rest of a run after its first k calls never removes `id`. */
  ghost predicate Spared(ops: seq<Op>, k: nat, id: SessionID) {
    forall j :: k <= j < |ops| ==> !Removes(Run(ops[..j]), ops[j], id)
  }

  /** Once written, an object reads back with the same bytes after any further calls, until
      its session is deleted or swept away. */
  lemma {:induction false} WrittenStays(ops: seq<Op>, k: nat, id: SessionID, i: nat)
    requires k <= |ops| && Spared(ops, k, id) && id in Run(ops[..k])
    ensures var s := Run(ops[..k])[id];
            && id in Run(ops) && Run(ops)[id].meta == s.meta
            && (s.manifest.Some? ==> Reply(Run(ops), GetManifest(id)) == Body(s.manifest.value))
            && (HasChunk(Run(ops[..k]), id, i) ==> Reply(Run(ops), GetChunk(id, i)) == Body(s.chunks[i]))
    decreases |ops|
  {
    hide After, Removes;
    if k == |ops| {
      assert ops[..k] == ops;
    } else {
      var n := |ops| - 1;
      var front := ops[..n];
      assert front[..k] == ops[..k];
      assert forall j :: k <= j < n ==> front[..j] == ops[..j];
      WrittenStays(front, k, id, i);
      assert !Removes(Run(ops[..n]), ops[n], id);
      StepKeepsObjects(Run(front), ops[n], id);
    }
  }
}

module MemoryStores {
  import opened Base
  import opened Envelopes
  import opened StoreSpec

  datatype MemSession = MemSession(meta: Meta, chunks: seq<Option<Bytes>>, stored: nat, manifest: Option<Bytes>)

  /** The counter is the number of chunks, and the slots hold them. */
  ghost predicate Matches(m: MemSession, s: Session) {
    && m.meta == s.meta && m.manifest == s.manifest
    && |m.chunks| == s.meta.chunkCount
    && (forall i :: 0 <= i < |m.chunks| ==> m.chunks[i] == if i in s.chunks then Some(s.chunks[i]) else None)
    && (forall i :: i in s.chunks ==> i < |m.chunks|)
    && m.stored == |s.chunks|
  }

  ghost predicate Agree(sessions: map<SessionID, MemSession>, store: Store) {
    sessions.Keys == store.Keys && forall id :: id in sessions ==> Matches(sessions[id], store[id])
  }

  lemma AgreeAt(sessions: map<SessionID, MemSession>, store: Store, id: SessionID)
    requires Agree(sessions, store)
    ensures id in sessions <==> id in store
    ensures id in store ==> Matches(sessions[id], store[id])
  {
    hide Matches;
  }

  lemma AgreePut(sessions: map<SessionID, MemSession>, store: Store, id: SessionID, m: MemSession, s: Session)
    requires Agree(sessions, store) && Matches(m, s)
    ensures Agree(sessions[id := m], store[id := s])
  {
    hide Matches;
  }

  lemma AgreeDrop(sessions: map<SessionID, MemSession>, store: Store, id: SessionID)
    requires Agree(sessions, store)
    ensures Agree(sessions - {id}, store - {id})
  {
    hide Matches;
  }

  lemma NewMatches(meta: Meta)
    ensures Matches(MemSession(meta, seq(meta.chunkCount, _ => None), 0, None), Session(meta, map[], None))
  {
  }

  lemma ChunkMatches(m: MemSession, s: Session, index: nat, body: Bytes)
    requires Matches(m, s) && index < |m.chunks| && index !in s.chunks
    ensures Matches(m.(chunks := m.chunks[index := Some(body)], stored := m.stored + 1), WithChunk(s, index, body))
  {
  }

  lemma SameKeys(sessions: map<SessionID, MemSession>, store: Store)
    requires Agree(sessions, store)
    ensures sessions.Keys == store.Keys
  {
  }

  lemma SameExpiry(sessions: map<SessionID, MemSession>, store: Store, id: SessionID)
    requires id in sessions && id in store && Matches(sessions[id], store[id])
    ensures sessions[id].meta == store[id].meta
  {
  }

  class MemoryStore {
    var sessions: map<SessionID, MemSession>
    ghost var store: Store

    ghost predicate Valid()
      reads this
    {
      Agree(sessions, store)
    }

    constructor ()
      ensures Valid() && store == map[]
    {
      sessions := map[];
      store := map[];
    }

    method Create(id: SessionID, meta: Meta) returns (r: Answer)
      requires Valid()
      modifies this
      ensures Valid() && store == After(old(store), Op.Create(id, meta)) && r == Reply(old(store), Op.Create(id, meta))
    {
      hide Agree, Matches;
      AgreeAt(sessions, store, id);
      if id in sessions {
        return Exists;
      }
      sessions := sessions[id := MemSession(meta, seq(meta.chunkCount, _ => None), 0, None)];
      NewMatches(meta);
      AgreePut(old(sessions), store, id, sessions[id], Session(meta, map[], None));
      store := store[id := Session(meta, map[], None)];
      return Done;
    }

    method Describe(id: SessionID) returns (r: Answer)
      requires Valid()
      ensures r == Reply(store, Op.Describe(id))
    {
      hide Agree;
      AgreeAt(sessions, store, id);
      if id !in sessions {
        return NotFound;
      }
      var s := sessions[id];
      return Info(s.meta, s.stored, s.manifest.Some?);
    }

    method PutChunk(id: SessionID, index: nat, body: Bytes) returns (r: Answer)
      requires Valid()
      modifies this
      ensures Valid() && store == After(old(store), Op.PutChunk(id, index, body)) && r == Reply(old(store), Op.PutChunk(id, index, body))
    {
      hide Agree;
      AgreeAt(sessions, store, id);
      if id !in sessions || index >= sessions[id].meta.chunkCount {
        return NotFound;
      }
      var s := sessions[id];
      if s.chunks[index].Some? {
        return Exists;
      }
      sessions := sessions[id := s.(chunks := s.chunks[index := Some(body)], stored := s.stored + 1)];
      ChunkMatches(s, store[id], index, body);
      AgreePut(old(sessions), store, id, sessions[id], WithChunk(store[id], index, body));
      store := store[id := WithChunk(store[id], index, body)];
      return Done;
    }

    method GetChunk(id: SessionID, index: nat) returns (r: Answer)
      requires Valid()
      ensures r == Reply(store, Op.GetChunk(id, index))
    {
      hide Agree;
      AgreeAt(sessions, store, id);
      if id !in sessions || index >= sessions[id].meta.chunkCount || sessions[id].chunks[index].None? {
        return NotFound;
      }
      return Body(sessions[id].chunks[index].value);
    }

    method PutManifest(id: SessionID, body: Bytes) returns (r: Answer)
      requires Valid()
      modifies this
      ensures Valid() && store == After(old(store), Op.PutManifest(id, body)) && r == Reply(old(store), Op.PutManifest(id, body))
    {
      hide Agree;
      AgreeAt(sessions, store, id);
      if id !in sessions {
        return NotFound;
      }
      if sessions[id].manifest.Some? {
        return Exists;
      }
      sessions := sessions[id := sessions[id].(manifest := Some(body))];
      AgreePut(old(sessions), store, id, sessions[id], store[id].(manifest := Some(body)));
      store := store[id := store[id].(manifest := Some(body))];
      return Done;
    }

    method GetManifest(id: SessionID) returns (r: Answer)
      requires Valid()
      ensures r == Reply(store, Op.GetManifest(id))
    {
      hide Agree;
      AgreeAt(sessions, store, id);
      if id !in sessions || sessions[id].manifest.None? {
        return NotFound;
      }
      return Body(sessions[id].manifest.value);
    }

    method Delete(id: SessionID) returns (r: Answer)
      requires Valid()
      modifies this
      ensures Valid() && store == After(old(store), Op.Delete(id)) && r == Reply(old(store), Op.Delete(id))
    {
      hide Agree;
      AgreeAt(sessions, store, id);
      if id !in sessions {
        return NotFound;
      }
      AgreeDrop(sessions, store, id);
      sessions := sessions - {id};
      store := store - {id};
      return Done;
    }

    method Sweep(now: int)
      requires Valid()
      modifies this
      ensures Valid() && store == After(old(store), Op.Sweep(now))
    {
      hide Agree, Matches;
      var rest := sessions.Keys;
      ghost var before := store;
      SameKeys(sessions, store);
      while rest != {}
        invariant Valid() && rest <= store.Keys
        invariant Swept(before, store, now, rest)
        decreases rest
      {
        var id :| id in rest;
        AgreeAt(sessions, store, id);
        SameExpiry(sessions, store, id);
        rest := rest - {id};
        if now >= sessions[id].meta.expiresAt {
          SweptDrop(before, store, now, rest, id);
          AgreeDrop(sessions, store, id);
          sessions := sessions - {id};
          store := store - {id};
        } else {
          SweptKeep(before, store, now, rest, id);
        }
      }
      SweptAll(before, store, now);
    }

    /** One call, whichever it is. */
    method Call(op: Op) returns (r: Answer)
      requires Valid()
      modifies this
      ensures Valid() && store == After(old(store), op) && r == Reply(old(store), op)
    {
      match op
      case Create(id, meta) => r := Create(id, meta);
      case Describe(id) => r := Describe(id);
      case PutChunk(id, index, body) => r := PutChunk(id, index, body);
      case GetChunk(id, index) => r := GetChunk(id, index);
      case PutManifest(id, body) => r := PutManifest(id, body);
      case GetManifest(id) => r := GetManifest(id);
      case Delete(id) => r := Delete(id);
      case Sweep(now) => Sweep(now); r := Done;
    }
  }
}

module DirStores {
  import opened Base
  import opened Envelopes
  import opened StoreSpec

  type Path = seq<string>
  datatype Node = Dir | File(body: Bytes)
  type Tree = map<Path, Node>

  function Lookup(fs: Tree, p: Path): Option<Node> { if p in fs then Some(fs[p]) else None }

  function IDPath(id: SessionID): Path { [IDString(id)] }
  function MetaPath(id: SessionID): Path { [IDString(id), "meta.json"] }
  function ManifestPath(id: SessionID): Path { [IDString(id), "manifest"] }
  function ChunksPath(id: SessionID): Path { [IDString(id), "chunks"] }
  function ChunkPath(id: SessionID, i: nat): Path { [IDString(id), "chunks", Decimal(i)] }

  /** The JSON form of a session's metadata. */
  datatype Codec = Codec(marshal: Meta -> Bytes, unmarshal: Bytes -> Option<Meta>)

  ghost predicate Faithful(c: Codec) { forall m :: c.unmarshal(c.marshal(m)) == Some(m) }

  /** The index a canonical numeral names. */
  function IndexOf(name: string): Option<nat> {
    match ParseDecimal(name)
    case Some(i) => if Decimal(i) == name then Some(i) else None
    case None => None
  }

  lemma IndexOfExact(name: string, i: nat)
    ensures IndexOf(name) == Some(i) <==> name == Decimal(i)
  {
    DecimalRoundTrip(i);
  }

  /** What lies inside the directory of a session. */
  function Inside(c: Codec, s: Session, p: Path): Option<Node> {
    if p == [] then Some(Dir)
    else if p == ["meta.json"] then Some(File(c.marshal(s.meta)))
    else if p == ["chunks"] then Some(Dir)
    else if p == ["manifest"] then (if s.manifest.Some? then Some(File(s.manifest.value)) else None)
    else if |p| == 2 && p[0] == "chunks" && IndexOf(p[1]).Some? && IndexOf(p[1]).value in s.chunks
      then Some(File(s.chunks[IndexOf(p[1]).value]))
    else None
  }

  /** What the tree of a store holds at a path. */
  function Expected(c: Codec, store: Store, p: Path): Option<Node> {
    if p == [] then Some(Dir)
    else match ParseSessionID(p[0])
      case None => None
      case Some(id) => if id in store then Inside(c, store[id], p[1..]) else None
  }

  /** The tree holds exactly what the store says. */
  ghost predicate Mirrors(c: Codec, fs: Tree, store: Store) {
    forall p :: Lookup(fs, p) == Expected(c, store, p)
  }

  lemma MirrorsAt(c: Codec, fs: Tree, store: Store, p: Path)
    requires Mirrors(c, fs, store)
    ensures Lookup(fs, p) == Expected(c, store, p)
  {
  }

  lemma ExpectedIn(c: Codec, store: Store, id: SessionID, p: Path)
    ensures Expected(c, store, [IDString(id)] + p) == if id in store then Inside(c, store[id], p) else None
  {
    ParseSessionIDExact(IDString(id), id);
    assert ([IDString(id)] + p)[1..] == p;
  }

  lemma Known(c: Codec, fs: Tree, store: Store, id: SessionID)
    requires Mirrors(c, fs, store)
    ensures IDPath(id) in fs <==> id in store
    ensures MetaPath(id) in fs <==> id in store
    ensures ChunksPath(id) in fs <==> id in store
    ensures id in store ==> fs[MetaPath(id)] == File(c.marshal(store[id].meta)) && fs[ChunksPath(id)] == Dir && fs[IDPath(id)] == Dir
    ensures Lookup(fs, ManifestPath(id)) == if id in store && store[id].manifest.Some? then Some(File(store[id].manifest.value)) else None
  {
    hide Expected, IDString, Mirrors;
    assert IDPath(id) == [IDString(id)] + [];
    assert MetaPath(id) == [IDString(id)] + ["meta.json"];
    assert ChunksPath(id) == [IDString(id)] + ["chunks"];
    assert ManifestPath(id) == [IDString(id)] + ["manifest"];
    KnownAt(c, fs, store, id, []);
    KnownAt(c, fs, store, id, ["meta.json"]);
    KnownAt(c, fs, store, id, ["chunks"]);
    KnownAt(c, fs, store, id, ["manifest"]);
  }

  lemma KnownAt(c: Codec, fs: Tree, store: Store, id: SessionID, p: Path)
    requires Mirrors(c, fs, store)
    ensures Lookup(fs, [IDString(id)] + p) == if id in store then Inside(c, store[id], p) else None
  {
    hide Inside, IDString;
    ExpectedIn(c, store, id, p);
  }

  lemma KnownChunk(c: Codec, fs: Tree, store: Store, id: SessionID, i: nat)
    requires Mirrors(c, fs, store)
    ensures Lookup(fs, ChunkPath(id, i)) == if id in store && i in store[id].chunks then Some(File(store[id].chunks[i])) else None
  {
    hide Expected, IDString, Mirrors, Decimal;
    assert ChunkPath(id, i) == [IDString(id)] + ["chunks", Decimal(i)];
    KnownAt(c, fs, store, id, ["chunks", Decimal(i)]);
    IndexOfExact(Decimal(i), i);
  }

  // ----- how calls change what is expected

  /** Changing one session changes only what lies in its directory. */
  lemma ExpectedChange(c: Codec, store: Store, t: Store, id: SessionID, p: Path)
    requires forall x :: x != id ==> (x in t <==> x in store) && (x in t ==> t[x] == store[x])
    ensures (p == [] || p[0] != IDString(id)) ==> Expected(c, t, p) == Expected(c, store, p)
    ensures p != [] && p[0] == IDString(id) ==> Expected(c, t, p) == if id in t then Inside(c, t[id], p[1..]) else None
  {
    hide IDString;
    if p != [] {
      ParseSessionIDExact(p[0], id);
    }
  }

  lemma WriteMirrors(c: Codec, fs: Tree, store: Store, t: Store, id: SessionID, local: Path, node: Node)
    requires Mirrors(c, fs, store) && id in store && id in t
    requires forall x :: x != id ==> (x in t <==> x in store) && (x in t ==> t[x] == store[x])
    requires forall p :: Inside(c, t[id], p) == if p == local then Some(node) else Inside(c, store[id], p)
    ensures Mirrors(c, fs[[IDString(id)] + local := node], t)
  {
    hide Inside, IDString, Expected;
    var path := [IDString(id)] + local;
    var fs' := fs[path := node];
    forall p
      ensures Lookup(fs', p) == Expected(c, t, p)
    {
      ExpectedChange(c, store, t, id, p);
      ExpectedChange(c, store, store, id, p);
      MirrorsAt(c, fs, store, p);
      if p != [] && p[0] == IDString(id) {
        assert p == [IDString(id)] + p[1..];
        assert p == path <==> p[1..] == local;
      } else {
        assert p != path;
      }
    }
  }

  lemma ChunkInside(c: Codec, s: Session, i: nat, body: Bytes)
    ensures forall p :: Inside(c, WithChunk(s, i, body), p) == if p == ["chunks", Decimal(i)] then Some(File(body)) else Inside(c, s, p)
  {
    hide Decimal, IndexOf;
    forall p
      ensures Inside(c, WithChunk(s, i, body), p) == if p == ["chunks", Decimal(i)] then Some(File(body)) else Inside(c, s, p)
    {
      if |p| == 2 {
        IndexOfExact(p[1], i);
      }
    }
  }

  lemma ManifestInside(c: Codec, s: Session, body: Bytes)
    ensures forall p :: Inside(c, s.(manifest := Some(body)), p) == if p == ["manifest"] then Some(File(body)) else Inside(c, s, p)
  {
  }

  lemma CreateMirrors(c: Codec, fs: Tree, store: Store, id: SessionID, meta: Meta)
    requires Mirrors(c, fs, store) && id !in store
    ensures Mirrors(c, fs[IDPath(id) := Dir][MetaPath(id) := File(c.marshal(meta))][ChunksPath(id) := Dir],
                    store[id := Session(meta, map[], None)])
  {
    hide IDString, Expected, IndexOf;
    var t, s := store[id := Session(meta, map[], None)], Session(meta, map[], None);
    var fs' := fs[IDPath(id) := Dir][MetaPath(id) := File(c.marshal(meta))][ChunksPath(id) := Dir];
    forall p
      ensures Lookup(fs', p) == Expected(c, t, p)
    {
      ExpectedChange(c, store, t, id, p);
      ExpectedChange(c, store, store, id, p);
      MirrorsAt(c, fs, store, p);
      if p != [] && p[0] == IDString(id) {
        var q := p[1..];
        assert p == [IDString(id)] + q;
        assert IDPath(id)[1..] == [] && MetaPath(id)[1..] == ["meta.json"] && ChunksPath(id)[1..] == ["chunks"];
        assert q == [] ==> p == IDPath(id);
        assert q == ["meta.json"] ==> p == MetaPath(id);
        assert q == ["chunks"] ==> p == ChunksPath(id);
      }
    }
  }

  predicate Under(p: Path, id: SessionID) { p != [] && p[0] == IDString(id) }

  function Without(fs: Tree, id: SessionID): Tree {
    map p | p in fs && !Under(p, id) :: fs[p]
  }

  lemma DeleteMirrors(c: Codec, fs: Tree, store: Store, id: SessionID)
    requires Mirrors(c, fs, store)
    ensures Mirrors(c, Without(fs, id), store - {id})
  {
    hide IDString, Expected, Inside;
    forall p
      ensures Lookup(Without(fs, id), p) == Expected(c, store - {id}, p)
    {
      ExpectedChange(c, store, store - {id}, id, p);
      MirrorsAt(c, fs, store, p);
    }
  }

  // ----- listings

  /** A listing without repeats that names every key is as long as the key set. */
  lemma {:induction false} DistinctCount<K>(ks: seq<K>, keys: set<K>)
    requires Distinct(ks)
    requires forall k :: k in ks <==> k in keys
    ensures |ks| == |keys|
  {
    if ks == [] {
      assert keys == {};
    } else {
      var n := |ks| - 1;
      var front := ks[..n];
      assert ks == front + [ks[n]];
      assert forall k :: k in front <==> k in keys - {ks[n]};
      DistinctCount(front, keys - {ks[n]});
    }
  }

  function Indexes(names: seq<string>): (ks: seq<Option<nat>>)
    ensures |ks| == |names| && forall n :: 0 <= n < |names| ==> ks[n] == IndexOf(names[n])
  {
    seq(|names|, n requires 0 <= n < |names| => IndexOf(names[n]))
  }

  function IDs(names: seq<string>): (ks: seq<Option<SessionID>>)
    ensures |ks| == |names| && forall n :: 0 <= n < |names| ==> ks[n] == ParseSessionID(names[n])
  {
    seq(|names|, n requires 0 <= n < |names| => ParseSessionID(names[n]))
  }

  ghost function Wrapped<K>(keys: set<K>): set<Option<K>> { set k | k in keys :: Some(k) }

  lemma {:induction false} WrappedCount<K>(keys: set<K>)
    ensures |Wrapped(keys)| == |keys|
    decreases keys
  {
    if keys != {} {
      var k :| k in keys;
      WrappedCount(keys - {k});
      assert Wrapped(keys) - {Some(k)} == Wrapped(keys - {k});
    }
  }

  /** A listing whose names stand for the keys, each once. */
  lemma KeyCount<K>(ks: seq<Option<K>>, keys: set<K>)
    requires Distinct(ks)
    requires forall n :: 0 <= n < |ks| ==> ks[n].Some? && ks[n].value in keys
    requires forall k :: k in keys ==> Some(k) in ks
    ensures |ks| == |keys|
  {
    assert forall o :: o in ks <==> o in Wrapped(keys);
    DistinctCount(ks, Wrapped(keys));
    WrappedCount(keys);
  }

  lemma ChunkName(c: Codec, fs: Tree, store: Store, id: SessionID, name: string)
    requires Mirrors(c, fs, store) && id in store && ChunksPath(id) + [name] in fs
    ensures IndexOf(name).Some? && IndexOf(name).value in store[id].chunks
  {
    hide IDString, Expected, Mirrors, IndexOf;
    assert ChunksPath(id) + [name] == [IDString(id)] + ["chunks", name];
    KnownAt(c, fs, store, id, ["chunks", name]);
  }

  lemma ChunkListed(c: Codec, fs: Tree, store: Store, id: SessionID, i: nat)
    requires Mirrors(c, fs, store) && id in store && i in store[id].chunks
    ensures ChunksPath(id) + [Decimal(i)] in fs && IndexOf(Decimal(i)) == Some(i)
  {
    hide IDString, Expected, Mirrors, Decimal;
    KnownChunk(c, fs, store, id, i);
    assert ChunksPath(id) + [Decimal(i)] == ChunkPath(id, i);
    IndexOfExact(Decimal(i), i);
  }

  lemma IndexesDistinct(names: seq<string>)
    requires Distinct(names) && forall n :: 0 <= n < |names| ==> IndexOf(names[n]).Some?
    ensures Distinct(Indexes(names))
  {
    hide Decimal, ParseDecimal;
    var ks := Indexes(names);
    forall m, n | 0 <= m < n < |ks|
      ensures ks[m] != ks[n]
    {
      IndexOfExact(names[m], ks[m].value);
      IndexOfExact(names[n], ks[n].value);
    }
  }

  /** The chunk directory lists exactly the chunks, by their decimal index. */
  lemma ChunkNames(c: Codec, fs: Tree, store: Store, id: SessionID, names: seq<string>)
    requires Mirrors(c, fs, store) && id in store && Distinct(names)
    requires forall n :: n in names <==> ChunksPath(id) + [n] in fs
    ensures |names| == |store[id].chunks|
    ensures forall n :: 0 <= n < |names| ==> IndexOf(names[n]).Some? && IndexOf(names[n]).value in store[id].chunks
  {
    hide IDString, Expected, Mirrors, Decimal, IndexOf, ChunksPath;
    forall n | 0 <= n < |names|
      ensures IndexOf(names[n]).Some? && IndexOf(names[n]).value in store[id].chunks
    {
      assert names[n] in names;
      ChunkName(c, fs, store, id, names[n]);
    }
    var ks := Indexes(names);
    forall i | i in store[id].chunks.Keys
      ensures Some(i) in ks
    {
      ChunkListed(c, fs, store, id, i);
      var n :| 0 <= n < |names| && names[n] == Decimal(i);
      assert ks[n] == Some(i);
    }
    IndexesDistinct(names);
    KeyCount(ks, store[id].chunks.Keys);
  }

  lemma IDsDistinct(names: seq<string>)
    requires Distinct(names) && forall n :: 0 <= n < |names| ==> ParseSessionID(names[n]).Some?
    ensures Distinct(IDs(names))
  {
    hide ParseSessionID, IDString;
    var ks := IDs(names);
    forall m, n | 0 <= m < n < |ks|
      ensures ks[m] != ks[n]
    {
      ParseSessionIDExact(names[m], ks[m].value);
      ParseSessionIDExact(names[n], ks[n].value);
    }
  }

  lemma SessionListed(c: Codec, fs: Tree, store: Store, id: SessionID)
    requires Mirrors(c, fs, store) && id in store
    ensures [IDString(id)] in fs && ParseSessionID(IDString(id)) == Some(id)
  {
    hide ParseSessionID, IDString, Mirrors;
    Known(c, fs, store, id);
    ParseSessionIDExact(IDString(id), id);
  }

  lemma SessionName(c: Codec, fs: Tree, store: Store, name: string)
    requires Mirrors(c, fs, store) && [name] in fs
    ensures ParseSessionID(name).Some? && ParseSessionID(name).value in store
  {
    hide ParseSessionID;
    MirrorsAt(c, fs, store, [name]);
  }

  /** The root lists exactly the sessions. */
  lemma SessionNames(c: Codec, fs: Tree, store: Store, names: seq<string>)
    requires Mirrors(c, fs, store) && Distinct(names)
    requires forall n :: n in names <==> [n] in fs
    ensures |names| == |store| && Distinct(IDs(names))
    ensures forall n :: 0 <= n < |names| ==> ParseSessionID(names[n]).Some? && ParseSessionID(names[n]).value in store
  {
    hide IDString, Mirrors, ParseSessionID;
    forall n | 0 <= n < |names|
      ensures ParseSessionID(names[n]).Some? && ParseSessionID(names[n]).value in store
    {
      assert names[n] in names;
      SessionName(c, fs, store, names[n]);
    }
    var ks := IDs(names);
    forall id | id in store.Keys
      ensures Some(id) in ks
    {
      SessionListed(c, fs, store, id);
      var n :| 0 <= n < |names| && names[n] == IDString(id);
      assert ks[n] == Some(id);
    }
    IDsDistinct(names);
    KeyCount(ks, store.Keys);
  }

  lemma DropCount(store: Store, id: SessionID)
    requires id in store
    ensures |store - {id}| == |store| - 1
  {
    assert (store - {id}).Keys == store.Keys - {id};
  }

  /** Temporary names are never part of a store's tree. */
  function TempName(random: Bytes): string { ".tmp-" + HexEncode(random) }

  lemma TempAbsent(c: Codec, store: Store, dir: Path, random: Bytes)
    ensures Expected(c, store, dir + [TempName(random)]).None?
  {
    hide IDString, Decimal, HexEncode, HexDecode;
    var name := TempName(random);
    assert name[0] == '.';
    var p := dir + [name];
    if dir == [] {
      assert p[0] == name;
      assert !IsHexDigit(name[0]);
      assert ParseSessionID(name).None?;
    } else {
      assert p[1..] == dir[1..] + [name];
      assert IndexOf(name).None?;
      assert p[1..] != ["meta.json"] && p[1..] != ["chunks"] && p[1..] != ["manifest"] by {
        if |p[1..]| == 1 {
          assert p[1..][0] == name;
        }
      }
      if |p[1..]| == 2 {
        assert p[1..][1] == name;
      }
    }
  }

  lemma IndexParses(name: string)
    ensures IndexOf(name).Some? ==> ParseDecimal(name) == IndexOf(name)
  {
  }

  datatype Entry = Skipped | Live | Removed

  class DirStore {
    const codec: Codec
    var fs: Tree
    ghost var store: Store

    ghost predicate Valid()
      reads this
    {
      Faithful(codec) && Bounded(store) && Mirrors(codec, fs, store)
    }

    constructor (codec: Codec)
      requires Faithful(codec)
      ensures Valid() && store == map[]
    {
      this.codec := codec;
      fs := map[[] := Dir];
      store := map[];
    }

    /** Write a temporary file, link it to its name, remove it: the name appears with its
        whole contents or not at all, and never changes what was there. */
    method WriteOnce(dir: Path, name: string, body: Bytes, random: Bytes) returns (r: Answer)
      requires dir + [TempName(random)] !in fs && name != TempName(random)
      modifies this`fs
      ensures r == if dir !in fs then NotFound else if dir + [name] in old(fs) then Exists else Done
      ensures fs == if r == Done then old(fs)[dir + [name] := File(body)] else old(fs)
    {
      var tmp, path := dir + [TempName(random)], dir + [name];
      if dir !in fs {
        return NotFound;
      }
      assert path[|dir|] != tmp[|dir|];
      fs := fs[tmp := File(body)];
      if path in fs {
        r := Exists;
      } else {
        fs := fs[path := fs[tmp]];
        r := Done;
      }
      fs := fs - {tmp};
    }

    method ReadMeta(id: SessionID) returns (r: Option<Meta>)
      requires Valid()
      ensures r == if id in store then Some(store[id].meta) else None
    {
      Known(codec, fs, store, id);
      if MetaPath(id) !in fs {
        return None;
      }
      r := codec.unmarshal(fs[MetaPath(id)].body);
    }

    method Create(id: SessionID, meta: Meta, random: Bytes) returns (r: Answer)
      requires Valid()
      modifies this
      ensures Valid() && store == After(old(store), Op.Create(id, meta)) && r == Reply(old(store), Op.Create(id, meta))
    {
      hide Mirrors, IDString, Expected, HexEncode;
      Known(codec, fs, store, id);
      if IDPath(id) in fs {
        return Exists;
      }
      MirrorsAt(codec, fs, store, IDPath(id) + [TempName(random)]);
      TempAbsent(codec, store, IDPath(id), random);
      CreateMirrors(codec, fs, store, id, meta);
      fs := fs[IDPath(id) := Dir];
      assert IDPath(id) + ["meta.json"] == MetaPath(id);
      assert TempName(random)[0] == '.';
      r := WriteOnce(IDPath(id), "meta.json", codec.marshal(meta), random);
      fs := fs[ChunksPath(id) := Dir];
      store := store[id := Session(meta, map[], None)];
    }

    /** The names in a directory, in whatever order the file system lists them. */
    method ReadDir(dir: Path) returns (names: seq<string>)
      ensures Distinct(names) && forall n :: n in names <==> dir + [n] in fs
    {
      var rest := set p | p in fs && |p| == |dir| + 1 && p[..|dir|] == dir :: p[|dir|];
      names := [];
      assert forall n :: n in rest <==> dir + [n] in fs by {
        forall n | dir + [n] in fs
          ensures n in rest
        {
          assert (dir + [n])[..|dir|] == dir && (dir + [n])[|dir|] == n;
        }
        forall p | p in fs && |p| == |dir| + 1 && p[..|dir|] == dir
          ensures dir + [p[|dir|]] in fs
        {
          assert p == dir + [p[|dir|]];
        }
      }
      while rest != {}
        invariant Distinct(names) && forall n :: n in names ==> n !in rest
        invariant forall n :: n in names || n in rest <==> dir + [n] in fs
        decreases rest
      {
        var n :| n in rest;
        rest := rest - {n};
        names := names + [n];
      }
    }

    /** The number of chunks is counted by listing their directory. */
    method Describe(id: SessionID) returns (r: Answer)
      requires Valid()
      ensures r == Reply(store, Op.Describe(id))
    {
      hide Mirrors, IDString, Expected, ParseDecimal;
      var meta := ReadMeta(id);
      if meta.None? {
        return NotFound;
      }
      Known(codec, fs, store, id);
      var names := ReadDir(ChunksPath(id));
      ChunkNames(codec, fs, store, id, names);
      var stored: nat := 0;
      for k := 0 to |names|
        invariant stored == k
      {
        var index := ParseDecimal(names[k]);
        IndexParses(names[k]);
        if index.Some? && index.value < meta.value.chunkCount {
          stored := stored + 1;
        }
      }
      return Info(meta.value, stored, ManifestPath(id) in fs);
    }

    method PutChunk(id: SessionID, index: nat, body: Bytes, random: Bytes) returns (r: Answer)
      requires Valid()
      modifies this
      ensures Valid() && store == After(old(store), Op.PutChunk(id, index, body)) && r == Reply(old(store), Op.PutChunk(id, index, body))
    {
      hide Mirrors, IDString, Expected, HexEncode, Decimal, Inside;
      var meta := ReadMeta(id);
      if meta.None? || index >= meta.value.chunkCount {
        return NotFound;
      }
      Known(codec, fs, store, id);
      KnownChunk(codec, fs, store, id, index);
      MirrorsAt(codec, fs, store, ChunksPath(id) + [TempName(random)]);
      TempAbsent(codec, store, ChunksPath(id), random);
      assert ChunksPath(id) + [Decimal(index)] == ChunkPath(id, index);
      assert TempName(random)[0] == '.' && Decimal(index)[0] != '.';
      ghost var t := After(store, Op.PutChunk(id, index, body));
      if index !in store[id].chunks {
        ChunkInside(codec, store[id], index, body);
        WriteMirrors(codec, fs, store, t, id, ["chunks", Decimal(index)], File(body));
        assert [IDString(id)] + ["chunks", Decimal(index)] == ChunkPath(id, index);
      }
      r := WriteOnce(ChunksPath(id), Decimal(index), body, random);
      store := t;
    }

    method GetChunk(id: SessionID, index: nat) returns (r: Answer)
      requires Valid()
      ensures r == Reply(store, Op.GetChunk(id, index))
    {
      hide Mirrors, IDString, Expected, Decimal;
      var meta := ReadMeta(id);
      if meta.None? || index >= meta.value.chunkCount {
        return NotFound;
      }
      KnownChunk(codec, fs, store, id, index);
      if ChunkPath(id, index) !in fs {
        return NotFound;
      }
      return Body(fs[ChunkPath(id, index)].body);
    }

    method PutManifest(id: SessionID, body: Bytes, random: Bytes) returns (r: Answer)
      requires Valid()
      modifies this
      ensures Valid() && store == After(old(store), Op.PutManifest(id, body)) && r == Reply(old(store), Op.PutManifest(id, body))
    {
      hide Mirrors, IDString, Expected, HexEncode, Inside;
      var meta := ReadMeta(id);
      if meta.None? {
        return NotFound;
      }
      Known(codec, fs, store, id);
      MirrorsAt(codec, fs, store, IDPath(id) + [TempName(random)]);
      TempAbsent(codec, store, IDPath(id), random);
      assert IDPath(id) + ["manifest"] == ManifestPath(id) == [IDString(id)] + ["manifest"];
      assert TempName(random)[0] == '.';
      ghost var t := After(store, Op.PutManifest(id, body));
      if store[id].manifest.None? {
        ManifestInside(codec, store[id], body);
        WriteMirrors(codec, fs, store, t, id, ["manifest"], File(body));
      }
      r := WriteOnce(IDPath(id), "manifest", body, random);
      store := t;
    }

    method GetManifest(id: SessionID) returns (r: Answer)
      requires Valid()
      ensures r == Reply(store, Op.GetManifest(id))
    {
      hide Mirrors, IDString, Expected;
      var meta := ReadMeta(id);
      if meta.None? {
        return NotFound;
      }
      Known(codec, fs, store, id);
      if ManifestPath(id) !in fs {
        return NotFound;
      }
      return Body(fs[ManifestPath(id)].body);
    }

    method RemoveAll(id: SessionID)
      requires Valid()
      modifies this
      ensures Valid() && store == old(store) - {id} && fs == Without(old(fs), id)
    {
      DeleteMirrors(codec, fs, store, id);
      fs := Without(fs, id);
      store := store - {id};
    }

    method Delete(id: SessionID) returns (r: Answer)
      requires Valid()
      modifies this
      ensures Valid() && store == After(old(store), Op.Delete(id)) && r == Reply(old(store), Op.Delete(id))
    {
      hide Mirrors, IDString, Expected;
      Known(codec, fs, store, id);
      if IDPath(id) !in fs {
        return NotFound;
      }
      RemoveAll(id);
      return Done;
    }

    /** One entry of the root: skip what names no session, keep it or remove it. */
    method SweepEntry(name: string, now: int) returns (e: Entry)
      requires Valid()
      modifies this
      ensures Valid()
      ensures e == match ParseSessionID(name)
                   case None => Skipped
                   case Some(id) =>
                     if id !in old(store) then Skipped
                     else if now < old(store)[id].meta.expiresAt then Live
                     else Removed
      ensures store == if e == Removed then old(store) - {ParseSessionID(name).value} else old(store)
    {
      hide Mirrors, Bounded, Faithful, Without, ParseSessionID;
      var parsed := ParseSessionID(name);
      if parsed.None? {
        return Skipped;
      }
      var meta := ReadMeta(parsed.value);
      if meta.None? {
        return Skipped;
      }
      if now < meta.value.expiresAt {
        return Live;
      }
      RemoveAll(parsed.value);
      return Removed;
    }

    /** Lists the root and removes what has expired. It also reports how many sessions it
        removed and how many are left. */
    method Sweep(now: int) returns (deleted: nat, live: nat)
      requires Valid()
      modifies this
      ensures Valid() && store == After(old(store), Op.Sweep(now))
      ensures live == |store| && deleted == |old(store)| - |store|
    {
      hide Mirrors, IDString, Expected, ParseSessionID, Swept, After, Reply, Bounded, Faithful, Without;
      var root: Path := [];
      assert forall n: string :: root + [n] == [n];
      var names := ReadDir(root);
      SessionNames(codec, fs, store, names);
      ghost var before := store;
      ghost var rest := store.Keys;
      SweptStart(store, now);
      deleted, live := 0, 0;
      for k := 0 to |names|
        invariant Valid() && rest <= store.Keys
        invariant Swept(before, store, now, rest)
        invariant forall n :: k <= n < |names| ==> ParseSessionID(names[n]).value in rest
        invariant |rest| == |names| - k && deleted + live == k && |store| == |names| - deleted
      {
        ghost var id := ParseSessionID(names[k]).value;
        assert forall n :: k < n < |names| ==> IDs(names)[n] != IDs(names)[k];
        SweptEither(before, store, now, rest, id);
        rest := rest - {id};
        DropCount(store, id);
        var e := SweepEntry(names[k], now);
        match e
        case Skipped =>
        case Live => live := live + 1;
        case Removed => deleted := deleted + 1;
      }
      SweptAll(before, store, now);
    }

    method Call(op: Op, random: Bytes) returns (r: Answer)
      requires Valid()
      modifies this
      ensures Valid() && store == After(old(store), op) && r == Reply(old(store), op)
    {
      hide Mirrors;
      match op
      case Create(id, meta) => r := Create(id, meta, random);
      case Describe(id) => r := Describe(id);
      case PutChunk(id, index, body) => r := PutChunk(id, index, body, random);
      case GetChunk(id, index) => r := GetChunk(id, index);
      case PutManifest(id, body) => r := PutManifest(id, body, random);
      case GetManifest(id) => r := GetManifest(id);
      case Delete(id) => r := Delete(id);
      case Sweep(now) => var _, _ := Sweep(now); r := Done;
    }
  }
}

module StoresAgree {
  import opened Base
  import opened StoreSpec
  import MemoryStores
  import DirStores

  /** Any sequence of calls and sweeps gets the same answers from both stores. */
  method RunBoth(ops: seq<Op>, codec: DirStores.Codec, random: nat -> Bytes) returns (a: seq<Answer>, b: seq<Answer>)
    requires DirStores.Faithful(codec)
    ensures a == b == Answers(ops)
  {
    hide Reply, After, DirStores.Mirrors, MemoryStores.Matches;
    var memory := new MemoryStores.MemoryStore();
    var dir := new DirStores.DirStore(codec);
    a, b := [], [];
    for k := 0 to |ops|
      invariant memory.Valid() && memory.store == Run(ops[..k])
      invariant dir.Valid() && dir.store == Run(ops[..k])
      invariant a == b == Answers(ops[..k])
      modifies memory, dir
    {
      assert ops[..k + 1][..k] == ops[..k];
      var x := memory.Call(ops[k]);
      var y := dir.Call(ops[k], random(k));
      a, b := a + [x], b + [y];
    }
    assert ops[..|ops|] == ops;
  }
}

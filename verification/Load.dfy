/** Loading an artifact: the manifest is opened and validated, four workers fetch, check and
    copy the chunks in any interleaving, and the plaintext is cut back into lines. */
module Load {
  import opened Base
  import opened Blobs
  import Envelopes
  import Collect
  import L = Lines

  const WORKERS := 4

  datatype Error = ErrNotFound | ErrFetch | ErrIntegrity | ErrSize | ErrAuth | ErrManifest | ErrCancelled

  // ----- what the relay may answer

  datatype Reply = Got(bytes: Bytes) | NotFound | Failed
  datatype InfoReply = Info(count: Count) | InfoNotFound | InfoFailed

  /** The loader's view of the world: what was sealed under the artifact's keys. */
  datatype Env = Env(log: seq<Box>, digest: Collect.Hash, unmarshal: Bytes -> Option<Manifest>)

  // ----- before the workers

  datatype Head = Go(m: Manifest) | Stop(error: Error)

  function Start(env: Env, info: InfoReply, reply: Reply): (h: Head)
    ensures h.Go? ==> h.m.totalBytes > 0
  {
    match info
    case InfoNotFound => Stop(ErrNotFound)
    case InfoFailed => Stop(ErrFetch)
    case Info(count) =>
      match reply
      case NotFound => Stop(ErrNotFound)
      case Failed => Stop(ErrFetch)
      case Got(cipher) =>
        match OpenManifest(env.log, count, cipher)
        case BadSize => Stop(ErrSize)
        case BadAuth => Stop(ErrAuth)
        case Plain(text) =>
          match env.unmarshal(text)
          case None => Stop(ErrIntegrity)
          case Some(m) =>
            if !ValidManifest(m) then Stop(ErrManifest)
            else if m.chunkCount != count then Stop(ErrIntegrity)
            else Go(m)
  }

  // ----- the workers

  datatype Worker = Idle | Received(i: nat) | Fetching(i: nat) | Copying(i: nat, chunk: Bytes) | Ended

  datatype State = State(queue: seq<nat>, workers: seq<Worker>, plain: Bytes, done: set<nat>,
                         error: Option<Error>, cancelled: bool)

  /** Steps of worker w: receive an index, look at the context, get an answer and check
      it, copy. The caller may cancel at any time. */
  datatype Step = Receive(w: nat) | Look(w: nat) | Answer(w: nat, reply: Reply) | Copy(w: nat) | Cancel

  function Range(a: nat, b: nat): (r: seq<nat>)
    requires a <= b
    ensures |r| == b - a && forall k :: 0 <= k < |r| ==> r[k] == a + k
    decreases b - a
  {
    if a == b then [] else [a] + Range(a + 1, b)
  }

  function Init(m: Manifest): State
    requires m.totalBytes >= 0
  {
    State(Range(0, m.chunkCount), seq(WORKERS, _ => Idle), seq(m.totalBytes, _ => 0), {}, None, false)
  }

  datatype Checked = Accepted(chunk: Bytes) | Refused(error: Error)

  /** Length the loader expects of chunk i. */
  function Expected(total: int, i: nat): int {
    var left := total - i * CHUNK_SIZE;
    if left < CHUNK_SIZE then left else CHUNK_SIZE
  }

  function Check(env: Env, m: Manifest, i: nat, reply: Reply): Checked {
    match reply
    case NotFound => Refused(ErrNotFound)
    case Failed => Refused(ErrFetch)
    case Got(cipher) =>
      if i >= |m.hashes| || HexEncode(env.digest(cipher)) != m.hashes[i] then Refused(ErrIntegrity)
      else match OpenChunk(env.log, i, m.chunkCount, cipher)
        case BadSize => Refused(ErrSize)
        case BadAuth => Refused(ErrAuth)
        case Plain(chunk) => if |chunk| != Expected(m.totalBytes, i) then Refused(ErrIntegrity) else Accepted(chunk)
  }

  function CopyAt(plain: Bytes, start: nat, chunk: Bytes): (r: Bytes)
    ensures |r| == |plain|
  {
    if start + |chunk| <= |plain| then plain[..start] + chunk + plain[start + |chunk|..] else plain
  }

  /** Worker w fails: only the first error is kept, and everybody is told to stop. */
  function Fail(s: State, w: nat, e: Error): State
    requires w < |s.workers|
  {
    s.(workers := s.workers[w := Ended], error := if s.error.Some? then s.error else Some(e), cancelled := true)
  }

  function Apply(env: Env, m: Manifest, s: State, step: Step): State {
    match step
    case Receive(w) =>
      if w >= |s.workers| || !s.workers[w].Idle? then s
      else if s.queue == [] then s.(workers := s.workers[w := Ended])
      else s.(workers := s.workers[w := Received(s.queue[0])], queue := s.queue[1..])
    case Look(w) =>
      if w >= |s.workers| || !s.workers[w].Received? then s
      else if s.cancelled then s.(workers := s.workers[w := Ended])
      else s.(workers := s.workers[w := Fetching(s.workers[w].i)])
    case Answer(w, reply) =>
      if w >= |s.workers| || !s.workers[w].Fetching? then s
      else
        var i := s.workers[w].i;
        (match Check(env, m, i, reply)
         case Refused(e) => Fail(s, w, e)
         case Accepted(chunk) => s.(workers := s.workers[w := Copying(i, chunk)]))
    case Copy(w) =>
      if w >= |s.workers| || !s.workers[w].Copying? then s
      else
        var i := s.workers[w].i;
        s.(workers := s.workers[w := Idle], plain := CopyAt(s.plain, i * CHUNK_SIZE, s.workers[w].chunk), done := s.done + {i})
    case Cancel => s.(cancelled := true)
  }

  function Exec(env: Env, m: Manifest, steps: seq<Step>): State
    requires m.totalBytes >= 0
  {
    if steps == [] then Init(m) else Apply(env, m, Exec(env, m, steps[..|steps| - 1]), steps[|steps| - 1])
  }

  // ----- the end

  datatype Source = Source(meta: ManifestSource, lines: seq<Bytes>)
  datatype Outcome = Running | Loaded(sources: seq<Source>) | Err(error: Error)

  function Repaired(lines: seq<Bytes>, repair: Bytes -> Bytes): (r: seq<Bytes>)
    ensures |r| == |lines| && forall i :: 0 <= i < |lines| ==> r[i] == repair(lines[i])
  {
    seq(|lines|, i requires 0 <= i < |lines| => repair(lines[i]))
  }

  predicate InRange(plain: Bytes, meta: ManifestSource) {
    0 <= meta.offset <= meta.offset + meta.bytes <= |plain|
  }

  function Slice(plain: Bytes, meta: ManifestSource): Bytes
    requires InRange(plain, meta)
  {
    plain[meta.offset..meta.offset + meta.bytes]
  }

  /** The sources of a plaintext: the lines of each range, if each has as many as recorded. */
  function Cut(metas: seq<ManifestSource>, plain: Bytes, repair: Bytes -> Bytes): Option<seq<Source>>
    requires forall k :: 0 <= k < |metas| ==> InRange(plain, metas[k])
  {
    if metas == [] then Some([])
    else
      var front, last := metas[..|metas| - 1], metas[|metas| - 1];
      var lines := L.LinesOf(Slice(plain, last));
      match Cut(front, plain, repair)
      case None => None
      case Some(sources) => if |lines| == last.lines then Some(sources + [Source(last, Repaired(lines, repair))]) else None
  }

  lemma ValidInRange(m: Manifest, k: nat)
    requires ValidManifest(m) && k < |m.sources|
    ensures 0 <= m.sources[k].offset <= m.sources[k].offset + m.sources[k].bytes <= m.totalBytes
  {
    assert m.sources[..|m.sources|] == m.sources;
    ExtentStep(m.sources, k);
    ExtentGrows(m.sources, k, k);
    ExtentGrows(m.sources, k + 1, |m.sources|);
  }

  lemma AllInRange(m: Manifest, plain: Bytes)
    requires ValidManifest(m) && |plain| == m.totalBytes
    ensures forall k :: 0 <= k < |m.sources| ==> InRange(plain, m.sources[k])
  {
    forall k | 0 <= k < |m.sources|
      ensures InRange(plain, m.sources[k])
    {
      ValidInRange(m, k);
    }
  }

  function Rebuilt(m: Manifest, plain: Bytes, repair: Bytes -> Bytes): Outcome {
    if !ValidManifest(m) then Err(ErrManifest)
    else if |plain| != m.totalBytes then Err(ErrIntegrity)
    else
      AllInRange(m, plain);
      match Cut(m.sources, plain, repair)
      case None => Err(ErrIntegrity)
      case Some(sources) => Loaded(sources)
  }

  /** One source: split its range at the newlines, drop the empty piece after the last
      one, compare the count and repair the text. */
  method CutSource(meta: ManifestSource, plain: Bytes, repair: Bytes -> Bytes) returns (r: Option<Source>)
    requires InRange(plain, meta)
    ensures var lines := L.LinesOf(Slice(plain, meta));
            r == if |lines| == meta.lines then Some(Source(meta, Repaired(lines, repair))) else None
  {
    hide *;
    var text := Slice(plain, meta);
    var lines := L.Split(text);
    if lines[|lines| - 1] == [] {
      lines := lines[..|lines| - 1];
    }
    PiecesAreLines(text);
    if |lines| != meta.lines {
      return None;
    }
    var fixed: seq<Bytes> := [];
    for i := 0 to |lines|
      invariant |fixed| == i && forall k :: 0 <= k < i ==> fixed[k] == repair(lines[k])
    {
      fixed := fixed + [repair(lines[i])];
    }
    assert fixed == Repaired(lines, repair);
    return Some(Source(meta, fixed));
  }

  lemma CutStep(metas: seq<ManifestSource>, plain: Bytes, repair: Bytes -> Bytes, k: nat)
    requires k < |metas| && forall k :: 0 <= k < |metas| ==> InRange(plain, metas[k])
    ensures var lines := L.LinesOf(Slice(plain, metas[k]));
            Cut(metas[..k + 1], plain, repair) ==
            match Cut(metas[..k], plain, repair)
            case None => None
            case Some(sources) =>
              if |lines| == metas[k].lines then Some(sources + [Source(metas[k], Repaired(lines, repair))]) else None
  {
    hide L.LinesOf;
    Collect.Front(metas, k);
  }

  /** FromPlaintext: a valid manifest, the right length, and every source cut. */
  method FromPlaintext(m: Manifest, plain: Bytes, repair: Bytes -> Bytes) returns (r: Outcome)
    ensures r == Rebuilt(m, plain, repair)
  {
    hide L.LinesOf, Cut, ValidManifest, InRange;
    var ok := Validate(m);
    if !ok {
      return Err(ErrManifest);
    }
    if |plain| != m.totalBytes {
      return Err(ErrIntegrity);
    }
    AllInRange(m, plain);
    var sources: seq<Source> := [];
    CutNone(plain, repair);
    assert m.sources[..|m.sources|] == m.sources;
    for k := 0 to |m.sources|
      invariant Cut(m.sources[..k], plain, repair) == Some(sources)
    {
      var cut := CutSource(m.sources[k], plain, repair);
      CutStep(m.sources, plain, repair, k);
      if cut.None? {
        CutFails(m.sources, plain, repair, k);
        return Err(ErrIntegrity);
      }
      sources := sources + [cut.value];
    }
    return Loaded(sources);
  }

  lemma CutNone(plain: Bytes, repair: Bytes -> Bytes)
    ensures Cut([], plain, repair) == Some([])
  {
  }

  lemma PiecesAreLines(text: Bytes)
    ensures var s := L.Split(text);
            L.LinesOf(text) == if s[|s| - 1] == [] then s[..|s| - 1] else s
  {
    hide L.LinesOf;
    L.SplitLinesIsLines(text);
  }

  lemma {:induction false} CutFails(metas: seq<ManifestSource>, plain: Bytes, repair: Bytes -> Bytes, k: nat)
    requires k < |metas| && forall k :: 0 <= k < |metas| ==> InRange(plain, metas[k])
    requires Cut(metas[..k + 1], plain, repair).None?
    ensures Cut(metas, plain, repair).None?
  {
    hide L.LinesOf;
    if k + 1 < |metas| {
      var front := metas[..|metas| - 1];
      assert front[..k + 1] == metas[..k + 1];
      CutFails(front, plain, repair, k);
    } else {
      assert metas[..k + 1] == metas;
    }
  }

  predicate AllEnded(s: State) { forall w :: 0 <= w < |s.workers| ==> s.workers[w].Ended? }

  function Finish(m: Manifest, s: State, repair: Bytes -> Bytes): Outcome {
    if !AllEnded(s) then Running
    else if s.error.Some? then Err(s.error.value)
    else if s.cancelled then Err(ErrCancelled)
    else Rebuilt(m, s.plain, repair)
  }

  function Run(env: Env, info: InfoReply, reply: Reply, steps: seq<Step>, repair: Bytes -> Bytes): Outcome {
    match Start(env, info, reply)
    case Stop(e) => Err(e)
    case Go(m) => Finish(m, Exec(env, m, steps), repair)
  }

  // ----- what every interleaving keeps

  function Held(w: Worker): Option<nat> {
    match w
    case Received(i) => Some(i)
    case Fetching(i) => Some(i)
    case Copying(i, _) => Some(i)
    case _ => None
  }

  predicate Holds(s: State, w: nat, i: nat)
  {
    w < |s.workers| && Held(s.workers[w]) == Some(i)
  }

  /** Under the chunk key, index i opens to chunk i of `full` and to nothing else. */
  ghost predicate OnlyOpens(env: Env, m: Manifest, full: Bytes) {
    && |full| == m.totalBytes && Collect.Sized(full, m.chunkCount) && |m.hashes| == m.chunkCount
    && forall i: nat, reply :: i < m.chunkCount && Check(env, m, i, reply).Accepted? ==>
         IsChunk(full, i, Check(env, m, i, reply).chunk)
  }

  predicate IsChunk(full: Bytes, i: nat, chunk: Bytes) {
    i * CHUNK_SIZE < |full| && chunk == Chunk(full, i)
  }

  /** The stretch of `plain` where chunk i belongs holds it. */
  predicate Placed(full: Bytes, plain: Bytes, i: nat) {
    |plain| == |full| && i * CHUNK_SIZE < |full| && Chunk(plain, i) == Chunk(full, i)
  }

  /** Indexes are handed out in order, each to one worker. */
  ghost predicate Owned(m: Manifest, s: State) {
    && |s.queue| <= m.chunkCount && s.queue == Range(m.chunkCount - |s.queue|, m.chunkCount)
    && (forall w: nat, i: nat :: Holds(s, w, i) ==> i < m.chunkCount - |s.queue| && i !in s.done)
    && (forall v: nat, w: nat, i: nat :: Holds(s, v, i) && Holds(s, w, i) ==> v == w)
    && (forall i :: i in s.done ==> i < m.chunkCount - |s.queue|)
  }

  /** While nobody cancels, no index is lost and nobody ends before the queue is empty. */
  ghost predicate Complete(m: Manifest, s: State) {
    !s.cancelled ==>
      && (forall i: nat :: i < m.chunkCount - |s.queue| && i !in s.done ==> exists w: nat :: Holds(s, w, i))
      && ((exists w :: 0 <= w < |s.workers| && s.workers[w].Ended?) ==> s.queue == [])
  }

  ghost predicate Written(full: Bytes, s: State) {
    && |s.plain| == |full|
    && (forall w :: 0 <= w < |s.workers| && s.workers[w].Copying? ==> IsChunk(full, s.workers[w].i, s.workers[w].chunk))
    && (forall i :: i in s.done ==> Placed(full, s.plain, i))
  }

  ghost predicate Inv(m: Manifest, full: Bytes, s: State) {
    && |s.workers| == WORKERS
    && (s.error.Some? ==> s.cancelled)
    && Owned(m, s) && Complete(m, s) && Written(full, s)
  }

  /** Copying one chunk leaves the other stretches alone. */
  lemma CopyPlaces(full: Bytes, plain: Bytes, i: nat, chunk: Bytes)
    requires |plain| == |full| && IsChunk(full, i, chunk)
    ensures Placed(full, CopyAt(plain, i * CHUNK_SIZE, chunk), i)
    ensures forall j: nat :: Placed(full, plain, j) ==> Placed(full, CopyAt(plain, i * CHUNK_SIZE, chunk), j)
  {
    var start := i * CHUNK_SIZE;
    var after := CopyAt(plain, start, chunk);
    assert after == plain[..start] + chunk + plain[start + |chunk|..];
    assert Chunk(after, i) == chunk;
    forall j: nat | Placed(full, plain, j)
      ensures Placed(full, after, j)
    {
      CopySpares(full, plain, i, chunk, j);
    }
  }

  lemma CopySpares(full: Bytes, plain: Bytes, i: nat, chunk: Bytes, j: nat)
    requires |plain| == |full| && IsChunk(full, i, chunk) && Placed(full, plain, j)
    ensures Placed(full, CopyAt(plain, i * CHUNK_SIZE, chunk), j)
  {
    var start := i * CHUNK_SIZE;
    var after := CopyAt(plain, start, chunk);
    var a, b := j * CHUNK_SIZE, ChunkEnd(|full|, j);
    assert start + |chunk| == ChunkEnd(|full|, i);
    if j == i {
      assert after[a..b] == chunk;
    } else {
      assert b <= start || a >= start + |chunk|;
      assert forall p :: a <= p < b ==> after[p] == plain[p];
      assert after[a..b] == plain[a..b];
    }
  }

  lemma {:induction false} InitKeeps(m: Manifest, full: Bytes)
    requires m.totalBytes == |full|
    ensures Inv(m, full, Init(m))
  {
  }

  lemma ReceiveKeeps(env: Env, m: Manifest, full: Bytes, s: State, w: nat)
    requires Inv(m, full, s)
    ensures Inv(m, full, Apply(env, m, s, Receive(w)))
  {
    hide Placed, IsChunk, Check, Range;
    var t := Apply(env, m, s, Receive(w));
    if w < |s.workers| && s.workers[w].Idle? && s.queue != [] {
      RangeTail(m.chunkCount - |s.queue|, m.chunkCount);
      assert forall v: nat, i: nat :: v != w ==> (Holds(t, v, i) <==> Holds(s, v, i));
      assert Holds(t, w, s.queue[0]);
    } else {
      assert forall v: nat, i: nat :: Holds(t, v, i) <==> Holds(s, v, i);
    }
  }

  lemma RangeTail(a: nat, b: nat)
    requires a < b
    ensures Range(a, b)[0] == a && Range(a, b)[1..] == Range(a + 1, b)
  {
  }

  lemma LookKeeps(env: Env, m: Manifest, full: Bytes, s: State, w: nat)
    requires Inv(m, full, s)
    ensures Inv(m, full, Apply(env, m, s, Look(w)))
  {
    hide Placed, IsChunk, Check, Range;
    var t := Apply(env, m, s, Look(w));
    if s.cancelled {
      assert forall v: nat, i: nat :: Holds(t, v, i) ==> Holds(s, v, i);
    } else {
      assert forall v: nat, i: nat :: Holds(t, v, i) <==> Holds(s, v, i);
    }
  }

  lemma AnswerKeeps(env: Env, m: Manifest, full: Bytes, s: State, w: nat, reply: Reply)
    requires Inv(m, full, s) && OnlyOpens(env, m, full)
    ensures Inv(m, full, Apply(env, m, s, Answer(w, reply)))
  {
    hide Placed, IsChunk, Check, Range, Collect.Sized;
    var t := Apply(env, m, s, Answer(w, reply));
    if w < |s.workers| && s.workers[w].Fetching? {
      var i := s.workers[w].i;
      assert Holds(s, w, i);
      if Check(env, m, i, reply).Accepted? {
        assert forall v: nat, i: nat :: Holds(t, v, i) <==> Holds(s, v, i);
      } else {
        assert forall v: nat, i: nat :: Holds(t, v, i) ==> Holds(s, v, i);
      }
    }
  }

  lemma CopyKeeps(env: Env, m: Manifest, full: Bytes, s: State, w: nat)
    requires Inv(m, full, s)
    ensures Inv(m, full, Apply(env, m, s, Copy(w)))
  {
    hide Placed, IsChunk, Check, Range, CopyAt;
    var t := Apply(env, m, s, Copy(w));
    if w < |s.workers| && s.workers[w].Copying? {
      var i := s.workers[w].i;
      assert Holds(s, w, i);
      CopyPlaces(full, s.plain, i, s.workers[w].chunk);
      assert forall v: nat, j: nat :: Holds(t, v, j) <==> Holds(s, v, j) && v != w;
    }
  }

  lemma ApplyKeeps(env: Env, m: Manifest, full: Bytes, s: State, step: Step)
    requires Inv(m, full, s) && OnlyOpens(env, m, full)
    ensures Inv(m, full, Apply(env, m, s, step))
  {
    hide *;
    match step
    case Receive(w) => ReceiveKeeps(env, m, full, s, w);
    case Look(w) => LookKeeps(env, m, full, s, w);
    case Answer(w, reply) => AnswerKeeps(env, m, full, s, w, reply);
    case Copy(w) => CopyKeeps(env, m, full, s, w);
    case Cancel => CancelKeeps(env, m, full, s);
  }

  lemma CancelKeeps(env: Env, m: Manifest, full: Bytes, s: State)
    requires Inv(m, full, s)
    ensures Inv(m, full, Apply(env, m, s, Cancel))
  {
    hide Placed, IsChunk, Check, Range;
    var t := Apply(env, m, s, Cancel);
    assert forall v: nat, i: nat :: Holds(t, v, i) <==> Holds(s, v, i);
  }

  lemma {:induction false} ReachableInv(env: Env, m: Manifest, full: Bytes, steps: seq<Step>)
    requires OnlyOpens(env, m, full)
    ensures Inv(m, full, Exec(env, m, steps))
  {
    if steps == [] {
      InitKeeps(m, full);
    } else {
      ReachableInv(env, m, full, steps[..|steps| - 1]);
      ApplyKeeps(env, m, full, Exec(env, m, steps[..|steps| - 1]), steps[|steps| - 1]);
    }
  }

  lemma AllPlaced(full: Bytes, plain: Bytes, count: Count)
    requires Collect.Sized(full, count) && |plain| == |full|
    requires forall i: nat :: i < count ==> Placed(full, plain, i)
    ensures plain == full
  {
    forall p | 0 <= p < |full|
      ensures plain[p] == full[p]
    {
      var i := p / CHUNK_SIZE;
      assert Placed(full, plain, i);
      assert Chunk(plain, i)[p - i * CHUNK_SIZE] == plain[p];
      assert Chunk(full, i)[p - i * CHUNK_SIZE] == full[p];
    }
  }

  /** No two workers ever write the same stretch: a chunk being copied belongs to one
      worker and to no finished copy. */
  lemma CopiesDisjoint(env: Env, m: Manifest, full: Bytes, steps: seq<Step>, v: nat, w: nat)
    requires OnlyOpens(env, m, full)
    requires var s := Exec(env, m, steps); v < w < |s.workers| && s.workers[v].Copying? && s.workers[w].Copying?
    ensures var s := Exec(env, m, steps); s.workers[v].i != s.workers[w].i && s.workers[v].i !in s.done
  {
    ReachableInv(env, m, full, steps);
    var s := Exec(env, m, steps);
    assert Holds(s, v, s.workers[v].i) && Holds(s, w, s.workers[w].i);
  }

  /** For every interleaving: when all workers have ended without an error or a cancel,
      the buffer is the whole plaintext. */
  lemma WorkersRebuild(env: Env, m: Manifest, full: Bytes, steps: seq<Step>)
    requires OnlyOpens(env, m, full)
    ensures var s := Exec(env, m, steps); AllEnded(s) && !s.cancelled ==> s.error.None? && s.plain == full
  {
    hide Exec, Placed, IsChunk, Check, Range;
    ReachableInv(env, m, full, steps);
    var s := Exec(env, m, steps);
    if AllEnded(s) && !s.cancelled {
      assert s.workers[0].Ended?;
      assert s.queue == [];
      forall i: nat | i < m.chunkCount
        ensures Placed(full, s.plain, i)
      {
        assert forall w: nat :: !Holds(s, w, i);
        assert i in s.done;
      }
      AllPlaced(full, s.plain, m.chunkCount);
    }
  }

  // ----- an upload and its loads

  lemma BoxIn(j: Collect.Job, log: seq<Box>, b: Box) returns (k: nat)
    requires Collect.JobOk(j) && log <= Collect.SealedLog(j) && b in log
    ensures k < |Collect.SealedLog(j)| && Collect.SealedLog(j)[k] == b
  {
    hide Collect.SealedLog;
    k :| 0 <= k < |log| && log[k] == b;
  }

  /** What opens under the chunk key at index i is chunk i. */
  lemma OpensOwnChunk(j: Collect.Job, log: seq<Box>, i: nat, count: Count, cipher: Bytes)
    requires Collect.JobOk(j) && log <= Collect.SealedLog(j)
    requires OpenChunk(log, i, count, cipher).Plain?
    ensures IsChunk(j.plain, i, OpenChunk(log, i, count, cipher).plain)
  {
    hide Unseal, AD, Envelopes.Nonce, Chunk, IsChunk;
    var p := OpenChunk(log, i, count, cipher).plain;
    UnsealIsMember(log, ChunkKey, Envelopes.Nonce(i), AD(i, count), cipher);
    var k := BoxIn(j, log, Box(ChunkKey, Envelopes.Nonce(i), AD(i, count), p, cipher));
    Collect.ChunkInRange(j.plain, j.bare.chunkCount, k);
    Envelopes.NonceInjective(k, i);
    MakeIsChunk(j.plain, i, p);
  }

  lemma MakeIsChunk(full: Bytes, i: nat, chunk: Bytes)
    requires i * CHUNK_SIZE < |full| && chunk == Chunk(full, i)
    ensures IsChunk(full, i, chunk)
  {
  }

  lemma SealedOnlyOpens(j: Collect.Job, env: Env)
    requires Collect.JobOk(j) && env.log <= Collect.SealedLog(j) && j.bare.totalBytes == |j.plain|
    ensures OnlyOpens(env, Collect.Final(j), j.plain)
  {
    hide Collect.SealedLog, IsChunk, OpenChunk, HexEncode, Collect.Hashes;
    var m := Collect.Final(j);
    forall i: nat, reply | i < m.chunkCount && Check(env, m, i, reply).Accepted?
      ensures IsChunk(j.plain, i, Check(env, m, i, reply).chunk)
    {
      OpensOwnChunk(j, env.log, i, m.chunkCount, reply.bytes);
    }
  }

  /** Whatever the relay says, the loader goes on only with the collector's manifest. */
  lemma StartsWithFinal(j: Collect.Job, env: Env, info: InfoReply, reply: Reply)
    requires Collect.JobOk(j) && env.log <= Collect.SealedLog(j)
    requires env.unmarshal(j.marshal(Collect.Final(j))) == Some(Collect.Final(j))
    ensures Start(env, info, reply).Go? ==> Start(env, info, reply).m == Collect.Final(j)
  {
    hide ValidManifest, Unseal, AD, Envelopes.Nonce, Collect.Final;
    if Start(env, info, reply).Go? {
      UnsealIsMember(env.log, ManifestKey, Envelopes.Nonce(0), AD(0, info.count), reply.bytes);
      var p := OpenManifest(env.log, info.count, reply.bytes).plain;
      var k := BoxIn(j, env.log, Box(ManifestKey, Envelopes.Nonce(0), AD(0, info.count), p, reply.bytes));
    }
  }

  /** The sources a load should give back: every line as collected, then repaired. */
  function Original(inputs: seq<Collect.Input>, repair: Bytes -> Bytes): (r: seq<Source>)
    ensures |r| == |inputs|
  {
    seq(|inputs|, k requires 0 <= k < |inputs| => Source(Collect.Metas(inputs)[k], Repaired(inputs[k].lines, repair)))
  }

  ghost predicate Clean(inputs: seq<Collect.Input>) {
    forall k :: 0 <= k < |inputs| ==> Collect.NewlineFree(inputs[k].lines)
  }

  lemma SlicesInRange(inputs: seq<Collect.Input>)
    ensures forall k :: 0 <= k < |inputs| ==> InRange(Collect.Rendered(inputs), Collect.Metas(inputs)[k])
  {
    forall k | 0 <= k < |inputs|
      ensures InRange(Collect.Rendered(inputs), Collect.Metas(inputs)[k])
    {
      Collect.SourceSlice(inputs, k);
    }
  }

  /** Cutting the collected plaintext gives the sources back exactly when no line holds a
      newline, and fails otherwise. */
  lemma {:induction false} CutCollected(inputs: seq<Collect.Input>, repair: Bytes -> Bytes, k: nat)
    requires k <= |inputs|
    requires forall k :: 0 <= k < |inputs| ==> InRange(Collect.Rendered(inputs), Collect.Metas(inputs)[k])
    ensures Cut(Collect.Metas(inputs)[..k], Collect.Rendered(inputs), repair) ==
            if Clean(inputs[..k]) then Some(Original(inputs, repair)[..k]) else None
  {
    hide L.LinesOf, Collect.Rendered, Collect.Metas, Collect.Render, InRange, Cut;
    var metas, plain := Collect.Metas(inputs), Collect.Rendered(inputs);
    if k == 0 {
      CutNone(plain, repair);
    } else {
      CutCollected(inputs, repair, k - 1);
      CutStep(metas, plain, repair, k - 1);
      Collect.SourceSlice(inputs, k - 1);
      Collect.MetaAt(inputs, k - 1);
      Collect.LinesOfRender(inputs[k - 1].lines);
      Collect.Front(inputs, k - 1);
      CleanStep(inputs, k - 1);
      assert Original(inputs, repair)[..k] == Original(inputs, repair)[..k - 1] + [Original(inputs, repair)[k - 1]];
    }
  }

  lemma CleanStep(inputs: seq<Collect.Input>, k: nat)
    requires k < |inputs|
    ensures Clean(inputs[..k + 1]) <==> Clean(inputs[..k]) && Collect.NewlineFree(inputs[k].lines)
  {
    hide Collect.NewlineFree;
    var a, b := inputs[..k], inputs[..k + 1];
    assert forall j :: 0 <= j < k ==> a[j] == b[j];
    assert b[k] == inputs[k];
  }

  /** An upload of collected inputs. */
  ghost predicate UploadOf(j: Collect.Job, inputs: seq<Collect.Input>) {
    Collect.CollectedFrom(inputs) == Collect.Collected(j.plain, j.bare)
  }

  lemma UploadOk(j: Collect.Job, inputs: seq<Collect.Input>)
    requires UploadOf(j, inputs)
    ensures Collect.JobOk(j) && j.bare.totalBytes == |j.plain| && j.plain == Collect.Rendered(inputs)
    ensures Collect.Final(j).sources == Collect.Metas(inputs)
  {
  }

  /** Rebuilding from the whole plaintext: the original lines, or a refusal when some
      line held a newline. */
  lemma RebuiltIsOriginal(j: Collect.Job, inputs: seq<Collect.Input>, repair: Bytes -> Bytes)
    requires UploadOf(j, inputs) && Collect.Categories(inputs) <= CATEGORIES
    ensures Collect.JobOk(j) && ValidManifest(Collect.Final(j))
    ensures Rebuilt(Collect.Final(j), j.plain, repair) ==
            if Clean(inputs) then Loaded(Original(inputs, repair)) else Err(ErrIntegrity)
  {
    hide Cut, Collect.CollectedFrom, ValidManifest, Clean, InRange, Collect.Metas, Collect.Rendered;
    UploadOk(j, inputs);
    var m := Collect.Final(j);
    Collect.CollectIsValid(inputs, m.hashes);
    SlicesInRange(inputs);
    CutCollected(inputs, repair, |inputs|);
    assert Collect.Metas(inputs)[..|inputs|] == Collect.Metas(inputs);
    assert inputs[..|inputs|] == inputs;
  }

  /** For any relay, any answers and any interleaving, a load that succeeds returns
      exactly the collected lines of every source. */
  lemma LoadIsExact(j: Collect.Job, inputs: seq<Collect.Input>, env: Env, info: InfoReply, reply: Reply,
                    steps: seq<Step>, repair: Bytes -> Bytes)
    requires UploadOf(j, inputs) && Collect.Categories(inputs) <= CATEGORIES
    requires Collect.JobOk(j) && env.log <= Collect.SealedLog(j)
    requires env.unmarshal(j.marshal(Collect.Final(j))) == Some(Collect.Final(j))
    ensures var r := Run(env, info, reply, steps, repair);
            r.Loaded? ==> Clean(inputs) && r.sources == Original(inputs, repair)
  {
    hide Start, Exec, Rebuilt, Clean, OnlyOpens, Collect.Final, Collect.SealedLog;
    UploadOk(j, inputs);
    var m := Collect.Final(j);
    StartsWithFinal(j, env, info, reply);
    SealedOnlyOpens(j, env);
    if Start(env, info, reply).Go? {
      WorkersRebuild(env, m, j.plain, steps);
      RebuiltIsOriginal(j, inputs, repair);
    }
  }

  // ----- an honest relay

  /** The cipher adds exactly its tag. */
  ghost predicate Overhead(gcm: Cipher) {
    forall k, n, p, a :: |gcm(k, n, p, a)| == |p| + CHUNK_OVERHEAD
  }

  /** The relay answers with the chunk that was uploaded, and nobody cancels. */
  ghost predicate Honest(j: Collect.Job, s: State, step: Step)
    requires Collect.JobOk(j)
  {
    match step
    case Cancel => false
    case Answer(w, reply) =>
      w < |s.workers| && s.workers[w].Fetching? && s.workers[w].i < j.bare.chunkCount ==>
        reply == Got(Collect.Boxes(j)[s.workers[w].i].cipher)
    case _ => true
  }

  ghost predicate HonestRun(j: Collect.Job, env: Env, m: Manifest, steps: seq<Step>)
    requires Collect.JobOk(j) && m.totalBytes >= 0
  {
    forall k :: 0 <= k < |steps| ==> Honest(j, Exec(env, m, steps[..k]), steps[k])
  }

  lemma OwnBoxOpens(j: Collect.Job, log: seq<Box>, i: nat)
    requires Collect.JobOk(j) && log == Collect.SealedLog(j) && i < j.bare.chunkCount && Overhead(j.gcm)
    ensures i * CHUNK_SIZE < |j.plain|
    ensures OpenChunk(log, i, j.bare.chunkCount, Collect.Boxes(j)[i].cipher) == Plain(Chunk(j.plain, i))
  {
    hide Unseal, AD, Envelopes.Nonce;
    var count := j.bare.chunkCount;
    Collect.ChunkInRange(j.plain, count, i);
    var b := Collect.Boxes(j)[i];
    assert b == log[i] && b == Box(ChunkKey, Envelopes.Nonce(i), AD(i, count), Chunk(j.plain, i), b.cipher);
    assert |b.cipher| == |Chunk(j.plain, i)| + CHUNK_OVERHEAD;
    UnsealIsMember(log, ChunkKey, Envelopes.Nonce(i), AD(i, count), b.cipher);
    OpensOwnChunk(j, log, i, count, b.cipher);
  }

  lemma OwnBoxAccepted(j: Collect.Job, env: Env, i: nat)
    requires Collect.JobOk(j) && env.log == Collect.SealedLog(j) && env.digest == j.digest && j.bare.totalBytes == |j.plain|
    requires i < j.bare.chunkCount && Overhead(j.gcm)
    ensures Check(env, Collect.Final(j), i, Got(Collect.Boxes(j)[i].cipher)).Accepted?
  {
    hide OpenChunk, Collect.SealedLog, Collect.Boxes;
    OwnBoxOpens(j, env.log, i);
    assert Collect.Final(j).hashes[i] == Collect.HashOf(j.digest, Collect.Boxes(j)[i]);
  }

  lemma HonestKeeps(j: Collect.Job, env: Env, s: State, step: Step)
    requires Collect.JobOk(j) && env.log == Collect.SealedLog(j) && env.digest == j.digest && j.bare.totalBytes == |j.plain|
    requires Overhead(j.gcm) && Inv(Collect.Final(j), j.plain, s) && !s.cancelled && Honest(j, s, step)
    ensures !Apply(env, Collect.Final(j), s, step).cancelled
  {
    hide Collect.SealedLog, Collect.Boxes, Check, Overhead, Complete, Written;
    if step.Answer? && step.w < |s.workers| && s.workers[step.w].Fetching? {
      var i := s.workers[step.w].i;
      assert Holds(s, step.w, i);
      OwnBoxAccepted(j, env, i);
    }
  }

  lemma {:induction false} HonestNeverFails(j: Collect.Job, env: Env, steps: seq<Step>)
    requires Collect.JobOk(j) && env.log == Collect.SealedLog(j) && env.digest == j.digest && j.bare.totalBytes == |j.plain|
    requires Overhead(j.gcm) && HonestRun(j, env, Collect.Final(j), steps)
    ensures !Exec(env, Collect.Final(j), steps).cancelled
  {
    hide Collect.SealedLog, Collect.Boxes, Overhead, Inv, Apply, Honest, OnlyOpens;
    if steps != [] {
      var m, front := Collect.Final(j), steps[..|steps| - 1];
      assert forall k :: 0 <= k < |front| ==> front[..k] == steps[..k];
      HonestNeverFails(j, env, front);
      SealedOnlyOpens(j, env);
      ReachableInv(env, m, j.plain, front);
      HonestKeeps(j, env, Exec(env, m, front), steps[|steps| - 1]);
    }
  }

  /** With a finished upload and an honest relay, for every interleaving, once the
      workers are through the load returns the collected lines if no line holds a
      newline, and refuses the artifact otherwise. */
  lemma HonestLoad(j: Collect.Job, inputs: seq<Collect.Input>, env: Env, steps: seq<Step>, repair: Bytes -> Bytes)
    requires UploadOf(j, inputs) && Collect.Categories(inputs) <= CATEGORIES && Overhead(j.gcm)
    requires Collect.JobOk(j) && env.log == Collect.SealedLog(j) && env.digest == j.digest && Collect.Final(j).totalBytes >= 0
    requires env.unmarshal(j.marshal(Collect.Final(j))) == Some(Collect.Final(j))
    requires HonestRun(j, env, Collect.Final(j), steps) && AllEnded(Exec(env, Collect.Final(j), steps))
    ensures Run(env, Info(j.bare.chunkCount), Got(Collect.ManifestBox(j).cipher), steps, repair) ==
            if Clean(inputs) then Loaded(Original(inputs, repair)) else Err(ErrIntegrity)
  {
    hide Start, Exec, Rebuilt, Clean, OnlyOpens, Collect.SealedLog, Overhead, HonestRun, Collect.Final;
    UploadOk(j, inputs);
    FinalShape(j);
    RebuiltIsOriginal(j, inputs, repair);
    HonestStart(j, env);
    HonestNeverFails(j, env, steps);
    SealedOnlyOpens(j, env);
    WorkersRebuild(env, Collect.Final(j), j.plain, steps);
  }

  lemma FinalShape(j: Collect.Job)
    requires Collect.JobOk(j)
    ensures Collect.Final(j).totalBytes == j.bare.totalBytes && Collect.Final(j).chunkCount == j.bare.chunkCount
  {
  }

  lemma HonestStart(j: Collect.Job, env: Env)
    requires Collect.JobOk(j) && env.log == Collect.SealedLog(j) && ValidManifest(Collect.Final(j))
    requires env.unmarshal(j.marshal(Collect.Final(j))) == Some(Collect.Final(j))
    ensures Start(env, Info(j.bare.chunkCount), Got(Collect.ManifestBox(j).cipher)) == Go(Collect.Final(j))
  {
    hide ValidManifest, Unseal, AD, Envelopes.Nonce, Collect.Final, Collect.Boxes;
    var b, log := Collect.ManifestBox(j), env.log;
    assert log[|log| - 1] == b;
    UnsealLast(log, b);
    FinalShape(j);
  }

  lemma UnsealLast(log: seq<Box>, b: Box)
    requires log != [] && log[|log| - 1] == b
    ensures Unseal(log, b.key, b.nonce, b.ad, b.cipher) == Some(b.plain)
  {
  }

  // ----- every load ends

  function Weight(w: Worker): nat {
    match w
    case Idle => 1
    case Received(_) => 4
    case Fetching(_) => 3
    case Copying(_, _) => 2
    case Ended => 0
  }

  function Weights(ws: seq<Worker>): nat {
    if ws == [] then 0 else Weights(ws[..|ws| - 1]) + Weight(ws[|ws| - 1])
  }

  /** Work left: a bound on the number of steps the workers can still take. */
  function Remaining(s: State): nat { 4 * |s.queue| + Weights(s.workers) }

  lemma {:induction false} WeightsUpdate(ws: seq<Worker>, w: nat, x: Worker)
    requires w < |ws|
    ensures Weights(ws[w := x]) == Weights(ws) - Weight(ws[w]) + Weight(x)
  {
    var t, n := ws[w := x], |ws| - 1;
    if w == n {
      assert t[..n] == ws[..n];
    } else {
      assert t[..n] == ws[..n][w := x];
      WeightsUpdate(ws[..n], w, x);
    }
  }

  /** What worker w would do next, whatever the relay answers. */
  function NextStep(s: State, w: nat, reply: Reply): Step
    requires w < |s.workers|
  {
    match s.workers[w]
    case Idle => Receive(w)
    case Received(_) => Look(w)
    case Fetching(_) => Answer(w, reply)
    case Copying(_, _) => Copy(w)
    case Ended => Cancel
  }

  /** A worker that has not ended can always step, and every such step uses up work: at
      most 4 * chunks + 4 steps lead to the end of a load. */
  lemma LoadProgress(env: Env, m: Manifest, s: State, w: nat, reply: Reply)
    requires w < |s.workers| && !s.workers[w].Ended?
    ensures Remaining(Apply(env, m, s, NextStep(s, w, reply))) < Remaining(s)
    ensures m.totalBytes >= 0 ==> Remaining(Init(m)) == 4 * m.chunkCount + WORKERS
  {
    hide Check, CopyAt, Range;
    var t := Apply(env, m, s, NextStep(s, w, reply));
    assert t.workers == s.workers[w := t.workers[w]];
    WeightsUpdate(s.workers, w, t.workers[w]);
    var init := seq(WORKERS, _ => Idle);
    assert init == [Idle, Idle, Idle, Idle];
    FourIdle();
  }

  lemma FourIdle()
    ensures Weights([Idle, Idle, Idle, Idle]) == 4
  {
    var a := [Idle];
    var b := a + [Idle];
    var c := b + [Idle];
    assert a[..0] == [] && b[..1] == a && c[..2] == b && [Idle, Idle, Idle, Idle][..3] == c;
    assert Weights(a) == 1 && Weights(b) == 2 && Weights(c) == 3;
  }

  // ----- what a loaded source says about itself

  /** Name, kind, target and number of lines of a loaded source are those of the collected
      one. */
  lemma OriginalMeta(inputs: seq<Collect.Input>, repair: Bytes -> Bytes, k: nat)
    requires k < |inputs|
    ensures var s, i := Original(inputs, repair)[k], inputs[k];
            && s.meta.name == i.name && s.meta.target == i.target && s.meta.lines == |i.lines| == |s.lines|
            && (s.meta.kind == "unit" <==> i.kind.Unit?) && (s.meta.kind == "container" <==> i.kind.Container?)
            && (s.meta.kind == "file" <==> i.kind.File?)
            && forall n :: 0 <= n < |i.lines| ==> s.lines[n] == repair(i.lines[n])
  {
    hide Collect.Rendered, Collect.Render;
    Collect.MetaAt(inputs, k);
    assert |"unit"| == 4 && |"container"| == 9 && "file"[0] == 'f' && "unit"[0] == 'u';
  }

  /** A worker takes a chunk only if its hash is the manifest's, it opens under its index and
      count, and it has the length the manifest leaves for it. */
  lemma CheckExactly(env: Env, m: Manifest, i: nat, reply: Reply, chunk: Bytes)
    requires i < |m.hashes|
    ensures Check(env, m, i, reply) == Accepted(chunk) <==>
            && reply.Got? && m.hashes[i] == HexEncode(env.digest(reply.bytes))
            && OpenChunk(env.log, i, m.chunkCount, reply.bytes) == Plain(chunk)
            && |chunk| == if (i + 1) * CHUNK_SIZE <= m.totalBytes then CHUNK_SIZE else m.totalBytes - i * CHUNK_SIZE
  {
    hide OpenChunk, HexEncode;
  }

  /** The hashes in the uploaded manifest are those of the sealed chunks, in order. */
  lemma HashesInOrder(j: Collect.Job, i: nat)
    requires Collect.JobOk(j) && i < j.bare.chunkCount
    ensures |Collect.Final(j).hashes| == j.bare.chunkCount
    ensures Collect.Final(j).hashes[i] == HexEncode(j.digest(Collect.SealedLog(j)[i].cipher))
  {
    hide HexEncode;
    assert Collect.SealedLog(j)[i] == Collect.Boxes(j)[i];
    assert Collect.Final(j).hashes[i] == Collect.HashOf(j.digest, Collect.Boxes(j)[i]);
  }

  /** The first error is the one a load reports: no later step changes it, and it stops
      everybody. */
  lemma FirstErrorKept(env: Env, m: Manifest, s: State, step: Step)
    ensures s.error.Some? ==> Apply(env, m, s, step).error == s.error
    ensures Apply(env, m, s, step).error.Some? && s.error.None? ==>
              && step.Answer? && step.w < |s.workers| && s.workers[step.w].Fetching? && Apply(env, m, s, step).cancelled
              && Check(env, m, s.workers[step.w].i, step.reply) == Refused(Apply(env, m, s, step).error.value)
  {
    hide Check;
  }
}

/** Sealed artifact blobs: the chunking of a plaintext, the guards and associated data of
    the sealing calls, an ideal AEAD, and the manifest with its validation. */
module Blobs {
  import opened Base
  import Envelopes

  const BLOB_VERSION := 1
  const CHUNK_SIZE := 0x10_0000
  const CHUNK_OVERHEAD := 16
  const MAX_CHUNKS := 128
  const MAX_MANIFEST_BYTES := 0x10_0000
  const CATEGORIES: set<string> := {"secret", "token", "jwt", "key", "ip", "email", "phone", "name", "address"}

  type Count = x: int | 0 <= x < 0x1_0000_0000

  // ----- chunks

  /** The least number of chunks that hold n bytes, for 0 < n <= 128 MiB. */
  function ChunkCount(n: int): (r: Option<nat>)
    ensures r.Some? <==> 0 < n <= MAX_CHUNKS * CHUNK_SIZE
    ensures r.Some? ==> 1 <= r.value <= MAX_CHUNKS && (r.value - 1) * CHUNK_SIZE < n <= r.value * CHUNK_SIZE
  {
    if n <= 0 || n > MAX_CHUNKS * CHUNK_SIZE then None else Some((n + CHUNK_SIZE - 1) / CHUNK_SIZE)
  }

  function ChunkEnd(total: nat, i: nat): nat {
    if (i + 1) * CHUNK_SIZE <= total then (i + 1) * CHUNK_SIZE else total
  }

  /** The bytes of a plaintext that chunk i holds. */
  function Chunk(plain: Bytes, i: nat): Bytes
    requires i * CHUNK_SIZE <= |plain|
  {
    plain[i * CHUNK_SIZE..ChunkEnd(|plain|, i)]
  }

  /** Cuts the front off until nothing is left: as many chunks as it takes, the i-th one
      the i-th stretch of CHUNK_SIZE bytes, none of them empty. */
  method SplitChunks(plain: Bytes) returns (chunks: seq<Bytes>)
    ensures (|chunks| - 1) * CHUNK_SIZE < |plain| <= |chunks| * CHUNK_SIZE || (plain == [] && chunks == [])
    ensures forall i :: 0 <= i < |chunks| ==> i * CHUNK_SIZE < |plain| && chunks[i] == Chunk(plain, i)
  {
    chunks := [];
    var rest := plain;
    while |rest| > 0
      invariant plain != [] ==> (|chunks| - 1) * CHUNK_SIZE < |plain|
      invariant plain == [] ==> chunks == []
      invariant if |chunks| * CHUNK_SIZE <= |plain| then rest == plain[|chunks| * CHUNK_SIZE..] else rest == []
      invariant forall i :: 0 <= i < |chunks| ==> i * CHUNK_SIZE < |plain| && chunks[i] == Chunk(plain, i)
      decreases |rest|
    {
      var n := if |rest| < CHUNK_SIZE then |rest| else CHUNK_SIZE;
      assert rest[..n] == Chunk(plain, |chunks|);
      chunks := chunks + [rest[..n]];
      rest := rest[n..];
    }
  }

  function Joined(chunks: seq<Bytes>): Bytes {
    if chunks == [] then [] else Joined(chunks[..|chunks| - 1]) + chunks[|chunks| - 1]
  }

  lemma {:induction false} JoinedPrefix(plain: Bytes, chunks: seq<Bytes>, k: nat)
    requires k <= |chunks|
    requires forall i :: 0 <= i < |chunks| ==> i * CHUNK_SIZE < |plain| && chunks[i] == Chunk(plain, i)
    ensures Joined(chunks[..k]) == plain[..if k * CHUNK_SIZE <= |plain| then k * CHUNK_SIZE else |plain|]
  {
    if k > 0 {
      JoinedPrefix(plain, chunks, k - 1);
      assert chunks[..k][..k - 1] == chunks[..k - 1];
      var a, b := (k - 1) * CHUNK_SIZE, ChunkEnd(|plain|, k - 1);
      assert plain[..b] == plain[..a] + plain[a..b];
    }
  }

  /** The chunks in order are the plaintext: nothing is lost, repeated or moved. */
  lemma ChunksJoin(plain: Bytes, chunks: seq<Bytes>)
    requires |plain| <= |chunks| * CHUNK_SIZE
    requires forall i :: 0 <= i < |chunks| ==> i * CHUNK_SIZE < |plain| && chunks[i] == Chunk(plain, i)
    ensures Joined(chunks) == plain
  {
    JoinedPrefix(plain, chunks, |chunks|);
    assert chunks[..|chunks|] == chunks;
  }

  // ----- associated data and nonces

  function AD(index: nat, count: Count): (ad: Bytes)
    requires index <= Envelopes.MAX_UINT64
    ensures |ad| == 13
  {
    Pow256Values();
    [BLOB_VERSION] + BigEndian(index, 8) + BigEndian(count, 4)
  }

  method BlobAD(index: nat, count: Count) returns (ad: Bytes)
    requires index <= Envelopes.MAX_UINT64
    ensures ad == AD(index, count)
  {
    Pow256Values();
    var buffer := new Byte[13](_ => 0);
    buffer[0] := BLOB_VERSION;
    Envelopes.Put(buffer, 1, BigEndian(index, 8));
    Envelopes.Put(buffer, 9, BigEndian(count, 4));
    assert buffer[..] == AD(index, count);
    return buffer[..];
  }

  lemma ADInjective(i: nat, m: Count, j: nat, n: Count)
    requires i <= Envelopes.MAX_UINT64 && j <= Envelopes.MAX_UINT64
    ensures AD(i, m) == AD(j, n) <==> i == j && m == n
  {
    Pow256Values();
    if AD(i, m) == AD(j, n) {
      assert AD(i, m)[1..9] == BigEndian(i, 8) && AD(j, n)[1..9] == BigEndian(j, 8);
      assert AD(i, m)[9..] == BigEndian(m, 4) && AD(j, n)[9..] == BigEndian(n, 4);
      BigEndianInjective(i, j, 8);
      BigEndianInjective(m, n, 4);
    }
  }

  // ----- the ideal AEAD

  datatype BlobKey = ManifestKey | ChunkKey

  /** One call of Seal. */
  datatype Box = Box(key: BlobKey, nonce: Bytes, ad: Bytes, plain: Bytes, cipher: Bytes)

  /** The ciphertext the cipher yields for a key, nonce, plaintext and associated data. */
  type Cipher = (BlobKey, Bytes, Bytes, Bytes) -> Bytes

  function SealBox(gcm: Cipher, key: BlobKey, index: nat, count: Count, plain: Bytes): Box
    requires index <= Envelopes.MAX_UINT64
  {
    var nonce, ad := Envelopes.Nonce(index), AD(index, count);
    Box(key, nonce, ad, plain, gcm(key, nonce, plain, ad))
  }

  function SealChunk(gcm: Cipher, index: nat, count: Count, plain: Bytes): Option<Box> {
    if count == 0 || count > MAX_CHUNKS || index >= count || plain == [] || |plain| > CHUNK_SIZE ||
       (index < count - 1 && |plain| != CHUNK_SIZE)
    then None
    else Some(SealBox(gcm, ChunkKey, index, count, plain))
  }

  function SealManifest(gcm: Cipher, count: Count, text: Bytes): Option<Box> {
    if text == [] || |text| > MAX_MANIFEST_BYTES - CHUNK_OVERHEAD then None
    else Some(SealBox(gcm, ManifestKey, 0, count, text))
  }

  /** Opening succeeds only on what a Seal call made under the same key, nonce and data. */
  function Unseal(log: seq<Box>, key: BlobKey, nonce: Bytes, ad: Bytes, cipher: Bytes): Option<Bytes> {
    if log == [] then None
    else
      var b := log[|log| - 1];
      if b.key == key && b.nonce == nonce && b.ad == ad && b.cipher == cipher then Some(b.plain)
      else Unseal(log[..|log| - 1], key, nonce, ad, cipher)
  }

  lemma {:induction false} UnsealIsMember(log: seq<Box>, key: BlobKey, nonce: Bytes, ad: Bytes, cipher: Bytes)
    ensures var r := Unseal(log, key, nonce, ad, cipher);
            match r
            case Some(p) => Box(key, nonce, ad, p, cipher) in log
            case None => forall p :: Box(key, nonce, ad, p, cipher) !in log
  {
    if log != [] {
      var front, b := log[..|log| - 1], log[|log| - 1];
      UnsealIsMember(front, key, nonce, ad, cipher);
      assert log == front + [b];
    }
  }

  datatype Opened = Plain(plain: Bytes) | BadSize | BadAuth

  function OpenChunk(log: seq<Box>, index: nat, count: Count, cipher: Bytes): Opened {
    if count == 0 || count > MAX_CHUNKS || index >= count || |cipher| < 17 || |cipher| > CHUNK_SIZE + CHUNK_OVERHEAD
    then BadSize
    else match Unseal(log, ChunkKey, Envelopes.Nonce(index), AD(index, count), cipher)
      case None => BadAuth
      case Some(p) => Plain(p)
  }

  function OpenManifest(log: seq<Box>, count: Count, cipher: Bytes): Opened {
    match Unseal(log, ManifestKey, Envelopes.Nonce(0), AD(0, count), cipher)
    case None => BadAuth
    case Some(p) => Plain(p)
  }

  // ----- the manifest

  datatype ManifestSource = ManifestSource(name: string, kind: string, target: string, offset: int, bytes: int, lines: int)

  datatype Manifest = Manifest(version: int, chunkSize: int, chunkCount: Count, totalBytes: int,
                               hashes: seq<string>, sources: seq<ManifestSource>, categories: set<string>)

  predicate KnownKind(kind: string) { kind == "unit" || kind == "container" || kind == "file" }

  /** Sum of the lengths of the sources. */
  function Extent(sources: seq<ManifestSource>): int {
    if sources == [] then 0 else Extent(sources[..|sources| - 1]) + sources[|sources| - 1].bytes
  }

  /** The sources lie end to end from 0, none with a negative length. */
  predicate Tiled(sources: seq<ManifestSource>) {
    forall k :: 0 <= k < |sources| ==>
      sources[k].bytes >= 0 && sources[k].offset == Extent(sources[..k])
  }

  predicate GoodHashes(hashes: seq<string>) {
    forall k :: 0 <= k < |hashes| ==> LowerHex(hashes[k], 64)
  }

  predicate GoodKinds(sources: seq<ManifestSource>) {
    forall k :: 0 <= k < |sources| ==> KnownKind(sources[k].kind)
  }

  predicate ValidManifest(m: Manifest) {
    && m.version == BLOB_VERSION
    && m.chunkSize == CHUNK_SIZE
    && ChunkCount(m.totalBytes) == Some(m.chunkCount)
    && |m.hashes| == m.chunkCount
    && GoodHashes(m.hashes)
    && m.sources != []
    && Tiled(m.sources)
    && GoodKinds(m.sources)
    && Extent(m.sources) == m.totalBytes
    && m.categories <= CATEGORIES
  }

  lemma {:induction false} ExtentGrows(sources: seq<ManifestSource>, j: nat, k: nat)
    requires Tiled(sources) && j <= k <= |sources|
    ensures 0 <= Extent(sources[..j]) <= Extent(sources[..k])
    decreases k
  {
    if k > 0 {
      var s := sources[..k];
      assert s[..k - 1] == sources[..k - 1];
      if j == k {
        ExtentGrows(sources, k - 1, k - 1);
      } else {
        ExtentGrows(sources, j, k - 1);
      }
    }
  }

  lemma ExtentStep(sources: seq<ManifestSource>, k: nat)
    requires k < |sources|
    ensures Extent(sources[..k + 1]) == Extent(sources[..k]) + sources[k].bytes
  {
    assert sources[..k + 1][..k] == sources[..k];
  }

  method HashesOk(hashes: seq<string>) returns (ok: bool)
    ensures ok <==> GoodHashes(hashes)
  {
    for k := 0 to |hashes|
      invariant forall j :: 0 <= j < k ==> LowerHex(hashes[j], 64)
    {
      if !LowerHex(hashes[k], 64) {
        return false;
      }
    }
    return true;
  }

  /** One pass with a running offset decides that the sources tile exactly `total` bytes. */
  method SourcesOk(sources: seq<ManifestSource>, total: int) returns (ok: bool)
    requires total >= 0
    ensures ok <==> Tiled(sources) && GoodKinds(sources) && Extent(sources) == total
  {
    var offset := 0;
    assert sources[..|sources|] == sources;
    for k := 0 to |sources|
      invariant offset == Extent(sources[..k]) <= total
      invariant Tiled(sources[..k]) && GoodKinds(sources[..k])
    {
      ExtentStep(sources, k);
      if sources[k].offset != offset || sources[k].bytes < 0 || sources[k].bytes > total - offset {
        if Tiled(sources) {
          ExtentGrows(sources, k + 1, |sources|);
        }
        return false;
      }
      if sources[k].kind != "unit" && sources[k].kind != "container" && sources[k].kind != "file" {
        assert !KnownKind(sources[k].kind);
        return false;
      }
      offset := offset + sources[k].bytes;
      TiledStep(sources, k);
    }
    return offset == total;
  }

  lemma TiledStep(sources: seq<ManifestSource>, k: nat)
    requires k < |sources| && Tiled(sources[..k]) && GoodKinds(sources[..k])
    requires sources[k].bytes >= 0 && sources[k].offset == Extent(sources[..k]) && KnownKind(sources[k].kind)
    ensures Tiled(sources[..k + 1]) && GoodKinds(sources[..k + 1])
  {
    var s, t := sources[..k], sources[..k + 1];
    forall j | 0 <= j < |t|
      ensures t[j].bytes >= 0 && t[j].offset == Extent(t[..j]) && KnownKind(t[j].kind)
    {
      assert t[..j] == sources[..j];
      if j < k {
        assert s[j] == t[j] && s[..j] == sources[..j];
      }
    }
  }

  /** Validate accepts exactly the valid manifests. */
  method Validate(m: Manifest) returns (ok: bool)
    ensures ok <==> ValidManifest(m)
  {
    if m.version != BLOB_VERSION || m.chunkSize != CHUNK_SIZE {
      return false;
    }
    var count := ChunkCount(m.totalBytes);
    if count.None? || m.chunkCount != count.value || m.chunkCount != |m.hashes| {
      return false;
    }
    ok := HashesOk(m.hashes);
    if !ok || |m.sources| == 0 {
      return false;
    }
    ok := SourcesOk(m.sources, m.totalBytes);
    ok := ok && m.categories <= CATEGORIES;
  }

  predicate Covers(s: ManifestSource, p: int) { s.offset <= p < s.offset + s.bytes }

  /** A valid manifest assigns every byte of the plaintext to exactly one source, and
      nothing outside it to any. */
  lemma ValidManifestTiles(m: Manifest, p: int)
    requires ValidManifest(m)
    ensures 0 <= p < m.totalBytes <==> exists k :: 0 <= k < |m.sources| && Covers(m.sources[k], p)
    ensures forall j, k :: 0 <= j < k < |m.sources| && Covers(m.sources[j], p) ==> !Covers(m.sources[k], p)
  {
    assert m.sources[..|m.sources|] == m.sources;
    forall j, k | 0 <= j < k < |m.sources| && Covers(m.sources[j], p)
      ensures !Covers(m.sources[k], p)
    {
      ExtentStep(m.sources, j);
      ExtentGrows(m.sources, j + 1, k);
    }
    if k :| 0 <= k < |m.sources| && Covers(m.sources[k], p) {
      ExtentStep(m.sources, k);
      ExtentGrows(m.sources, k, k);
      ExtentGrows(m.sources, k + 1, |m.sources|);
    }
    if 0 <= p < m.totalBytes {
      FindSource(m.sources, p, |m.sources|);
    }
  }

  lemma {:induction false} FindSource(sources: seq<ManifestSource>, p: int, n: nat)
    requires Tiled(sources) && n <= |sources| && 0 <= p < Extent(sources[..n])
    ensures exists k :: 0 <= k < n && Covers(sources[k], p)
  {
    if n > 0 {
      ExtentStep(sources, n - 1);
      if p < Extent(sources[..n - 1]) {
        FindSource(sources, p, n - 1);
      } else {
        assert Covers(sources[n - 1], p);
      }
    }
  }

  /** Where the fields of a blob's associated data lie. */
  lemma ADLayout(index: nat, count: Count)
    requires index <= Envelopes.MAX_UINT64
    ensures var ad := AD(index, count);
            |ad| == 13 && ad[0] == 1 && FromBigEndian(ad[1..9]) == index && FromBigEndian(ad[9..13]) == count
  {
    Pow256Values();
    var ad := AD(index, count);
    assert ad[1..9] == BigEndian(index, 8) && ad[9..13] == BigEndian(count, 4);
    BigEndianRoundTrip(index, 8);
    BigEndianRoundTrip(count, 4);
  }

  /** What SealChunk accepts: a chunk of an artifact of 1 to 128, full unless it is the last,
      and never empty or too long. */
  lemma SealChunkExactly(gcm: Cipher, index: nat, count: Count, plain: Bytes)
    ensures SealChunk(gcm, index, count, plain).Some? <==>
            && 1 <= count <= 128 && index < count
            && 1 <= |plain| <= 0x10_0000 && (index + 1 < count ==> |plain| == 0x10_0000)
  {
  }

  /** A chunk opens exactly if its index, count and length are in range and it was sealed so. */
  lemma OpenChunkExactly(log: seq<Box>, index: nat, count: Count, cipher: Bytes, p: Bytes)
    ensures OpenChunk(log, index, count, cipher) == Plain(p) ==>
            && 1 <= count <= 128 && index < count && 17 <= |cipher| <= 0x10_0010
            && Box(ChunkKey, Envelopes.Nonce(index), AD(index, count), p, cipher) in log
    ensures 1 <= count <= 128 && index < count && 17 <= |cipher| <= 0x10_0010 ==>
            (Box(ChunkKey, Envelopes.Nonce(index), AD(index, count), p, cipher) in log ==> OpenChunk(log, index, count, cipher).Plain?)
  {
    hide Unseal, AD, Envelopes.Nonce;
    if 1 <= count <= 128 && index < count {
      UnsealIsMember(log, ChunkKey, Envelopes.Nonce(index), AD(index, count), cipher);
    }
  }
}

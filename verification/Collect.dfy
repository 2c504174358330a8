/** The collector's side of an artifact: redacted lines become one plaintext and a
    manifest that says where each source lies; chunks are sealed, hashed and uploaded. */
module Collect {
  import opened Base
  import opened Blobs
  import Envelopes
  import L = Lines

  datatype Kind = Unit | Container | File

  function KindName(k: Kind): (s: string)
    ensures KnownKind(s)
  {
    match k
    case Unit => "unit"
    case Container => "container"
    case File => "file"
  }

  /** A source after redaction: its lines and the categories that replaced something. */
  datatype Input = Input(name: string, kind: Kind, target: string, lines: seq<Bytes>, categories: set<string>)

  // ----- plaintext and manifest

  function Render(lines: seq<Bytes>): Bytes {
    if lines == [] then [] else Render(lines[..|lines| - 1]) + lines[|lines| - 1] + [L.NEWLINE]
  }

  function Rendered(inputs: seq<Input>): Bytes {
    if inputs == [] then [] else Rendered(inputs[..|inputs| - 1]) + Render(inputs[|inputs| - 1].lines)
  }

  function Meta(i: Input, offset: nat): ManifestSource {
    ManifestSource(i.name, KindName(i.kind), i.target, offset, |Render(i.lines)|, |i.lines|)
  }

  function Metas(inputs: seq<Input>): (ms: seq<ManifestSource>)
    ensures |ms| == |inputs|
  {
    if inputs == [] then []
    else
      var front := inputs[..|inputs| - 1];
      Metas(front) + [Meta(inputs[|inputs| - 1], |Rendered(front)|)]
  }

  function LineCount(inputs: seq<Input>): nat {
    if inputs == [] then 0 else LineCount(inputs[..|inputs| - 1]) + |inputs[|inputs| - 1].lines|
  }

  function Categories(inputs: seq<Input>): set<string> {
    if inputs == [] then {} else Categories(inputs[..|inputs| - 1]) + inputs[|inputs| - 1].categories
  }

  datatype Collected = Collected(plain: Bytes, manifest: Manifest) | TooLarge | NoLines | BlobSize

  function CollectedFrom(inputs: seq<Input>): Collected {
    var plain := Rendered(inputs);
    if |plain| > MAX_CHUNKS * CHUNK_SIZE then TooLarge
    else if LineCount(inputs) == 0 then NoLines
    else match ChunkCount(|plain|)
      case None => BlobSize
      case Some(count) =>
        Collected(plain, Manifest(BLOB_VERSION, CHUNK_SIZE, count, |plain|, [], Metas(inputs), Categories(inputs)))
  }

  lemma Front<T>(s: seq<T>, k: nat)
    requires k < |s|
    ensures s[..k + 1][..k] == s[..k] && s[..k + 1][k] == s[k] && |s[..k + 1]| == k + 1
  {
  }

  /** Appends every source's lines to one buffer and records where they went. */
  method Run(inputs: seq<Input>) returns (r: Collected)
    ensures r == CollectedFrom(inputs)
  {
    var plain: Bytes, sources: seq<ManifestSource>, totalLines: nat, categories: set<string> := [], [], 0, {};
    for k := 0 to |inputs|
      invariant plain == Rendered(inputs[..k]) && sources == Metas(inputs[..k])
      invariant totalLines == LineCount(inputs[..k]) && categories == Categories(inputs[..k])
    {
      var src := inputs[k];
      Front(inputs, k);
      var offset := |plain|;
      for j := 0 to |src.lines|
        invariant plain == Rendered(inputs[..k]) + Render(src.lines[..j])
      {
        Front(src.lines, j);
        plain := plain + src.lines[j];
        plain := plain + [L.NEWLINE];
      }
      assert src.lines[..|src.lines|] == src.lines;
      sources := sources + [ManifestSource(src.name, KindName(src.kind), src.target, offset, |plain| - offset, |src.lines|)];
      totalLines := totalLines + |src.lines|;
      categories := categories + src.categories;
    }
    assert inputs[..|inputs|] == inputs;
    if |plain| > MAX_CHUNKS * CHUNK_SIZE {
      return TooLarge;
    }
    if totalLines == 0 {
      return NoLines;
    }
    var count := ChunkCount(|plain|);
    if count.None? {
      return BlobSize;
    }
    return Collected(plain, Manifest(BLOB_VERSION, CHUNK_SIZE, count.value, |plain|, [], sources, categories));
  }

  lemma {:induction false} RenderLength(lines: seq<Bytes>)
    ensures |Render(lines)| >= |lines|
    ensures lines == [] ==> Render(lines) == []
  {
    if lines != [] {
      RenderLength(lines[..|lines| - 1]);
    }
  }

  lemma {:induction false} RenderedLength(inputs: seq<Input>)
    ensures |Rendered(inputs)| >= LineCount(inputs)
    ensures LineCount(inputs) == 0 ==> Rendered(inputs) == []
  {
    if inputs != [] {
      RenderedLength(inputs[..|inputs| - 1]);
      RenderLength(inputs[|inputs| - 1].lines);
    }
  }

  lemma {:induction false} MetasPrefix(inputs: seq<Input>, k: nat)
    requires k <= |inputs|
    ensures Metas(inputs)[..k] == Metas(inputs[..k])
  {
    if k == |inputs| {
      assert inputs[..k] == inputs;
    } else {
      var front := inputs[..|inputs| - 1];
      MetasPrefix(front, k);
      assert front[..k] == inputs[..k];
      assert Metas(inputs)[..k] == Metas(front)[..k];
    }
  }

  lemma {:induction false} MetasExtent(inputs: seq<Input>)
    ensures Extent(Metas(inputs)) == |Rendered(inputs)|
  {
    if inputs != [] {
      var front := inputs[..|inputs| - 1];
      MetasExtent(front);
      assert Metas(inputs)[..|inputs| - 1] == Metas(front);
    }
  }

  lemma MetaAt(inputs: seq<Input>, k: nat)
    requires k < |inputs|
    ensures Metas(inputs)[k] == Meta(inputs[k], |Rendered(inputs[..k])|)
  {
    MetasPrefix(inputs, k + 1);
    Front(inputs, k);
    assert Metas(inputs)[..k + 1][k] == Metas(inputs)[k];
  }

  lemma MetasTiled(inputs: seq<Input>)
    ensures Tiled(Metas(inputs)) && GoodKinds(Metas(inputs))
  {
    var ms := Metas(inputs);
    forall k | 0 <= k < |ms|
      ensures ms[k].bytes >= 0 && ms[k].offset == Extent(ms[..k]) && KnownKind(ms[k].kind)
    {
      MetaAt(inputs, k);
      MetasPrefix(inputs, k);
      MetasExtent(inputs[..k]);
    }
  }

  lemma {:induction false} RenderedPrefix(inputs: seq<Input>, k: nat)
    requires k <= |inputs|
    ensures Rendered(inputs[..k]) <= Rendered(inputs)
  {
    if k == |inputs| {
      assert inputs[..k] == inputs;
    } else {
      var front := inputs[..|inputs| - 1];
      RenderedPrefix(front, k);
      assert front[..k] == inputs[..k];
    }
  }

  /** The range the manifest records for a source holds that source's lines. */
  lemma SourceSlice(inputs: seq<Input>, k: nat)
    requires k < |inputs|
    ensures var m, plain := Metas(inputs)[k], Rendered(inputs);
            && 0 <= m.offset <= m.offset + m.bytes <= |plain|
            && plain[m.offset..m.offset + m.bytes] == Render(inputs[k].lines)
  {
    MetaAt(inputs, k);
    RenderedPrefix(inputs, k + 1);
    Front(inputs, k);
    var a, b, plain := Rendered(inputs[..k]), Render(inputs[k].lines), Rendered(inputs);
    assert Rendered(inputs[..k + 1]) == a + b;
    assert plain[..|a| + |b|] == a + b;
    assert plain[|a|..|a| + |b|] == plain[..|a| + |b|][|a|..];
  }

  lemma {:induction false} NoLinesExactly(inputs: seq<Input>)
    ensures LineCount(inputs) == 0 <==> forall k :: 0 <= k < |inputs| ==> inputs[k].lines == []
  {
    if inputs != [] {
      var n := |inputs| - 1;
      NoLinesExactly(inputs[..n]);
      assert forall k :: 0 <= k < n ==> inputs[..n][k] == inputs[k];
    }
  }

  /** Collecting succeeds exactly when there is something and it fits the cap, an empty
      or oversized blob is caught by the two earlier checks, and then, whatever hashes
      the chunks get, the manifest is valid. */
  lemma CollectIsValid(inputs: seq<Input>, hashes: seq<string>)
    requires Categories(inputs) <= CATEGORIES
    ensures CollectedFrom(inputs) != BlobSize
    ensures CollectedFrom(inputs).Collected? <==> 0 < |Rendered(inputs)| <= MAX_CHUNKS * CHUNK_SIZE
    ensures CollectedFrom(inputs).TooLarge? <==> |Rendered(inputs)| > 128 * 0x10_0000
    ensures CollectedFrom(inputs).NoLines? <==> forall k :: 0 <= k < |inputs| ==> inputs[k].lines == []
    ensures CollectedFrom(inputs).Collected? && |hashes| == CollectedFrom(inputs).manifest.chunkCount && GoodHashes(hashes) ==>
              ValidManifest(CollectedFrom(inputs).manifest.(hashes := hashes))
  {
    RenderedLength(inputs);
    NoLinesExactly(inputs);
    MetasTiled(inputs);
    MetasExtent(inputs);
    if inputs == [] {
      assert Rendered(inputs) == [];
    }
  }

  // ----- lines and back

  ghost predicate NewlineFree(lines: seq<Bytes>) {
    forall i :: 0 <= i < |lines| ==> L.NEWLINE !in lines[i]
  }

  lemma {:induction false} SomeNewline(line: Bytes)
    requires L.NEWLINE in line
    ensures L.Newlines(line) >= 1
  {
    if line[0] != L.NEWLINE {
      assert line == [line[0]] + line[1..];
      SomeNewline(line[1..]);
    }
  }

  lemma OneLine(line: Bytes)
    ensures L.NEWLINE !in line ==> L.LinesOf(line + [L.NEWLINE]) == [line]
    ensures L.NEWLINE in line ==> |L.LinesOf(line + [L.NEWLINE])| >= 2
    ensures |L.LinesOf(line + [L.NEWLINE])| >= 1
  {
    hide L.LinesOf;
    hide L.IndexNL;
    if L.NEWLINE !in line {
      L.LinesCons(line, []);
      assert line + [L.NEWLINE] + [] == line + [L.NEWLINE];
      L.NoLinesInNothing();
    } else {
      SomeNewline(line);
      L.NewlinesAppend(line, [L.NEWLINE]);
      assert [L.NEWLINE][1..] == [];
      L.LinesAtLeastNewlines(line + [L.NEWLINE]);
    }
  }

  lemma RenderStep(lines: seq<Bytes>)
    requires lines != []
    ensures var front, last := lines[..|lines| - 1], lines[|lines| - 1];
            L.LinesOf(Render(lines)) == L.LinesOf(Render(front)) + L.LinesOf(last + [L.NEWLINE])
  {
    hide L.LinesOf;
    hide L.IndexNL;
    var front, last := lines[..|lines| - 1], lines[|lines| - 1];
    L.LinesAppend(Render(front), last + [L.NEWLINE]);
    assert Render(front) + (last + [L.NEWLINE]) == Render(lines);
  }

  /** Reading the rendered text back gives the lines, and a newline inside a line always
      shows in the line count. */
  lemma {:induction false} LinesOfRender(lines: seq<Bytes>)
    ensures NewlineFree(lines) ==> L.LinesOf(Render(lines)) == lines
    ensures |L.LinesOf(Render(lines))| >= |lines|
    ensures |L.LinesOf(Render(lines))| == |lines| <==> NewlineFree(lines)
  {
    hide L.LinesOf;
    hide L.IndexNL;
    if lines == [] {
      L.NoLinesInNothing();
    } else {
      var front, last := lines[..|lines| - 1], lines[|lines| - 1];
      LinesOfRender(front);
      RenderStep(lines);
      OneLine(last);
      assert lines == front + [last];
      assert NewlineFree(lines) <==> NewlineFree(front) && L.NEWLINE !in last;
    }
  }

  // ----- sealing and uploading

  type Digest = b: Bytes | |b| == 32 witness seq(32, _ => 0)
  type Hash = Bytes -> Digest

  function ChunkBox(gcm: Cipher, plain: Bytes, count: Count, i: nat): Box
    requires i * CHUNK_SIZE <= |plain| && i <= Envelopes.MAX_UINT64
  {
    SealBox(gcm, ChunkKey, i, count, Chunk(plain, i))
  }

  predicate Sized(plain: Bytes, count: Count) { ChunkCount(|plain|) == Some(count) }

  lemma ChunkInRange(plain: Bytes, count: Count, i: nat)
    requires Sized(plain, count) && i < count
    ensures i * CHUNK_SIZE < |plain| && i <= Envelopes.MAX_UINT64
  {
  }

  /** Every chunk of a collected plaintext passes the guards of SealChunk. */
  lemma ChunksPassGuards(gcm: Cipher, plain: Bytes, count: Count, i: nat)
    requires Sized(plain, count) && i < count
    ensures i * CHUNK_SIZE < |plain| && i <= Envelopes.MAX_UINT64
    ensures SealChunk(gcm, i, count, Chunk(plain, i)) == Some(ChunkBox(gcm, plain, count, i))
  {
  }

  /** The Seal calls for the chunks, in order. */
  function ChunkBoxes(gcm: Cipher, plain: Bytes, count: Count): (boxes: seq<Box>)
    requires Sized(plain, count)
    ensures |boxes| == count
  {
    seq(count, i requires 0 <= i < count => ChunkInRange(plain, count, i); ChunkBox(gcm, plain, count, i))
  }

  function HashOf(digest: Hash, b: Box): string { HexEncode(digest(b.cipher)) }

  function Hashes(digest: Hash, boxes: seq<Box>): (hashes: seq<string>)
    ensures |hashes| == |boxes| && GoodHashes(hashes)
  {
    seq(|boxes|, i requires 0 <= i < |boxes| => HashOf(digest, boxes[i]))
  }

  datatype Request = PutChunk(index: nat, cipher: Bytes) | PutManifest(cipher: Bytes)
  datatype Ending = Uploaded | CapTooLow | SealFailed | PutFailed

  /** Everything an upload fixes once the lines are collected. */
  datatype Job = Job(gcm: Cipher, digest: Hash, marshal: Manifest -> Bytes, plain: Bytes, bare: Manifest)

  predicate JobOk(j: Job) { Sized(j.plain, j.bare.chunkCount) && j.bare.hashes == [] }

  function Boxes(j: Job): (b: seq<Box>)
    requires JobOk(j)
    ensures |b| == j.bare.chunkCount
  {
    ChunkBoxes(j.gcm, j.plain, j.bare.chunkCount)
  }

  /** The manifest with the hashes of the sealed chunks. */
  function Final(j: Job): Manifest
    requires JobOk(j)
  {
    j.bare.(hashes := Hashes(j.digest, Boxes(j)))
  }

  function ManifestBox(j: Job): Box
    requires JobOk(j)
  {
    SealBox(j.gcm, ManifestKey, 0, j.bare.chunkCount, j.marshal(Final(j)))
  }

  /** All Seal calls of an upload that runs to its end. */
  function SealedLog(j: Job): seq<Box>
    requires JobOk(j)
  {
    Boxes(j) + [ManifestBox(j)]
  }

  function ChunkPut(b: Box, i: nat): Request { PutChunk(i, b.cipher) }

  function ChunkPuts(boxes: seq<Box>): (r: seq<Request>)
    ensures |r| == |boxes|
  {
    seq(|boxes|, i requires 0 <= i < |boxes| => ChunkPut(boxes[i], i))
  }

  /** The requests of an upload that runs to its end: the manifest comes last. */
  function Requests(j: Job): seq<Request>
    requires JobOk(j)
  {
    ChunkPuts(Boxes(j)) + [PutManifest(ManifestBox(j).cipher)]
  }

  /** The guards of SealChunk hold for every chunk, so its error return is never taken. */
  method SealAll(j: Job, chunks: seq<Bytes>) returns (boxes: seq<Box>, hashes: seq<string>)
    requires JobOk(j) && |chunks| == j.bare.chunkCount
    requires forall i :: 0 <= i < |chunks| ==> i * CHUNK_SIZE < |j.plain| && chunks[i] == Chunk(j.plain, i)
    ensures boxes == Boxes(j) && hashes == Hashes(j.digest, boxes)
  {
    boxes, hashes := [], [];
    for i := 0 to |chunks|
      invariant boxes == Boxes(j)[..i]
      invariant hashes == Hashes(j.digest, boxes)
    {
      ChunksPassGuards(j.gcm, j.plain, j.bare.chunkCount, i);
      var sealed := SealChunk(j.gcm, i, j.bare.chunkCount, chunks[i]);
      boxes := boxes + [sealed.value];
      hashes := hashes + [HexEncode(j.digest(sealed.value.cipher))];
      assert boxes == Boxes(j)[..i + 1];
    }
  }

  lemma SplitCount(plain: Bytes, count: Count, n: nat)
    requires Sized(plain, count)
    requires (n - 1) * CHUNK_SIZE < |plain| <= n * CHUNK_SIZE
    ensures n == count
  {
  }

  /** One chunk after the other, until the relay refuses one. */
  method PutChunks(boxes: seq<Box>, putFails: nat -> bool) returns (sent: seq<Request>, accepted: bool)
    ensures sent <= ChunkPuts(boxes)
    ensures accepted ==> sent == ChunkPuts(boxes) && forall k :: 0 <= k < |sent| ==> !putFails(k)
    ensures !accepted ==> sent != [] && putFails(|sent| - 1) && forall k :: 0 <= k < |sent| - 1 ==> !putFails(k)
  {
    sent := [];
    for i := 0 to |boxes|
      invariant sent == ChunkPuts(boxes)[..i]
      invariant forall k :: 0 <= k < |sent| ==> !putFails(k)
    {
      sent := sent + [PutChunk(i, boxes[i].cipher)];
      if putFails(i) {
        return sent, false;
      }
    }
    return sent, true;
  }

  /** upload: whatever the relay answers, what was sealed and what was sent are prefixes
      of the same two lists, and the upload ends well only when both are complete. It
      never fails to seal a chunk, only a manifest that is too long. */
  method Upload(j: Job, relayCap: nat, putFails: nat -> bool) returns (end: Ending, log: seq<Box>, sent: seq<Request>)
    requires JobOk(j)
    ensures log <= SealedLog(j) && sent <= Requests(j)
    ensures end == Uploaded ==> log == SealedLog(j) && sent == Requests(j)
    ensures end == CapTooLow <==> relayCap < j.bare.chunkCount
    ensures end == CapTooLow ==> log == [] && sent == []
    ensures end == SealFailed ==> SealManifest(j.gcm, j.bare.chunkCount, j.marshal(Final(j))).None?
    ensures end == PutFailed ==> sent != [] && putFails(|sent| - 1)
    ensures forall k :: 0 <= k < |sent| - 1 ==> !putFails(k)
  {
    hide Boxes, ChunkBoxes, ChunkPuts, Hashes, SealBox, AD, ChunkCount, HexEncode;
    log, sent := [], [];
    if relayCap < j.bare.chunkCount {
      return CapTooLow, log, sent;
    }
    var chunks := SplitChunks(j.plain);
    SplitCount(j.plain, j.bare.chunkCount, |chunks|);
    var boxes, hashes := SealAll(j, chunks);
    log := boxes;
    var m := j.bare.(hashes := j.bare.hashes + hashes);
    assert m == Final(j);
    var accepted: bool;
    sent, accepted := PutChunks(boxes, putFails);
    if !accepted {
      return PutFailed, log, sent;
    }
    var sealed := SealManifest(j.gcm, m.chunkCount, j.marshal(m));
    if sealed.None? {
      return SealFailed, log, sent;
    }
    log := log + [sealed.value];
    sent := sent + [PutManifest(sealed.value.cipher)];
    return if putFails(|boxes|) then PutFailed else Uploaded, log, sent;
  }

  /** No nonce is used twice under one blob key. */
  lemma BlobNoncesOnce(j: Job, a: nat, b: nat)
    requires JobOk(j) && a < b < |SealedLog(j)|
    requires SealedLog(j)[a].key == SealedLog(j)[b].key
    ensures SealedLog(j)[a].nonce != SealedLog(j)[b].nonce
  {
    ChunkInRange(j.plain, j.bare.chunkCount, a);
    if b < j.bare.chunkCount {
      Envelopes.NonceInjective(a, b);
    }
  }
}

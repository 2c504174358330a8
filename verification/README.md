# Aken in Dafny

Aken connects three parties: a collector that runs on a server, a relay that nobody has to
trust, and a local MCP server that an agent talks to. A one-shot *artifact* is redacted,
chunked, sealed and uploaded by the collector and loaded by the MCP. A *live session* carries
jobs from the MCP to the collector and results back, over queues on the relay. This project
models the logic of the three parties and proves what the system is for.

The files, by theme:

- **Live protocol.** `Envelopes.dfy` (canonical form, nonce, sealing and opening),
  `Exchange.dfy` (the authenticated key exchange), `Protocol.dfy` (both endpoints under an
  arbitrary network, with crashes, failed saves and failed posts), `Mcp.dfy` (the MCP's
  `submit` and `await` as methods that refine the protocol's steps), `Relay.dfy` (session
  queues and registry as classes), `RelayRuns.dfy` (every interleaving of posts, polls, joins,
  drops, sweeps and clock ticks), `RelayLocks.dfy` (lock order and deadlock), `HonestRun.dfy`
  (endpoints and a correct relay composed).
- **Search and paging.** `Lines.dfy` (four line readers, one definition of a line),
  `FileSearch.dfy` (streaming search with a bounded window), `ArtifactSearch.dfy` (paged search
  over loaded lines).
- **Redaction.** `Redaction.dfy` (rule-priority rewriting, placeholders and their mapping).
- **Artifact pipeline.** `Blobs.dfy` (chunks, ideal AEAD, manifest), `Collect.dfy` (lines to
  plaintext, manifest and upload), `Load.dfy` (four workers in any interleaving, and back to lines),
  `EndToEnd.dfy` (redaction, upload, load and expansion composed).
- **Scope and approval.** `ServeScope.dfy` (which paths are permitted, resolving and preparing
  jobs), `ServeRuns.dfy` (a monitor of what a session may be seen to do, and theorems about all
  its traces), `Serve.dfy` (the session class with its redaction engine and saved mapping, proved
  to show only what the monitor allows and to take only the protocol's collector steps).
- **Stores.** `Stores.dfy` (memory and directory store against one specification).
- `Base.dfy` holds big-endian numbers, decimal numerals and lower-case hex.

How things are modelled:

- Code that changes state is a class or a method with loops, proved equal to a function of the
  old state; concurrent code is a step system in which a critical section is one atomic step.
  Runs are arbitrary lists of steps and a step that is not enabled changes nothing, so every
  theorem about `Exec(..., steps)` speaks of every reachable state.
- AES-GCM is ideal: sealing appends to a log, and opening succeeds exactly on what the log holds
  under the same key, nonce and associated data. Ciphertext bytes are chosen freely. HMAC is
  ideal in the same way, the two halves of X25519 agree, HKDF and SHA-256 are arbitrary functions,
  without collisions where different keys are claimed.
- The network and the relay answer anything in `Protocol` and `Load`; the relay is the modelled
  one in `HonestRun`. Time is an integer that does not decrease. Failures of disk writes, posts
  and saves are inputs.
- One MCP process uses a session file at a time: the mutex that guards the counters is local
  to the process.
- A regex is an arbitrary predicate on lines; a redaction rule is an arbitrary function that
  returns ordered spans; the file system seen by a live session is an arbitrary snapshot that
  may differ at every moment.

A property that does not hold as one might expect: following the cursors of an artifact search
loses matches when the search is filtered to a source name that several sources share.
`ArtifactSearch.SharedNameLosesMatches` is an instance and `ArtifactSearch.PagesExactIff` gives
the exact condition.

## Model

| member | source | states |
|---|---|---|
| Envelopes.ParseSessionIDExact | protocol/relayapi.go:80-89 | A string parses to a session ID if and only if it is that ID's canonical spelling. |
| Envelopes.Canonical | protocol/session.go:135-148 | Filling the 30-byte buffer succeeds exactly on well-formed envelopes and gives version, ID, number, class and payload length in their fixed places. |
| Envelopes.SessionNonce | protocol/session.go:169-173 | The buffer holds four zero bytes and the number, big-endian. |
| Envelopes.NonceInjective | protocol/session.go:169-173 | Two numbers share a nonce only if they are the same number. |
| Envelopes.NonceLayout | protocol/session.go:169-173 | Four zero bytes, then the number, which reads back. |
| Envelopes.CanonicalInjective | protocol/session.go:135-148 | Equal associated data means equal header fields and equal payload length. |
| Envelopes.CanonicalLayout | protocol/session.go:135-148 | Version, ID, number, class and payload length read back from their fixed places in the associated data. |
| Envelopes.ValidateExactly | protocol/session.go:135-155 | Validate accepts exactly version 1, this session's ID, a number in 1..2^32-1, a class in 1..3 and a payload longer than its tag and within the cap. |
| Envelopes.OpenExactly | protocol/session.go:150-201 | An envelope opens if and only if it validates, carries the expected number and was sealed unchanged; what comes out is what was sealed. |
| Envelopes.SealsExactly | protocol/session.go:175-186 | Sealing succeeds exactly for a plaintext that is not empty and fits the cap, under a number and a class in range. |
| Envelopes.SealedOpens | protocol/session.go:175-201 | What is sealed opens, under its number and for its session, to its plaintext, and under no other number. |
| Exchange.MACInputsDisjoint | protocol/session.go:60-77 | No input of the collector MAC is an input of the MCP MAC. |
| Exchange.CollectorMACInputInjective | protocol/session.go:60-67 | The collector MAC's input fixes session and key. |
| Exchange.McpMACInputInjective | protocol/session.go:69-77 | The MCP MAC's input fixes session and both keys. |
| Exchange.AuthenticatedAgreement | protocol/session.go:60-124 | For every relay behaviour: when the collector accepts a key, a join owns it and authenticated it for this session and the collector's real key, and every join that finished with that key derived the same job and result keys. |
| Exchange.KeysDiffer | protocol/session.go:115-125 | Under a KDF without collisions, job, result, manifest and chunk key of a root are pairwise different, and different roots share none of them. |
| Exchange.RootsDiffer | protocol/session.go:89-111 | Under a KDF and a digest without collisions, two roots are equal exactly if shared secret, session and both public keys are. |
| Exchange.AwaitJoin | internal/serve/run.go:157-184 | Replies that do not authenticate are turned away without effect; the first one that does is the one accepted. |
| Exchange.ExchangeCompletes | internal/session/session.go:151-189 | With a relay that hands everything on, the collector accepts the MCP's key and both hold the keys derived from the same root. |
| LiveKeys.SealOnceUnion | protocol/session.go:115-125 | Over every run of the protocol no (key, nonce) pair is used twice, jobs and results together. |
| LiveKeys.SessionsApart | protocol/session.go:89-125 | Two sessions with different roots never use one key with one nonce, whatever either does. |
| Protocol.ApplyKeeps | internal/mcp/live.go:130-227 | Each step of MCP, collector, network, crash or reload keeps the invariant that ties counters, session file, sealing logs and histories together. |
| Protocol.SealOnce | internal/mcp/live.go:135-148 | Over every run, with restarts, failed saves and failed posts, no nonce is used twice under the job key or the result key. |
| Protocol.JobsEndToEnd | internal/serve/run.go:216-239 | The i-th job handled is the class and plaintext the MCP sealed under number i, and nothing else was sealed under it. |
| Protocol.ResultsEndToEnd | internal/mcp/live.go:205-227 | Accepted results have strictly increasing numbers and each is what the collector sealed under its number. |
| Protocol.ConsumedIsPrefix | internal/mcp/live.go:205-227 | The results that the session file has passed are the collector's first ones, without a gap. |
| Protocol.HistoryGrows | internal/serve/run.go:216-239 | Nothing handled, accepted or sealed is taken back by any later steps. |
| Protocol.JobIsSealed | internal/mcp/live.go:130-149 | From any reachable state with a loaded session a job that fits is sealed under the next number. |
| Protocol.JobIsHandled | internal/serve/run.go:225-230 | From any reachable state a sealed job that carries the expected number is handled as sealed. |
| Protocol.ResultIsSealed | internal/serve/run.go:460-484 | From any reachable state a result that fits is sealed under the next number, and counted if it is delivered. |
| Protocol.ResultIsAccepted | internal/mcp/live.go:205-227 | From any reachable state a sealed result that carries the expected number is accepted as sealed, if the file can be saved. |
| Protocol.McpLeavesCollector | internal/mcp/live.go:130-227 | No step of the MCP changes the collector's counters, what it handled or what it sealed. |
| McpServer.Server.Submit | internal/mcp/live.go:130-149 | An envelope comes out exactly if the job is not empty and fits, a number is left and the save succeeds; it carries the number just reserved, the counter was saved before, and file and log end as the protocol's reserve and seal steps say. |
| McpServer.Server.ReceiveOne | internal/mcp/live.go:205-227 | One envelope changes counters, file and cache as the protocol's accept step says. |
| McpServer.Server.Receive | internal/mcp/live.go:205-227 | A whole poll reply is the sequence of accept steps up to the first save that fails; a mismatch is reported exactly when some envelope carried another number than the counter it met. |
| McpServer.Server.Await | internal/mcp/live.go:172-232 | Polls until every job has a result, the replies run out or the session fails; the final state is that of the protocol run, the cache that of the accepted results; it ends with a sequence mismatch exactly on the first reply that holds one. |
| McpServer.CachedAppend | internal/mcp/live.go:205-227 | Caching two batches is caching their concatenation. |
| McpServer.InterpretExactly | internal/mcp/live.go:216-225 | A result is taken as decoded exactly if it decodes, names a valid job and has one of the four statuses; anything else becomes an error for the job it names. |
| McpServer.CacheIsLatest | internal/mcp/live.go:225 | For a job with new results the cache holds the latest of them. |
| McpServer.CacheKeepsOthers | internal/mcp/live.go:225 | What was cached stays for jobs without a new result, and no other job is added. |
| McpServer.CacheIsFromCollector | internal/mcp/live.go:172-232 | In every run, each cached result decodes from a plaintext that the collector sealed. |
| Relay.LiveSession.Post | relay/session.go:68-95 | Answer and new state are those of the specification step, whose answers RelayRuns.PostAnswersExactly pins down. |
| Relay.LiveSession.Join | relay/handler.go:418-460 | The first join of a session that is not gone is recorded and wakes sleepers; any other changes nothing. |
| Relay.LiveSession.Drop | relay/session.go:38-48 | The session is gone, its queues are empty and its channel is closed. |
| Relay.LiveSession.Look | relay/session.go:103-147 | One turn of a poll gives what the specification step says; a queue that is handed out is emptied in the same critical section. |
| Relay.Registry.DropLocked | relay/session.go:38-48 | Removes exactly the named session and drops its object; others keep their state. |
| Relay.Registry.Create | relay/handler.go:217-222 | An old object under the ID is dropped before a fresh one takes its place. |
| Relay.Registry.Sweep | relay/session.go:56-66 | Drops exactly the sessions that have expired. |
| RelayRuns.ApplyKeeps | relay/session.go:68-160 | Each step of each interleaving keeps queue, registry and sleeper invariants. |
| RelayRuns.QueueIsFaithful | relay/session.go:68-95 | In both directions: accepted envelopes carry 1..next-1, next stays within 2^32, the queue within its cap, and delivered followed by pending is what was accepted while the session is there. |
| RelayRuns.DeliveredAtMostOnce | relay/session.go:132-145 | No envelope reaches two polls or one poll twice. |
| RelayRuns.NoLostWakeup | relay/session.go:103-160 | A poll asleep on an open channel has nothing to be given, and its session is not gone. |
| RelayRuns.NoContentOnlyWhenEmpty | relay/session.go:146-151 | A poll ends with 204 only on a look that found nothing in a session neither gone nor expired. |
| RelayRuns.RegisteredOrGone | relay/session.go:38-48 | Every object is registered under its own ID and not gone, or gone with empty queues. |
| RelayRuns.GoneForever | relay/session.go:38-48 | A gone session stays gone with empty queues; what was accepted and what was delivered stay so, in order. |
| RelayRuns.OldPollSparesReplacement | relay/session.go:114-125 | A poll that saw its session expire never drops a session that replaced it under the same ID. |
| RelayRuns.RepostIsIdempotent | relay/session.go:80-82 | Reposting the last envelope is answered 202 and changes nothing, after delivery too. |
| RelayRuns.PostAcceptsExactly | relay/session.go:68-95 | A post is taken as new if and only if it is no repeat, carries the next number, and the session is joined, not gone and has room. |
| RelayRuns.PostAnswersExactly | relay/session.go:68-95 | 202 exactly if the session is there and joined and, after the call, the envelope is the last this direction accepted; 404, not_joined, bad_sequence and queue_full each exactly in their case, in this order; any other answer than 202 changes nothing. |
| RelayRuns.PollAnswersExactly | relay/session.go:107-147 | A look finds the session gone, expired, the join, all waiting messages of its direction in order, or nothing, each exactly in its case; messages handed out leave the queue empty and go to the delivered history. |
| RelayRuns.JoinAnswersExactly | relay/handler.go:444-460 | The first join of a session that is there is recorded and wakes whoever waits; every other is refused and changes nothing. |
| RelayRuns.NotFoundOnlyIfGone | relay/session.go:108-125 | A poll is answered 404 only about a session that is gone from then on. |
| RelayLocks.ScriptOrdered | relay/session.go:32-66 | Every handler path takes registry, session and store locks in that order and ends holding none. |
| RelayLocks.RegistryFirst | relay/session.go:114-122 | In no interleaving does a request that holds a session or the store ask for the registry, or for a second session. |
| RelayLocks.NoDeadlock | relay/handler.go:102-111 | For any requests in any interleaving, while one is unfinished some request can go on. |
| HonestRun.ApplyKeeps | internal/mcp/live.go:130-227 | Each joint step of endpoints and relay keeps all invariants. |
| HonestRun.CountersChain | relay/session.go:77-94 | collector.nextJob <= relay.nextJob <= MCP.NextJobSeq and MCP.NextResultSeq <= relay.nextResult <= collector.nextResult + 1 in every reachable state, despite retries and late duplicates. |
| HonestRun.CountedIsAccepted | internal/serve/run.go:474-484 | Every result the collector counts as sent is in the relay's queue history, and the i-th accepted envelope is the i-th sealed one. |
| HonestRun.NothingDropped | internal/serve/run.go:216-239 | If no poll response was lost, every job and result that the relay delivered was taken up or still waits, in order. |
| Lines.SplitLinesIsLines | internal/source/source.go:49-58 | Splitting and dropping an empty last piece gives the lines. |
| Lines.LinesExactly | internal/source/source.go:49-58 | No line holds a newline, and the lines written one by one are the data, up to a newline at its end: there is one way to cut. |
| Lines.LastLines | internal/source/file.go:307-406 | For any bytes and any buffer boundaries the stream yields the last n lines and the line count, and fails exactly when a line exceeds the cap. |
| Lines.ReadTail | internal/source/file.go:175-197 | The blocks read backwards make a suffix that is the whole file or holds more than n newlines, within the cap. |
| Lines.SuffixDecidesTail | internal/source/file.go:175-197 | A suffix with more than n newlines has the same last n lines as the file. |
| Lines.TailFile | internal/source/file.go:103-128 | Reading from the end, splitting and trimming gives the last n lines of the whole file. |
| FileSearch.SearchFile | internal/source/file.go:437-492 | The streaming callback with its bounded window shows exactly the lines near the hits it counts. |
| FileSearch.HitsExactly | internal/source/file.go:452-470 | The hits are exactly the matching lines from the cursor on. |
| FileSearch.LimitsExactly | internal/source/file.go:418-436 | Up to 50 lines of context, 1 to 200 matches, 200 files; a cursor names a file and a line, and without one the search starts at the first line. |
| FileSearch.Search | internal/source/file.go:418-499 | A page shows, file by file, exactly the lines near the first Max matches from the cursor on; the next cursor is the first match not counted and is absent exactly when none remains; a bad cursor or unreadable file fails. |
| FileSearch.PagesEnd | internal/source/file.go:437-499 | Following the cursors always comes to a last page, after at most one page per match: for every start and any Max on each page there is a complete chain. |
| FileSearch.PagesPartitionHits | internal/source/file.go:437-499 | Over a chain of pages the counted hits are all matches, in order, each once; every page but the last counts exactly its Max. |
| FileSearch.PagesShowSame | internal/source/file.go:437-499 | The union of the pages' lines is what one unbounded search shows. |
| FileSearch.PageOrdered | internal/source/file.go:437-499 | Within a page, lines come file by file in increasing order, each once. |
| ArtifactSearch.Search | internal/artifact/artifact.go:167-213 | The nested loops compute one page of the walk, whose lines ArtifactSearch.AllInExactly pins down. |
| ArtifactSearch.AllInExactly | internal/artifact/artifact.go:177-200 | Behind line e, a source shows in increasing order and once exactly the lines at most Before ahead of a match, or at most After behind a match that opens its own context, with their text and mark. |
| ArtifactSearch.AllFromExactly | internal/artifact/artifact.go:177-183 | Over all sources, a line is shown exactly if it is to be shown in a source of the filtered name, or in any without a filter. |
| ArtifactSearch.Read | internal/artifact/artifact.go:216-222 | Lines from..to, clipped to the source. |
| ArtifactSearch.PageAdvances | internal/artifact/artifact.go:167-213 | A page that is not done moves its cursor forward, so following cursors ends. |
| ArtifactSearch.PageStops | internal/artifact/artifact.go:200-206 | A page stops when Max is reached and passes it by no more than one block. |
| ArtifactSearch.UnboundedPage | internal/artifact/artifact.go:167-213 | A search whose Max is not reached shows everything on one page. |
| ArtifactSearch.PagesExact | internal/artifact/artifact.go:167-222 | Unless the query is cut, for any Max on each page, the pages in order show exactly what one unbounded search shows, marks included. |
| ArtifactSearch.MatchesAreShown | internal/artifact/artifact.go:188-196 | The pages report exactly as many matches as they show marks, cut or not. |
| ArtifactSearch.MatchesAddUp | internal/artifact/artifact.go:167-213 | Unless cut, the pages' match counts add up to that of one unbounded search. |
| ArtifactSearch.PagesCut | internal/artifact/artifact.go:167-213 | When the query is cut, some Max makes the pages end early. |
| ArtifactSearch.PagesExactIff | internal/artifact/artifact.go:167-213 | Paging is exact for every Max if and only if it is not so that the search is filtered to a name, the blocks of a source of that name reach its last line, and a later source of the same name has a match. |
| ArtifactSearch.SimplyNotCut | internal/artifact/artifact.go:167-213 | Without a filter, or with pairwise different source names, no query is cut and paging is exact. |
| ArtifactSearch.SharedNameLosesMatches | internal/artifact/artifact.go:167-213 | Two sources of one name, a match in each, Max 1: the first page says it is done and the second match is never shown. |
| Redaction.NameInjective | internal/redact/engine.go:32-42 | A placeholder's text determines its category and number. |
| Redaction.NamePattern | protocol/blob.go:22 | A placeholder has the form of the pattern: category, `#`, a number from 1 on without leading zeros. |
| Redaction.NumbersInUse | internal/redact/engine.go:32-42 | The numbers in use in a category are exactly 1..n. |
| Redaction.PlaceholdersDistinct | internal/redact/engine.go:32-42 | Distinct (category, value) pairs have distinct placeholders. |
| Redaction.MappingExact | internal/redact/engine.go:43-51 | The mapping leads from every placeholder in use to its value and holds nothing else. |
| Redaction.ApplyRulesOk | internal/redact/engine.go:82-116 | After any rules, replacements are disjoint, lie in the line, and each stands for the text it replaced. |
| Redaction.SortInLine | internal/redact/engine.go:117-125 | Sorting disjoint replacements puts them one behind the other. |
| Redaction.RedactionInvertible | internal/redact/engine.go:58-142 | For any rules, keep set and lines, expanding every inserted placeholder through this mapping or any later one gives the joined input lines back, key blocks included, and output lines plus collapsed lines are as many as the input's. |
| Redaction.PlaceholdersStable | internal/redact/engine.go:32-42 | A value keeps its placeholder across calls. |
| Redaction.FirstRuleReplaces | internal/redact/engine.go:82-116 | The first rule sees the whole line: each of its matches that is neither kept nor, for an address rule, no address stands in the output as its placeholder, at its place. |
| Redaction.SecretsReplaced | internal/redact/engine.go:82-127 | Whatever a rule of any priority matches in what earlier rules left of the line, and is neither kept nor, for an address rule, no address, stands in the output as the placeholder of its value in the rule's category, at its place. |
| Redaction.OnlySecretsReplaced | internal/redact/engine.go:82-127 | Every placeholder in the output stands for such a match of some rule. |
| Redaction.RuleReplacesExactly | internal/redact/engine.go:84-115 | A rule replaces exactly its matches in the maximal stretches that earlier rules left, and keeps what those replaced. |
| Redaction.KeyBlockCollapses | internal/redact/engine.go:63-79 | A key block that is neither switched off nor kept becomes one placeholder for all its lines: to the first end marker within 64 lines, or the begin line alone. |
| Redaction.OtherLinesByRules | internal/redact/engine.go:63-80 | Every other line is redacted by the rules, alone. |
| Redaction.TurnsFollow | internal/redact/engine.go:58-80 | A redaction is one such turn after the other, each behind the last line of the one before. |
| Redaction.RenderAppend | internal/redact/engine.go:118-126 | The output is written piece by piece, text and placeholders as they are. |
| RedactEngine.Engine.Placeholder | internal/redact/engine.go:32-42 | A known value gets its placeholder, a new one the next number of its category; the table stays in order. |
| RedactEngine.Engine.Mapping | internal/redact/engine.go:43-51 | Whatever order the tables are walked in, the result is the mapping of the table. |
| RedactEngine.Engine.Redact | internal/redact/engine.go:58-142 | The loops with the taken array and the growing table produce the specified lines, counts of redacted and collapsed lines, and table; what those lines are is pinned down by the lemmas on turns, rules and key blocks. |
| RedactEngine.Audit.SaveMapping | internal/serve/audit.go:101-110 | When it returns without error the saved mapping is the engine's, although only sizes are compared; a failed write leaves what was saved. A session keeps its hypothesis, that what is saved belongs to an earlier table, from the first result to the last. |
| RedactEngine.SameSizeSameMapping | internal/serve/audit.go:101-110 | Of a table and a later one, mappings of equal size are equal. |
| RedactEngine.FollowsGrows | internal/serve/audit.go:101-110 | What was saved for an earlier table stays so while the table grows. |
| Blobs.ChunkCount | protocol/blob.go:45-50 | The least number of chunks that hold the bytes, for 0 < n <= 128 MiB, and an error otherwise. |
| Blobs.SplitChunks | protocol/blob.go:52-60 | As many chunks as needed, none empty, the i-th the i-th stretch of the plaintext. |
| Blobs.ChunksJoin | protocol/blob.go:52-60 | The chunks in order are the plaintext. |
| Blobs.BlobAD | protocol/blob.go:62-68 | The buffer holds version, index and count in their fixed places. |
| Blobs.ADInjective | protocol/blob.go:62-68 | The associated data fixes index and count. |
| Blobs.ADLayout | protocol/blob.go:62-68 | Version, index and count read back from their fixed places. |
| Blobs.SealChunkExactly | protocol/blob.go:88-93 | Accepts exactly an index below a count of 1 to 128 and a chunk that is not empty, not too long, and full unless it is the last. |
| Blobs.OpenChunkExactly | protocol/blob.go:95-104 | Opens only what was sealed under this index and count and has a length in range, and all of that. |
| Blobs.UnsealIsMember | protocol/blob.go:95-119 | What opens is exactly what was sealed under that key, nonce and data. |
| Blobs.SourcesOk | protocol/blob.go:174-190 | One pass with a running offset decides that the sources lie end to end, cover the plaintext and have known kinds. |
| Blobs.Validate | protocol/blob.go:158-196 | Accepts a manifest if and only if it is valid. |
| Blobs.ValidManifestTiles | protocol/blob.go:174-190 | A valid manifest gives every byte of the plaintext to exactly one source and no byte outside it to any. |
| Collect.Run | internal/collect/run.go:203-252 | The loop over sources and lines builds the specified plaintext and manifest, or one of the three errors. |
| Collect.CollectIsValid | internal/collect/run.go:203-252 | Collecting succeeds exactly when there is something and it fits the cap; it is too large, or without lines, exactly then; the last size check never fails; with any well-formed hashes the manifest is valid. |
| Collect.SourceSlice | internal/collect/run.go:208-226 | The range recorded for a source holds that source's lines. |
| Collect.LinesOfRender | internal/collect/run.go:217-220 | Reading rendered lines back gives the lines, and the line count is right if and only if no line holds a newline. |
| Collect.ChunksPassGuards | protocol/blob.go:88-93 | Every chunk of a collected plaintext passes the sealing guards. |
| Collect.Upload | internal/collect/run.go:305-340 | Whatever the relay answers, what was sealed and what was sent are prefixes of two fixed lists with the manifest last; success means both are complete. |
| Collect.BlobNoncesOnce | protocol/blob.go:70-74 | No nonce is used twice under one blob key. |
| Load.FromPlaintext | internal/artifact/artifact.go:118-141 | Returns the lines of every range, repaired, if the manifest is valid and length and line counts agree, and the right error otherwise. |
| Load.StartsWithFinal | internal/artifact/artifact.go:36-65 | Whatever the relay says, only the collector's own manifest gets past the checks. |
| Load.ApplyKeeps | internal/artifact/artifact.go:69-107 | Each step of each worker keeps: indexes are handed out once, finished stretches hold their chunk, nothing is lost without a cancel. |
| Load.CopiesDisjoint | internal/artifact/artifact.go:94-104 | No two workers write the same stretch. |
| Load.WorkersRebuild | internal/artifact/artifact.go:66-116 | For every interleaving, workers that all end without error or cancel leave the whole plaintext. |
| Load.CheckExactly | internal/artifact/artifact.go:84-101 | A worker takes a chunk exactly if its hash is the manifest's, it opens under its index and count, and its length is what the manifest leaves for it. |
| Load.FirstErrorKept | internal/artifact/artifact.go:102 | The first refusal is the error a load reports; no later step changes it, and it stops everybody. |
| Load.HashesInOrder | internal/collect/run.go:307-314 | The hashes in the uploaded manifest are those of the sealed chunks, in order. |
| Load.CutCollected | internal/artifact/artifact.go:118-141 | Cutting a collected plaintext gives the sources back if no line holds a newline, and fails otherwise. |
| Load.LoadIsExact | internal/artifact/artifact.go:36-141 | For any relay, any answers and any interleaving, a load that succeeds returns exactly the collected lines of every source. |
| Load.OriginalMeta | internal/artifact/artifact.go:118-141 | Name, kind, target and line count of a loaded source are those of the collected one, line by line. |
| Load.HonestLoad | internal/artifact/artifact.go:36-141 | After a finished upload, with an honest relay, a load succeeds with the collected lines if and only if no line holds a newline. |
| Load.LoadProgress | internal/artifact/artifact.go:78-112 | A worker that has not ended can step and each step uses up work: at most 4 * chunks + 4 steps. |
| EndToEnd.Gather | internal/collect/run.go:208-210 | One engine redacts the sources in order; lines, categories and table are those of the specification. |
| EndToEnd.MappingExpands | internal/collect/run.go:208-226 | The mapping after all sources expands every source's lines, whichever was redacted first. |
| EndToEnd.LoadedExpands | internal/collect/run.go:203-252 | For any relay and any interleaving, a successful load returns the redacted lines of every source, and the collector's mapping leads back from them to the lines that were read. |
| StoreSpec.WrittenStays | relay/store.go:28-30 | Over any further calls, an object reads back with the same bytes until its session is deleted or swept. |
| StoreSpec.ChunkLaws | relay/memory.go:53-76 | A chunk is written once, inside the range; it reads back as written, is counted, and a second write changes nothing. |
| StoreSpec.ManifestLaws | relay/memory.go:78-100 | A manifest is written once per session and reads back as written. |
| StoreSpec.SessionLaws | relay/memory.go:33-51 | A new session is empty and described as given, an existing one is left alone, a deleted one is not found by any call. |
| StoreSpec.OthersAlone | relay/store.go:28-39 | A call on one session leaves every other alone, and a sweep takes exactly the expired ones. |
| MemoryStores.MemoryStore.Create | relay/memory.go:33-41 | Answer and new state as specified; an existing session is left alone. |
| MemoryStores.MemoryStore.Describe | relay/memory.go:43-51 | The running counter is the number of chunks stored. |
| MemoryStores.MemoryStore.PutChunk | relay/memory.go:53-66 | Writes a chunk once, inside the range, and counts it. |
| MemoryStores.MemoryStore.GetChunk | relay/memory.go:68-76 | Returns the stored bytes, or not found. |
| MemoryStores.MemoryStore.PutManifest | relay/memory.go:78-90 | Writes the manifest once. |
| MemoryStores.MemoryStore.GetManifest | relay/memory.go:92-100 | Returns the stored manifest, or not found. |
| MemoryStores.MemoryStore.Delete | relay/memory.go:102-110 | Removes exactly the named session. |
| MemoryStores.MemoryStore.Sweep | relay/memory.go:112-120 | Removes exactly the expired sessions. |
| DirStores.ChunkNames | relay/dir.go:98-112 | The chunk directory lists exactly the chunks, by decimal index, so the listing is as long as the set of chunks. |
| DirStores.SessionNames | relay/dir.go:167-181 | The root lists exactly the sessions. |
| DirStores.DirStore.WriteOnce | relay/dir.go:40-58 | The name appears with its whole contents or not at all, an existing file is untouched, and the temporary file is gone. |
| DirStores.DirStore.Create | relay/dir.go:60-80 | Answer as specified; the tree mirrors the new store. |
| DirStores.DirStore.Describe | relay/dir.go:92-119 | The recount by listing is the number of chunks stored. |
| DirStores.DirStore.PutChunk | relay/dir.go:121-130 | Answer as specified; exactly the chunk's file is added. |
| DirStores.DirStore.GetChunk | relay/dir.go:132-142 | Returns the stored bytes, or not found. |
| DirStores.DirStore.PutManifest | relay/dir.go:144-149 | Answer as specified; exactly the manifest's file is added. |
| DirStores.DirStore.GetManifest | relay/dir.go:151-157 | Returns the stored manifest, or not found. |
| DirStores.DirStore.Delete | relay/dir.go:159-165 | Removes exactly the session's subtree. |
| DirStores.DirStore.Sweep | relay/dir.go:167-196 | Removes exactly the expired sessions and reports how many it removed and how many are left. |
| StoresAgree.RunBoth | relay/store.go:31-39 | Any sequence of calls and sweeps gets the same answers from the memory store and the directory store. |
| ServeScope.UnderIsPrefix | internal/source/file.go:34-37 | The test on the relative path says exactly that the directory is an ancestor. |
| ServeScope.PermitsExactly | internal/source/file.go:41-43 | A path is permitted exactly if it was granted by name or lies at or below an allowed directory. |
| ServeScope.PathsCoverOneName | internal/source/file.go:41-43 | A granted single name covers that name and nothing under it. |
| ServeScope.PermitsMonotone | internal/source/file.go:41-43 | A wider scope permits whatever a narrower one does. |
| ServeScope.Resolve | internal/serve/jobs.go:131-170 | The walk up to the nearest existing ancestor computes the specified answer, which ServeScope.ResolveExactly pins down. |
| ServeScope.ResolveExactly | internal/serve/jobs.go:131-170 | The answer is c exactly if the name is permitted and not refused on opening, it stands for c through links or through its nearest existing ancestor, and c is permitted; it is outside the scope, with the directory to allow, exactly if the name is not permitted. |
| ServeScope.NearestAncestor | internal/serve/jobs.go:147-161 | A missing path resolves if and only if an ancestor resolves with only missing names below it, and then to that ancestor plus those names. |
| ServeScope.GrantSuffices | internal/serve/jobs.go:86-105 | After granting a directory, what lies under it and under its resolution is permitted. |
| ServeScope.ScopeGrantExactly | internal/serve/jobs.go:86-105 | A directory grant exists exactly for a directory that resolves: the directory, and where it leads if that is elsewhere. |
| ServeScope.ScopeGrantCovers | internal/serve/jobs.go:86-105 | Beyond the scope it covers exactly what lies at or below the two. |
| ServeScope.PathGrantExactly | internal/serve/jobs.go:110-127 | A name grant exists exactly for a name that is there, resolves and is no root: the name, and where it leads if that is elsewhere. |
| ServeScope.PathGrantCovers | internal/serve/jobs.go:110-127 | Beyond the scope it covers exactly the two names. |
| ServeScope.Expand | internal/serve/jobs.go:206-245 | Keeps the permitted, readable matches, each once and in order, and fails above 200. |
| ServeScope.KeptSound | internal/serve/jobs.go:222-242 | Every kept match is permitted and none is kept twice. |
| ServeScope.KeptExactly | internal/serve/jobs.go:222-242 | A glob keeps exactly the regular files, new enough, that its matches lead to inside the scope, each once and in the order in which the matches first lead there. |
| ServeScope.Prepare | internal/serve/jobs.go:247-381 | Checks identifier, name, class and every limit of the parameters, then classifies a job as ready with its paths, invalid, or outside the scope with what it asked for. |
| ServeScope.PathJobExactly | internal/serve/jobs.go:368-376 | A job that reads one path is ready exactly if all about it is valid and the name it asks for leads, inside the scope, to the path it is ready with. |
| ServeScope.SearchExactly | internal/serve/jobs.go:290-330 | A search is ready exactly if all about it is valid, its base leads somewhere inside the scope, at most 200 files are found and the cursor points at one. |
| ServeScope.ReadyPathsResolved | internal/serve/jobs.go:247-381 | Every path of a ready job is where a name it asks for, or a match of its glob, leads inside the scope. |
| ServeScope.ReadRangeSmall | internal/serve/jobs.go:266-279 | A valid read covers 1 to 500 lines from line 1 or later; left out, the last line is 499 behind the first. |
| ServeScope.LimitsExactly | internal/serve/jobs.go:280-300 | Up to 500 lines of a tail, 50 lines of context and 200 matches of a search, 500 journal lines, either the last ones or a window. |
| ServeScope.PreparedIsCleared | internal/serve/jobs.go:247-381 | Ready means identifier, name, class and parameters are valid and every path is permitted; outside the scope means all that is valid and the job asks for an uncovered path, and names its directory. |
| ServeRuns.GrantsWereOffered | internal/serve/run.go:409-451 | In every accepted trace the scope grows only at level 1, only after the answer "approve" to this envelope and only by offered directories; single names only after "allow once", and only offered ones. |
| ServeRuns.OffersAreRequests | internal/serve/run.go:270-298 | Every offer stems from a job of this envelope that asked for something outside the scope, in the form the file system gave at a moment between the envelope's beginning and the question. |
| ServeRuns.RanWasApproved | internal/serve/run.go:304-316 | At level 1 a job runs only after the operator answered its envelope with something other than "deny". |
| ServeRuns.RanWasValidated | internal/serve/run.go:332-355 | Every job that ran had been prepared, at a moment between the beginning of its envelope and its run and in a scope no wider than the one in force, with exactly the paths it ran with. |
| ServeRuns.RanPathsResolved | internal/serve/run.go:332-355 | Every path a job ran with is where a name it asks for, or a match of its glob, led at a moment of its envelope inside a scope no wider than the one in force. |
| ServeRuns.RanIsCleared | internal/serve/run.go:332-355 | Hence its identifier, name, class and parameters were valid and the scope in force covers every path. |
| ServeRuns.ScopeIsGrants | internal/serve/run.go:409-451 | The scope is at all times the first scope, the directories added so far and the names added for the envelope at hand. |
| ServeRuns.RanWithinGrants | internal/serve/run.go:355 | Every path given to a job lies in the first scope, under a directory granted earlier, or is a name granted once and not yet revoked. |
| ServeRuns.AllowedOnlyGrows | internal/serve/run.go:409-432 | Allowed directories are never taken back or reordered. |
| ServeRuns.LevelZeroFixed | internal/serve/run.go:271-277 | At level 0 nobody is asked and neither list ever changes. |
| ServeRuns.OneResultPerJob | internal/serve/run.go:240-402 | Posted results followed by what is still to do are exactly the jobs owed an answer, in order; after a failure they are a prefix. |
| ServeRuns.ResultNumbers | internal/serve/run.go:460-484 | Results are numbered 1, 2, 3, ... without a gap. |
| ServeRuns.ResultsMatchRuns | internal/serve/run.go:332-401 | An "ok" or "error" result is posted only for a job that ran since the last result, a "rejected" one only if none did. |
| ServeRuns.AnswersHaveReasons | internal/serve/run.go:332-401 | A malformed message is rejected; a job is rejected only if at a moment of its envelope it could not be prepared, nor a widening offered, or again once all that was agreed to had been granted; one that did not run is reported denied only after the answer "deny" to its envelope; an approved one reported denied ran and was dropped on review. |
| ServeRuns.CountsAddUp | internal/serve/run.go:484-493 | The four kinds of result add up to all results. |
| ServeRuns.BegunInTrace | internal/serve/run.go:225-230 | Envelopes are numbered 1, 2, 3, ... in the order they are handled. |
| ServeRuns.TableGrows | internal/redact/engine.go:32-42 | Over a whole session the placeholder table stays in order and only grows. |
| ServeRuns.PostedMappingSaved | internal/serve/run.go:464-474 | Whenever a result is posted, the mapping in the local copy is the engine's at that moment. |
| ServeRuns.PostedRestores | internal/serve/run.go:356-474 | The lines of a posted result come from one run, redacted, and the mapping saved when that result or any later one was posted leads back from them to what the run read. |
| Serve.ExtendedExact | internal/serve/run.go:409-432 | Widening keeps the list, adds everything offered, nothing else, and nothing twice. |
| Serve.TaskCases | internal/serve/run.go:240-257 | An envelope asks for one answer for a malformed message or plan and otherwise for one per job, in order; what makes a plan malformed is stated in full. |
| Serve.CapResult | internal/serve/run.go:525-545 | Keeps the longest front part of the lines that is small enough as text and as an envelope. |
| Serve.ChatIsAsked | internal/serve/run.go:188-192 | After the join the level is 0 if and only if it was set so and the MCP did not join through a chat. |
| Serve.Session.constructor | internal/serve/run.go:100 | A session starts with the given scope, an empty table, nothing saved, nothing posted and both numbers at 1; joined through a chat it never runs at level 0. |
| Serve.Session.Send | internal/serve/run.go:460-496 | Writes the local copy and the mapping, then seals and posts one due result under the next number as the protocol's send step does; number and counters move if and only if nothing failed. |
| Serve.Session.Reject | internal/serve/run.go:453-459 | Posts one rejection for the message at hand. |
| Serve.Session.CanAllowOnce | internal/serve/approve.go:64-71 | The scan finds exactly whether every widening can be served by names alone. |
| Serve.Session.Approval | internal/serve/approve.go:73-144 | The first key that answers decides, and "allow once" answers exactly where it is offered. |
| Serve.Session.PrepareOne | internal/serve/run.go:263-301 | A row is clear with the paths preparation gave, faulty for a reason, or pending with a justified offer, which level 0 never makes; each with a moment of this envelope. |
| Serve.Session.PrepareAll | internal/serve/run.go:258-303 | Every job gets a row, and every pending row a widening that leads back to it. |
| Serve.Session.Widen | internal/serve/run.go:409-451 | Extends exactly one of the two lists by exactly what was offered; the other is unchanged. |
| Serve.Session.PrepareAgain | internal/serve/run.go:327-330 | After widening no row is pending; each is clear as prepared in the first or the wider scope, or faulty for a reason. |
| Serve.Session.Execute | internal/serve/run.go:355-369 | Runs a job only as it was prepared; the event carries the lines it gave, and they are redacted by the engine, whose table stays the monitor's. |
| Serve.Session.Report | internal/serve/run.go:370-400 | Posts the lines cut to size under "ok" or "error"; only at level 1 and for flagged lines the operator is asked, and the key decides between that and "denied". |
| Serve.Session.RunApproved | internal/serve/run.go:347-400 | Runs an approved job with the paths it was prepared with and posts one result for it, cut to size, or "denied" if the operator drops it. |
| Serve.Session.HandleJobs | internal/serve/run.go:258-402 | Answers every job of the envelope or fails for an outside reason; the single names are put back on every exit, granted or not; at level 0 the scope is unchanged. |
| Serve.Session.Handle | internal/serve/run.go:240-402 | From the beginning of an envelope to its last result every event is one the monitor allows and every step one of the protocol; failure ends the session and has an outside reason; a successful one goes on exactly while both numbers last. |
| Serve.Session.Receive | internal/serve/run.go:225-238 | An envelope that does not open under the next number changes nothing; one that does is handled. |
| Serve.Session.Loop | internal/serve/run.go:216-239 | The trace of a whole run is accepted and the endpoints' state is reached by a run of the protocol that received exactly these envelopes, with the MCP free in between; every envelope handled was sealed by the MCP under its number; the sealed results are the posted ones in order, and perhaps one whose post failed; jobs = nextResult - 1 >= sent + denied + rejected, with equality to the posted results of each kind when nothing failed. |

## Left out

- HTTP routing, JSON and header parsing, the retry loop of the relay client, rate limits and allowances: a post is one step that may be lost or duplicated.
- Real cryptography, base32 and base64, random numbers and clocks: idealised, arbitrary or integers.
- Regex engines, glob syntax, link resolution, `os.Root`, gzip, `journalctl`, `docker`, `ps`, `df` and `systemctl`: arbitrary functions or answers.
- Terminal screens, message text, command-line flags and configuration: what they show or set is an input of the model (keys pressed, level, scope, rules), and no property proved here depends on its wording.
- The R2 store: it wraps a library that is not part of this model and does not check the chunk index.
- Agreement between the live registry and the store: the store is written before the registry lock is taken, so it is not an invariant at every step.
- Gluing live result pages through `cutCursor`, and progress of the MCP's text-cap paging: neither is promised without assumptions on key blocks or line sizes.
- RedactEngine.Engine.Redact: leaves out the counts per category and the flags of the result, which do not influence the lines, the table or the mapping.
- The review of flagged strings: whether a result holds some is an input; what the operator answers decides between sending and dropping.
- `Files.List`, `Files.ReadLines`, `Source.Tail`, `Source.Context`: direct readings of the lines modelled.
- Redaction works on sequences of characters; UTF-8 repair at load time is an arbitrary function.
- Collect.Run: leaves out the manifest's time, collector name, redaction counts and notes, which neither validation nor loading reads.
- Collect.Upload: leaves out the TTL check, session creation and the local copy, which come before any chunk is sent and can only end the upload early.
- The audit log's entries and the files of `audit.result`: that their writes may fail at any point, which ends the session, is modelled; their contents are not.
- The `next` cursor of a live result: it is part of the result's encoding, which is an arbitrary function.
- Crashes in the middle of a directory-store call, and concurrent store calls: the comparison of the stores is over sequences of complete calls.
- Whether a regex compiles, a time parses, a unit or container name is valid: inputs of a job's parameters; the limits on numbers are modelled.
- ServeScope.Prepare: does not distinguish the error texts of an invalid job.
- RelayLocks.ScriptOrdered: the scripts list the lock operations of each handler path and leave out what happens between them.
- McpServer.Server.Await: the plan's and the single job's tool calls differ only in what they render, which is not modelled.

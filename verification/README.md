# NANDA registry: a verified model

NANDA is a two-level agent registry. A signed 120-byte record per agent sits in a sequence-guarded
index. The record names, by hash, a pointer to a content-addressed facts document and commits to
the document's credentials. Resolving an agent walks from its id through index, signature,
freshness, pointer, document, validation, commitment and trust to an endpoint, and writes one event
to a hash-chained audit log. This project models the stores, the encodings and the services, and
proves what the hashing, signing and indirection are for.

The main results:

* **Resolving is looking up a plain map** (`System.ResolveIsPlainLookup`,
  `Decisions.ResolveAllowsExactly`). In every run of registrations that advance write by write in
  any interleaving and may stop anywhere, status updates, resolves and clock readings, `Resolve`
  gives exactly what a map from normalised id to the highest-sequence registration gave when the
  index was read, whatever happens between its four reads. No signature, pointer or commitment
  check ever fails.
* **No dangling references** (`System.ReferentialIntegrity`, `Overlap.OverlappingPutsStayBacked`).
  At every point of every interleaving, every current and archived record leads to a stored
  document with the credentials it commits to, if and only if a pointer store is configured or
  there is no record. The second theorem runs the same services with every index write taken apart
  into the statements of its transaction.
* **Index writes** (`Index.LineageIsMaxima`, `IndexConcurrent.ConcurrentPutsAreSerial`,
  `IndexConcurrent.ConcurrentPutsNeverLowered`, `IndexConcurrent.FirstInsertRace`). Serially an
  agent's lineage is the strict left-to-right maxima of the offered sequences. Interleaved under
  the row lock, puts are serial once the row exists and nobody in flight has read it as absent.
  That a sequence never goes backwards is false: two first inserts that overlap lower it, from every
  state in which the agent has no row. The exact condition is proved for every reachable state.
* **Archive order** (`Index.HistoryOrderExactly`, `Index.HistoryReversed`). `History` returns
  the archived lineage in order exactly when its archive times do not run backwards; a put that starts first
  and commits second makes them.
* **Audit log** (`Audit.HeadCommitsToLog`, `AuditConcurrent.ConcurrentAppends`,
  `Replay.LogVerifies`, `Replay.StatusReplayExactly`, `Replay.SequenceReplay`). The head hash
  commits to the whole log; concurrent appends never fork or lose an event; replaying the log gives
  every agent's sequence, and a credential's status exactly when the update written last and the
  update logged last said the same. Two updates of one credential that overlap can break that
  (`Replay.CrossedUpdates`); updates that do not overlap never do (`Replay.StatusReplay`).
* **Encodings** (`AgentFacts.CredentialSetTextIsContent`, `AgentAddr.RecordBijection`,
  `CanonicalJson.CanonicalTextIsMeaning`, `Observability.LabelsTextInjective`).

## How to read it

Foreign calls are parameters, never axioms. SHA-256 is any function from texts to 32 bytes; where a
result needs two hashes to differ, it assumes that no two texts of a finite set collide, and the set
is exactly the facts, pointers and ids the run hashes (`System.Texts`), or it ends in an explicit
colliding pair. Ed25519 is any scheme whose verification accepts what the matching key signed
(section 5.1 of RFC 8032). `json.Valid`, `json.Unmarshal`, URL parsing, base64, random event ids,
clock readings and whether a store takes a write are parameters too.

Text is a sequence of Unicode scalar values; comparing it character by character is comparing its
UTF-8 bytes. A JSON document is the tree its text parses to, with members in written order and
duplicates kept. Instants are nanoseconds since the start of year 0. `Prelude`, `Text`, `Clock` and
`Json` are the shared vocabulary. One module follows each source package; stores and services are
classes whose methods are proved against functions of their state. `System` puts registrations,
status updates and resolves into one machine whose steps are the single writes of those functions:
four for a registration, two for a status update. `Overlap` joins it with the transactions of
`IndexConcurrent`, `Replay` reads its log, `Decisions` says what its answers mean, and `EndToEnd`
registers and then resolves.

Where the documentation and the code differ, the code is followed: `docs/API.md` line 97 shows a
facts pointer of the form `sha256:<hex>`, and the code builds `fs:<path>`.

## Model

| member | source | states |
|---|---|---|
| AgentAddr.NormalizeWithIdempotent | internal/agentaddr/identity.go:12-34 | whatever the table of capitals, a normalised id is non-empty and normalises to itself, so an id and its normal form hash alike |
| AgentAddr.NormalizedForm | internal/agentaddr/identity.go:12-25 | whatever the table of capitals, an id is accepted exactly when trimming leaves something without inner white space; the result has neither white space nor capitals |
| AgentAddr.PayloadBijection | internal/agentaddr/agentaddr.go:125-152 | laying out and reading back the 56-byte payload are inverse in both directions, big-endian fields included |
| AgentAddr.RecordBijection | internal/agentaddr/agentaddr.go:87-112 | decoding accepts exactly the encodings of records with version 1 and ttl above 0, and returns the record encoded |
| AgentAddr.EncodePayload | internal/agentaddr/agentaddr.go:125-140 | the buffer filled field by field is the payload's layout, refused for another version or a zero ttl |
| AgentAddr.Decode | internal/agentaddr/agentaddr.go:87-101 | a decoded record encodes to the input bytes and has a valid payload; the error cases in order |
| AgentAddr.Sign | internal/agentaddr/agentaddr.go:69-85 | the record signed is the layout with its signature, or the key or payload error |
| AgentAddr.SignedRecord | internal/agentaddr/agentaddr.go:69-123 | a signed payload verifies under the matching key, decodes from its bytes and reads back as the payload |
| AgentFacts.CredentialSetHash128 | internal/agentfacts/credential_set.go:29-72 | sorting capabilities, then encoded credentials, in place gives the hash of the canonical bytes |
| AgentFacts.CredentialSetTextIsContent | internal/agentfacts/credential_set.go:29-72 | the committed bytes are equal if and only if the credentials are equal as a bag, each with its capabilities as a bag |
| AgentFacts.CredentialSetHashBinds | internal/agentfacts/credential_set.go:29-72 | equal commitments mean equal contents, unless the two texts collide |
| AgentFacts.ValidateExactly | internal/agentfacts/agentfacts.go:91-162 | validation passes if and only if the facts are the agent's, in force, grant the capability and list only serving endpoints; an endpoint error names the first that does not |
| Facts.AcceptedPaths | internal/facts/filesystem.go:74-88 | a path is accepted exactly when it is a relative walk that never climbs above the root and ends below it; its clean form is plain names |
| Facts.FileRoundTrip | internal/facts/filesystem.go:28-72 | what was put is read back under its pointer, and other documents stay as they were unless they share its digest |
| Facts.PathDeterminesDigest | internal/facts/filesystem.go:68-72 | documents with one path have one digest |
| Facts.FilesystemStore.Put | internal/facts/filesystem.go:28-43 | the document lies at the path of its digest, which is the path returned; a refused write changes nothing |
| Facts.PostgresPointerStore.PutFactsPointer | internal/facts/postgres_pointer_store.go:22-45 | one row per pointer hash, overwritten in place; empty scheme and path are refused in that order |
| Facts.PointerRoundTrip | internal/facts/postgres_pointer_store.go:22-61 | a pointer that was put is found under its own hash, and every other hash finds what it found before |
| Index.PostgresStore.Put | internal/index/postgres.go:25-110 | the two tables and the error are those of the serial put; an unavailable database changes nothing |
| Index.PostgresStore.Get | internal/index/postgres.go:137-160 | the scanned current row, or not found |
| Index.PostgresStore.History | internal/index/postgres.go:162-194 | the archived rows of the agent by archive time, then insertion, or the first scan error |
| Index.PutCases | internal/index/postgres.go:46-109 | a put replaces and archives exactly when it passes the checks and beats the current sequence; otherwise the tables stay |
| Index.PutKeepsWellFormed | internal/index/postgres.go:86-101 | hash, sequence and ttl columns of every row keep agreeing with the signed bytes |
| Index.RePutIsIdempotent | internal/index/postgres.go:58-66 | offering the current record again changes nothing, not even the update time |
| Index.LineageIsMaxima | internal/index/postgres.go:46-109 | from empty tables, archive in insertion order plus current record are exactly the offers that beat every earlier offer for the agent |
| Index.CurrentIsFirstGreatest | internal/index/postgres.go:46-109 | the current record is the first offer of greatest sequence |
| Index.OrderDoesNotMatter | internal/index/postgres.go:46-109 | with distinct sequences the order of the offers does not change the current record |
| Index.HistoryInOrder | internal/index/postgres.go:162-194 | on well-formed tables `History` never fails; it keeps the order of insertion if and only if the archive times of this agent do not run backwards, and then returns the archived records |
| Index.HistoryOrderExactly | internal/index/postgres.go:46-194 | after any run of puts the records returned are the archive in insertion order if and only if the agent's archive times do not run backwards |
| Index.HistoryReversed | internal/index/postgres.go:38-194 | three ascending puts, the second of which started after the third, are read back in reverse |
| IndexConcurrent.SerialEquivalence | internal/index/postgres.go:38-135 | from a settled state every interleaving leaves an agent what its puts leave one after the other in commit order, with the same results |
| IndexConcurrent.ConcurrentPutsAreSerial | internal/index/postgres.go:38-135 | the store itself: after any history, once the row exists and no put in flight read it as absent, whatever follows leaves the agent what the serial store makes of the puts decided since, each with its serial result, and the sequence never falls |
| IndexConcurrent.NeverLoweredExactly | internal/index/postgres.go:38-135 | in every state, locked or not: with a row, the sequence can never fall if and only if every put in flight that read it as absent either has upserted a sequence of at least the current one, or has not upserted yet and carries the sequence 2^32 - 1; without a row, if and only if all offers for the agent carry one sequence |
| IndexConcurrent.AbsentNeverLoweredExactly | internal/index/postgres.go:112-135 | where there is no row, the sequence can never fall if and only if no two offers of different sequences can be made |
| IndexConcurrent.ConcurrentPutsNeverLowered | internal/index/postgres.go:38-135 | the store itself, after any history: with a row the same condition on the puts in flight; without one, only for a hash that no agent id has |
| IndexConcurrent.FirstInsertRace | internal/index/postgres.go:112-135 | from every state without a row for the agent, two overlapping first inserts of different sequences can leave the lower one current and archive nothing |
| IndexConcurrent.PutViewIsPut | internal/index/postgres.go:46-109 | a put through the interleaved rules does to its agent what a put of the serial store does, with the same result |
| IndexConcurrent.RowsWereOffered | internal/index/postgres.go:68-101 | under every interleaving each current and archived row is one an offer wrote |
| CanonicalJson.CanonicalIdempotent | internal/audit/audit.go:147-168 | canonicalising twice is canonicalising once |
| CanonicalJson.SameMeaningIsEqualDecoding | internal/audit/audit.go:147-168 | decoding gives equal values exactly for documents that mean the same, the last duplicate of a key winning (section 4 of RFC 8259) |
| CanonicalJson.CanonicalTextIsMeaning | internal/audit/audit.go:147-168 | canonical bytes are equal if and only if the documents mean the same at every depth |
| CanonicalJson.ReorderedMembers | internal/audit/audit.go:147-168 | rearranging members with different keys leaves the canonical form alone |
| Json.PrintInjective | internal/audit/audit.go:221-237 | different trees have different compact texts, escapes included |
| Clock.Rfc3339Injective | internal/audit/audit.go:221-237 | times with the same JSON text are the same instant in the same zone |
| HashChain.ChainSnoc | internal/audit/audit.go:105-145 | a link extends a valid chain exactly when it points to the head and hashes right |
| HashChain.PrefixValid | internal/audit/memory.go:107-123 | accepted chains are closed under prefixes |
| HashChain.VerdictUnique | internal/audit/memory.go:107-123 | a chain has one verdict: none, or the first broken position and its reason |
| HashChain.VerifyChain | internal/audit/memory.go:107-123 | the walk returns that verdict |
| HashChain.HeadCommits | internal/audit/audit.go:138-145 | two valid chains with one head carry the same payloads, or an explicit pair of hashed texts collides |
| Audit.PayloadIsCovered | internal/audit/audit.go:221-237 | hashed payloads are equal if and only if every field the hash covers is, `omitempty` fields included |
| Audit.VerifyEvents | internal/audit/memory.go:107-123 | succeeds if and only if every event's previous hash and hash hold; its index is the first that breaks, with the reason |
| Audit.AppendKeepsChain | internal/audit/audit.go:105-136 | an event made behind the head keeps the chain valid |
| Audit.HeadCommitsToLog | internal/audit/audit.go:138-145 | two logs that verify and end in one hash agree in length and every covered field, or a collision is given |
| AuditStore.MemoryStore.Append | internal/audit/memory.go:20-38 | the log grows by exactly the event made behind its head, stays valid, and is unchanged on error |
| AuditStore.MemoryStore.Query | internal/audit/memory.go:60-98 | the clamped window of the matching events, in order, or the query error |
| AuditStore.MemoryStore.ListByAgent | internal/audit/memory.go:47-58 | exactly the agent's events, in order |
| AuditStore.MemoryStore.VerifyHashChain | internal/audit/memory.go:100-105 | every log reachable by appends is accepted |
| AuditStore.PagesConcatenate | internal/audit/memory.go:84-97 | the first n pages are the list up to where page n starts, and all of it once that is past its end |
| AuditStore.PagingCoversTheLog | internal/audit/memory.go:60-98 | asking page by page for any filter and limit 1 to 500 returns every matching event once, in order |
| AuditStore.ClampFits | internal/audit/memory.go:84-97 | with the offset clamped to the matches, offset plus limit is a machine integer however large the offset asked for |
| AuditStore.FullAnswerIsStable | internal/audit/memory.go:60-98 | a page that came back full comes back the same after any appends |
| AuditStore.LinkSurvivesStorage | internal/audit/postgres.go:56-65 | what storage gives back has the same link exactly when the time was whole microseconds, whatever happened to the document's layout |
| AuditStore.RowRoundTrip | internal/audit/postgres.go:186-224 | a canonical event comes back unchanged under exactly that condition, empty texts through NULL included |
| AuditStore.SqlAnswersLikeTheLoop | internal/audit/postgres.go:104-157 | filter, LIMIT and OFFSET over the rows return the rows of what the in-memory loop returns |
| AuditConcurrent.ConcurrentAppends | internal/audit/postgres.go:23-73 | under every interleaving of lock, read, insert, commit and rollback the committed rows in id order verify, and each committed append has one row |
| AuditConcurrent.CommittedReadBack | internal/audit/postgres.go:46-87 | every committed event is listed exactly as it was appended |
| Revocation.MemoryStore.SetStatus | internal/revocation/memory.go:23-49 | the record under the key is replaced, or an error and nothing changes |
| Revocation.MemoryStore.IsRevoked | internal/revocation/memory.go:66-75 | an unknown credential is not revoked; a malformed key is an error |
| Revocation.RevokedIsLastWrite | internal/revocation/memory.go:23-75 | a credential counts as revoked if and only if its last valid write said so |
| Trust.VerifyCapability | internal/trust/verifier.go:71-85 | nothing, or the last error, or a missing credential, as the search over the list decides |
| Trust.NewVerifier | internal/trust/verifier.go:54-69 | succeeds exactly when every issuer key has the right size, with the allowlist copied |
| Trust.VerifyIsGrants | internal/trust/verifier.go:87-144 | the chain of checks passes if and only if the credential meets every term at once |
| Trust.AcceptedIffGranted | internal/trust/verifier.go:71-85 | a list is accepted if and only if one of its credentials meets every term |
| Trust.OrderDoesNotDecide | internal/trust/verifier.go:71-85 | acceptance does not depend on the order of the credentials |
| Trust.RevokingNeverHelps | internal/trust/verifier.go:132-140 | revoking one more credential never turns a refusal into an acceptance |
| Trust.AcceptanceHasWitness | internal/trust/verifier.go:87-144 | after any status writes, acceptance rests on a credential whose last valid write did not revoke it |
| Trust.SigningPayloadInjective | internal/trust/verifier.go:168-180 | the signed bytes are equal if and only if the credentials agree in every field but the signature |
| Observability.PassesEscapeOnce | internal/observability/registry.go:232-237 | the three replacements, one after another, escape every character once |
| Observability.LabelRoundTrip | internal/observability/registry.go:232-237 | every label value is read back from its escaped, quoted form, whatever follows |
| Observability.FormatLabels | internal/observability/registry.go:216-230 | the text depends on the label map alone, not on the order it is walked in |
| Observability.LabelsTextInjective | internal/observability/registry.go:216-230 | label maps whose keys contain no `="` have equal texts if and only if they are equal |
| Observability.AmbiguousKeys | internal/observability/registry.go:216-230 | two labels and one label whose key contains a quoted value share a text |
| Observability.Registry.AddCounter | internal/observability/registry.go:145-152 | the sample under name and label text grows by the delta, modulo 2^64; all else stays |
| Observability.Registry.ObserveLatency | internal/observability/registry.go:154-171 | the statistics under the key take in the value; all else stays |
| Observability.StatsDescribeValues | internal/observability/registry.go:154-171 | until the counter wraps, count, sum, minimum and maximum are those of the values seen |
| Observability.ListingUnique | internal/observability/registry.go:104-143 | sample keys have one ascending listing |
| Observability.Registry.Render | internal/observability/registry.go:104-143 | the text is the lines of that listing, so it does not depend on map order |
| World.AppendedMeaning | internal/audit/audit.go:105-136 | a well-formed input is appended exactly when store and random source allow it, its fields and document survive, and the chain still holds |
| Registration.PrepareMeaning | internal/registration/service.go:122-139 | after validation only undecodable facts stop the record; it says what the request promised, passes the index's checks and verifies |
| Registration.Service.Register | internal/registration/service.go:108-162 | stores and result are those of the process run alone, write by write, stopping at the first failure with the earlier writes kept |
| Resolver.SelectIsPreferred | internal/resolver/service.go:382-396 | the endpoint chosen is the earliest of the best kind present; none exactly when no kind is supported |
| Resolver.Service.Resolve | internal/resolver/service.go:164-294 | response and log are those of the pipeline's first failing check or its answer, followed by one audit append |
| Resolver.AuditCompleteness | internal/resolver/service.go:316-380 | an audited resolve adds exactly one event, allowed exactly for a response, trust-denied exactly for a trust refusal; when the append fails nothing is returned |
| Resolver.CacheIsLargest | internal/resolver/service.go:235-239 | the cache time is the largest whole number of seconds within the endpoint's ttl and the record's life |
| Resolver.ValidFactsHaveEndpoint | internal/agentfacts/agentfacts.go:118-153 | validated facts have an endpoint to select, with a ttl of at least a second |
| Resolver.CacheBound | internal/resolver/service.go:235-287 | every response may be cached for at least one second and exactly as long as endpoint and record allow; the no-endpoint refusal never happens |
| Admin.Service.SetRevocationStatus | internal/admin/service.go:217-274 | status written first, event second; a lost event leaves the status written |
| Admin.Service.GetAgent | internal/admin/service.go:106-156 | the report of the agent's current record with its hash in hex, its times and its expiry, or the error |
| Admin.Service.GetRevocationStatus | internal/admin/service.go:185-215 | the status on record, active when there is none; reported as revoked exactly when a trust check would find the credential revoked |
| Admin.Service.ListAuditByAgent | internal/admin/service.go:169-183 | the query's answer for the normalised id |
| Admin.ExpiryAgrees | internal/admin/service.go:123-143 | reported expiry and resolver freshness agree but for records without a time and the last second of a record's life |
| System.PlainIsBest | internal/index/postgres.go:46-109 | the plain map holds, for every agent attempted, its first attempt of greatest sequence |
| System.FileGrows | internal/facts/filesystem.go:28-43 | putting a document never changes another, unless two texts collide |
| System.PointerGrows | internal/facts/postgres_pointer_store.go:22-45 | the upsert never changes another pointer, unless two texts collide |
| System.PutIsOffer | internal/registration/service.go:141-143 | the index write of a registration and the plain map's offer decide alike and change alike |
| System.RunSound | internal/registration/service.go:108-162 | the invariant of the stores and processes holds after every run |
| System.RunGrows | internal/facts/filesystem.go:28-43 | from any moment of a run to any later one, documents and pointers only grow |
| System.ReferentialIntegrity | internal/registration/service.go:114-146 | at every point no record dangles, if and only if a pointer store is configured or there is no record |
| System.ResolveIsPlainLookup | internal/resolver/service.go:164-294 | with index, pointer, document and statuses read at four moments of any run, resolving equals looking up the plain map of the first moment under the statuses of the last, and no integrity check fails |
| Decisions.PlainAllowsExactly | internal/resolver/service.go:164-294 | the plain lookup allows a response if and only if the entry is fresh and valid, the capability granted, and the response describes them |
| Decisions.ResolveAllowsExactly | internal/resolver/service.go:164-294 | with the four reads anywhere in a run, `Resolve` allows exactly what the highest-sequence registration when the index was read, the statuses when they were read, and the clock allow |
| Decisions.TableIsWrites | internal/revocation/memory.go:23-49 | after every run the status table is what the writes that reached it leave, one after the other |
| Decisions.AllowedHasWitness | internal/trust/verifier.go:71-140 | a resolve allowed for a capability, its reads anywhere in the run, rests on a credential of the agent's facts whose last status write before the statuses were read did not revoke it |
| EndToEnd.RegisterThenResolve | internal/registration/service.go:108-162 | after any run a valid registration of a higher sequence that all stores take succeeds, and its agent then resolves to it |
| Overlap.OfferedIsBacked | internal/registration/service.go:114-143 | a registration at its index write offers a record that does not dangle and passes the index's checks |
| Overlap.OverlappingPutsStayBacked | internal/registration/service.go:108-162 | after any run of all services in which index writes advance statement by statement, first inserts of one agent included, no current or archived record dangles if and only if a pointer store is configured or there is no record |
| Replay.LogVerifies | internal/audit/memory.go:107-123 | the log verifies at every point of every interleaving of all services |
| Replay.StatusStepAgrees | internal/admin/service.go:231-240 | an update with nothing between its two writes keeps log and table agreeing exactly when its event was recorded or nothing changed |
| Replay.StatusReplayExactly | internal/admin/service.go:217-274 | at every point of every interleaving of table writes and log writes, the log tells a credential's status if and only if the update written last and the update logged last said the same |
| Replay.StatusReplay | internal/admin/service.go:217-274 | after any run the log tells the status of every credential whose updates did not overlap and whose last update is logged, whatever else ran in between |
| Replay.TableReplay | internal/admin/service.go:217-274 | where that holds of every credential, replaying the log rebuilds the whole table without its times |
| Replay.CrossedUpdates | internal/admin/service.go:231-240 | from every state, two overlapping updates of one credential can be logged in the other order, and then the log tells the status that was overwritten |
| Replay.SequenceReplay | internal/registration/service.go:144-216 | the log is never ahead of the index, and equals it for an agent unless a registration with the current sequence has not written its event |
| Replay.LogNamesAgents | internal/registration/service.go:179-216 | every event that names an agent carries a normalised id and the hash of that id |

## Left out

- HTTP handlers, bearer authentication, request ids, logging, configuration and key loading: plumbing around the services.
- SQL drivers, disk writes and their crash atomicity, migrations: tables are maps and sequences, transactions are steps, files are a map from path to bytes.
- The internals of SHA-256, Ed25519 and base64, and the drawing of random ids: parameters.
- The JSON tokenizer, malformed UTF-8 and invalid surrogate escapes: a raw document is absent, empty, malformed or a tree.
- The Unicode table of capitals: the services lower ids over ASCII; the white space table is the full one.
- URL parsing in endpoint validation: a predicate on the text.
- Rewriting of numbers by jsonb: storage may reorder members and drop shadowed duplicates; the payloads written carry only integers, strings and booleans.
- Error texts and wrapping, context cancellation: errors are a datatype, and the text written to the log is a function of the error.
- Floating point: durations are whole microseconds printed as milliseconds with three decimals.
- `copyEvents`: the copies handed out share no state with the log because events are values; the aliasing of document bytes is not modelled.
- Route classification, the fixed metric names and the status-class labels of the metrics registry.
- The Postgres revocation store: the same map behind SQL.
- The text of the times in admin responses: instants are kept unformatted.
- A database outage while a trust check reads the status table.
- History ids shared between agents: archived rows stand in insertion order, which is the order of their ids.
- System.ResolveIsPlainLookup: the index is written in single steps, because two first inserts that overlap can leave the lower sequence current (`IndexConcurrent.FirstInsertRace`) where the plain map keeps the higher; the statuses of all credentials checked by one resolve are read at one moment.
- Decisions.ResolveAllowsExactly: as `System.ResolveIsPlainLookup`.
- Decisions.AllowedHasWitness: as `System.ResolveIsPlainLookup`.
- AgentAddr.NormalizeWithIdempotent: the lowering of a character is a parameter that leaves what it lowered alone and neither makes nor loses white space; the table of Unicode is not modelled, and the services use its ASCII part.
- AgentAddr.NormalizedForm: as `AgentAddr.NormalizeWithIdempotent`.
- Observability.Registry.ObserveLatency: does not model the rounding of float64 milliseconds; durations are whole microseconds.
- Observability.StatsDescribeValues: does not model the rounding of float64 sums, as `Observability.Registry.ObserveLatency`.
- Observability.Registry.Render: does not model failures of the writer, nor how float64 values print.
- Observability.LabelsTextInjective: keys contain no `="`, as the identifiers the program uses do not; it fails for others (`Observability.AmbiguousKeys`).

# C3R control plane: a verified model

C3R compiles candidate actions, chooses one conservatively, mediates its effects, meters callers,
streams generated text under a bounded capacity, and keeps a hash-chained trace store. This project
models those parts in Dafny and proves what they promise over every input, every run and every
interleaving of steps.

`dafny verify dfyconfig.toml` checks everything.

| module | component |
|---|---|
| `Schema`, `Ranking`, `Unicode` | shared records, Python's string order and stable `sorted`, code points |
| `ProgressiveWidening`, `CandidateCompiler`, `CompilerLaws`, `CompilerOrder`, `CandidateLaws` | hierarchical candidate compilation: the loops of the source against a take-the-first-N specification, its bounds, independence of the input order, and what each candidate carries |
| `TraceLedger`, `JsonLines` | the hash-chained ledger, tamper evidence, and the JSON Lines export and import |
| `IsoTime`, `Trace`, `GovernedStore`, `StoreLaws`, `StoreAdmission` | the governed SQLite trace store as a state machine with a ghost full history, and when it admits a trace |
| `AccessQuota`, `TokenBucket` | quota admission and the rate limiter |
| `GenerationStream`, `ResponseEvents`, `StreamLaws` | the backend reader, the event stream built on it, and the events as determined by the reads |
| `GenerationCapacity`, `IngressCapacity` | semaphore protocols of the HTTP service and the ingress proxy, step by step |
| `Cvoc`, `Authority`, `CommitGateway`, `CommitLaws`, `Runtime`, `RuntimeLaws` | conservative selection, attestations, commits and when they execute, the controller's run and when it ends how |
| `CalibrationMetrics`, `CostTwin` | calibration metrics and the adaptive cost estimator, over reals |

Code that changes things step by step is modelled by methods with loops, or by classes whose methods
are tied to functions on the old state; code made of expressions is modelled by functions. Foreign
functions (SHA-256, HMAC, JSON encoding, verifiers, deliberators, clocks) are parameters. SHA-256 is
an arbitrary function with digests of 64 hexadecimal digits, because a function onto fixed-length
digests cannot be injective: theorems that need collision freedom end in "or here is a collision".

## What the proofs found

Where a promise is false of the code, the code is kept as it is, an input shows the failure, and a
lemma says when the promise does hold.

- A generation permit (`c3r/http_service.py:227-247`), and an in-flight and route permit
  (`c3r/ingress_proxy.py:272-313`), is not given back when `Thread.start` raises: the `finally` block
  joins a thread that never started, which raises again before the release. Every other schedule,
  failure and disconnect gives every permit back exactly once, and only those
  (`ReleasedExactlyOnce`, an if and only if, in both capacity modules).
- An executed action need not carry an accepted attestation that the firewall issued: signed fields
  are joined by NUL (`c3r/authority.py:28`), and candidate ids are unchecked strings. The rejection of
  a candidate whose id holds a NUL can have the signed text of an acceptance of another action, for
  every such action, key and policy version (`CommitGateway.IssuedNulSuffices`), and so can a
  rejection with clean identifiers if the committed id holds one (`CommitGateway.PresentedNulSuffices`).
  Every effect is attested exactly when both the firewall refuses to issue and the gateway refuses to
  accept a verification with a NUL in its identifiers; evidence may hold one
  (`CommitGateway.BothChecksAreNeeded`).
- The same holds of approvals: a grant signed for an action whose id holds a NUL can be presented as a
  grant for another. Every risky effect of a run without forged approvals was granted if and only if
  the authority signs no field with a NUL (`CommitLaws.GrantCheckIsNeeded`).
- A stream whose abort arrives after a finish reason was sent reports completion, without having read
  the done marker (`StreamLaws.CompletesExactlyWhen` has both ways to end well).
- `from_jsonl(to_jsonl(...))` turns a high surrogate followed by a low one into a single code point.
  A string survives exactly when it has no such pair (`JsonLines.StringRoundTrip`); ledger records
  never have one, since hashing a lone surrogate raises.
- The swept quota table decides as the full history would for every clock of a given tolerance if and
  only if the tolerance is at most 61 seconds (`AccessQuota.ExactUpToSixtyOne`).
- The token bucket credits time twice when its clock goes back and forth, so the interval bound can
  fail (`TokenBucket.BackwardClockBreaksTheBound`). For any clock the grants of any stretch of calls
  are bounded by its forward movement (`TokenBucket.StretchBound`), which gives the interval bound for
  a nondecreasing clock.
- Two actions that differ only in the order of their payload share a fingerprint, and without a
  collision no others do (`Authority.FingerprintForgetsPayloadOrder`).
- The zero clamp of the cost twin never acts exactly when the smoothing factor lies between 0 and 1
  (`CostTwin.ClampNeverActs`); the class does not check that it does.
- The invalid-bounds error of widening is raised by hierarchical compilation only when some
  definition survives (`CandidateCompiler.CompileFamilies`).

## Model

| member | source | states |
|---|---|---|
| `ProgressiveWidening.WidenWhenMarginIsSmall` | c3r/progressive_widening.py:10-28 | the sort and while loop return the ranked prefix of the least stopping width, or raise exactly for invalid bounds |
| `ProgressiveWidening.WidenedIsShortest` | c3r/progressive_widening.py:21-28 | the result is the shortest ranked prefix of at least the initial width that reaches the width limit or ends at a gap above the margin; never longer than the maximum, and nonempty for nonempty input |
| `ProgressiveWidening.WidthIsUnique` | c3r/progressive_widening.py:22-27 | no other width meets that description |
| `ProgressiveWidening.WidenedForgetsOrder` | c3r/progressive_widening.py:21-28 | candidates with distinct ids are ranked and widened the same in any input order |
| `ProgressiveWidening.KeptAreBest` | c3r/progressive_widening.py:21-28 | the candidates split into kept and dropped; no dropped one has a greater utility than a kept one, and among equal utilities the kept ids come first |
| `CandidateCompiler.ExpandVerifiers` | c3r/candidate_compiler.py:180-199 | the innermost loop with its break yields the expansion over verifiers cut off at the cap |
| `CandidateCompiler.ExpandPlacements` | c3r/candidate_compiler.py:179-201 | the same over placements |
| `CandidateCompiler.ExpandOperation` | c3r/candidate_compiler.py:170-203 | the same over argument variants of one definition |
| `CandidateCompiler.ExpandOperations` | c3r/candidate_compiler.py:168-205 | the same over the selected operations of a subgroup |
| `CandidateCompiler.ExpandSubgroup` | c3r/candidate_compiler.py:146-207 | one turn of the loop over subgroups: selects and widens its operations, extends the cut-off product, and records whether a reached subgroup widened |
| `CandidateCompiler.CompileFamily` | c3r/candidate_compiler.py:124-208 | the five nested loops return exactly the first cap items of the family's whole ranked product, and report widening exactly when the subgroups or the operations of a reached subgroup widened |
| `CandidateCompiler.GroupBySubgroup` | c3r/candidate_compiler.py:124-126 | the dictionary holds each subgroup's definitions in input order, with its keys in first-seen order |
| `CandidateCompiler.Classify` | c3r/candidate_compiler.py:78-119 | every definition is masked, pruned or filed under its family, each list in input order |
| `CandidateCompiler.SurvivorsFound` | c3r/candidate_compiler.py:103-119 | a family is filed exactly when one of its definitions survives, and holds exactly its survivors |
| `CandidateCompiler.CompileFamilies` | c3r/candidate_compiler.py:121-208 | families are compiled in the order of their wire values, and an error is raised exactly when a family with survivors meets invalid widening bounds |
| `CandidateCompiler.CompileHierarchical` | c3r/candidate_compiler.py:53-216 | the whole imperative compilation equals the take-first-N specification, errors included |
| `CompilerLaws.FamiliesVisitedInOrder` | c3r/candidate_compiler.py:123 | the order of families is strictly increasing in their string values |
| `CompilerLaws.VariantsCount` | c3r/candidate_compiler.py:178-197 | an operation expands to variants times placements times verifiers candidates |
| `CompilerLaws.ProductMember` | c3r/candidate_compiler.py:145-197 | every item of a family's product expands a definition of the family, one of its variants and placements, and one of its allowed verifiers |
| `CompilerLaws.EveryCandidateIsAdmitted` | c3r/candidate_compiler.py:81-197 | with distinct ids every compiled candidate expands a definition that passed the policy, boundary, provenance, argument, placement, verifier, budget and utility checks |
| `CompilerLaws.FamilyBounds` | c3r/candidate_compiler.py:121-208 | the candidates of each family are the first cap of its product: at most cap, and at least one if and only if a definition of the family survives |
| `CompilerLaws.NoSafeActionMeansNoSurvivor` | c3r/candidate_compiler.py:210-216 | `no_safe_action` if and only if no definition survives |
| `CompilerOrder.OrderDoesNotMatter` | c3r/candidate_compiler.py:78-216 | permuting definitions with distinct ids leaves candidates, widened families, errors and `no_safe_action` identical and only permutes the masked and pruned ids |
| `CandidateLaws.SurvivesMeans` | c3r/candidate_compiler.py:82-119 | a definition is expanded exactly when family, risk, boundary, provenance, every offered argument list, every placement and some verifier are permitted, its cost is within the budget and its utility at the floor |
| `CandidateLaws.SortedOut` | c3r/candidate_compiler.py:103-119 | with distinct ids the masked ids are exactly those not permitted, the pruned exactly those permitted but not affordable |
| `CandidateLaws.IdsKeepOrder` | c3r/candidate_compiler.py:79-118 | masked and pruned ids keep the order of the catalogue |
| `CandidateLaws.EveryCandidateCarriesItsDefinition` | c3r/candidate_compiler.py:148-197 | every compiled candidate carries the subgroup, operation, an allowed placement and all arguments of one offered list of a permitted and affordable definition, its utility net of cost, its family and risk, and one of its allowed verifiers; required keys occur and no disallowed key does |
| `CandidateLaws.ExpansionOrder` | c3r/candidate_compiler.py:178-197 | the expansion is in lexicographic order of variant, placement and verifier: each combination stands at the position counting gives it |
| `CandidateLaws.VerifiersKeepOrder` | c3r/candidate_compiler.py:171-175 | the allowed verifiers keep the order of the definition |
| `CandidateLaws.SelectionIsShortest` | c3r/candidate_compiler.py:136-162 | each selection is the shortest ranked prefix of at least the initial width that reaches the smaller of maximum width and cap or ends at a gap above the margin |
| `CandidateLaws.BestActionComesFirst` | c3r/candidate_compiler.py:123-208 | the first candidate of a family has at least the net utility of every surviving definition of the family |
| `CandidateLaws.WidenedExactlyWhen` | c3r/candidate_compiler.py:142-167 | a family is reported as widened exactly when a selection it reached is longer than the initial width |
| `TraceLedger.VerifyRecords` | c3r/telemetry/trace_ledger.py:87-109 | the verify loop accepts exactly the unbroken chains of canonical JSON from genesis, and raises exactly when the first broken link is in place and canonical but its text cannot be encoded |
| `TraceLedger.ChainMeans` | c3r/telemetry/trace_ledger.py:87-109 | a ledger verifies exactly when every record names the hash before it or genesis, carries canonical encodable JSON, and hashes to its digest |
| `TraceLedger.Ledger.Append` | c3r/telemetry/trace_ledger.py:55-61 | append adds the record that follows the head, and a verified ledger stays verified when canonical JSON re-encodes to itself |
| `TraceLedger.ChainGrows` | c3r/telemetry/trace_ledger.py:55-61 | a chain extended by the next record is a chain |
| `TraceLedger.ChainSuffix` | c3r/telemetry/trace_ledger.py:87-109 | any suffix of a chain is a chain from the hash before it, with the same head |
| `TraceLedger.SameHeadSameLedger` | c3r/telemetry/trace_ledger.py:22-25 | two verified ledgers with the same last hash are equal record by record, or a record of each, equally far from the end, were hashed from different texts to one digest, or (lengths differing) a named record of the longer hashes to the genesis value |
| `TraceLedger.CollisionFreeLedgers` | c3r/telemetry/trace_ledger.py:22-25 | verified ledgers of one length whose records do not collide have the same last hash if and only if they are equal |
| `JsonLines.StringRoundTrip` | c3r/telemetry/trace_ledger.py:63-80 | ASCII escaping of a string (section 7 of RFC 8259) is undone by reading if and only if no high surrogate is directly followed by a low one |
| `JsonLines.SurrogatePairIsFused` | c3r/telemetry/trace_ledger.py:63-80 | such a pair is read back as the one code point it encodes |
| `JsonLines.EscapeIsPrintable` | c3r/telemetry/trace_ledger.py:63-67 | escaping emits only printable ASCII, so nothing that `splitlines` splits on |
| `JsonLines.RecordRoundTrip` | c3r/telemetry/trace_ledger.py:65-81 | a written record line is read back as the same record |
| `JsonLines.LineNamesItsMembers` | c3r/telemetry/trace_ledger.py:64-67 | a written line is an object with exactly the three members of the record |
| `JsonLines.NamesSpelled` | c3r/telemetry/trace_ledger.py:16-19 | the members are previous_hash, record_hash and canonical_json |
| `JsonLines.SplitJoined` | c3r/telemetry/trace_ledger.py:64-72 | splitting undoes joining for nonempty lines without line breaks |
| `JsonLines.FromJsonl` | c3r/telemetry/trace_ledger.py:69-85 | the import loop skips blank lines, fails on a malformed one and on a broken chain, and otherwise returns the parsed records; lines that are not objects of strings are decoded by a parameter |
| `JsonLines.LedgerRoundTrip` | c3r/telemetry/trace_ledger.py:63-85 | exporting any verified ledger and parsing the export gives back the same records |
| `JsonLines.ExportAndImport` | c3r/telemetry/trace_ledger.py:63-85 | the two calls composed return the ledger's own records, verification included |
| `IsoTime.TextOrderIsTimeOrder` | c3r/telemetry/governed_store.py:224-243 | comparing the fixed-width ISO texts of two UTC instants compares the instants |
| `IsoTime.IsoTextReads` | c3r/telemetry/governed_store.py:224 | the text has 32 characters with the ISO marks in place, and every field reads back as its number |
| `IsoTime.MinusDaysCounts` | c3r/telemetry/governed_store.py:225-227 | subtracting days on the Gregorian calendar gives a valid instant exactly that many days earlier, or overflows before year 1 |
| `GovernedStore.GovernedTraceStore.Append` | c3r/telemetry/governed_store.py:218-264 | append decides as its specification, in the source's order of checks, and changes the tables only when it succeeds |
| `GovernedStore.GovernedTraceStore.Insert` | c3r/telemetry/governed_store.py:234-264 | the transaction of append: refusals for a backward clock, an overdue purge and a duplicate run, otherwise one new row after the head |
| `GovernedStore.SelectExpired` | c3r/telemetry/governed_store.py:272-275 | selects exactly the rows at or before the cutoff, in sequence order |
| `GovernedStore.GovernedTraceStore.PurgeExpired` | c3r/telemetry/governed_store.py:266-292 | purge at a usable clock counts the expired rows and leaves the purged state, and changes nothing otherwise |
| `GovernedStore.GovernedTraceStore.PurgeThrough` | c3r/telemetry/governed_store.py:270-292 | its transaction: delete by sequence, new checkpoint, one audit entry |
| `GovernedStore.GovernedTraceStore.VerifiedHead` | c3r/telemetry/governed_store.py:166-216 | the verification loop returns the head exactly when every live row verifies from the checkpoint and the last row matches the metadata |
| `StoreLaws.AppendKeepsInv` | c3r/telemetry/governed_store.py:218-264 | every append, admitted or refused, keeps the invariant between tables and full history |
| `StoreLaws.AppendLeavesNothingOverdue` | c3r/telemetry/governed_store.py:241-246 | right after a successful append no live row is 30 days old |
| `StoreLaws.PurgeIsExact` | c3r/telemetry/governed_store.py:266-292 | deleting by sequence removes exactly the rows collected at or before the cutoff, and keeps the head hash, the sequence counter, the history and the count of removed plus live rows |
| `StoreLaws.InvVerifies` | c3r/telemetry/governed_store.py:166-198 | in every state of the invariant the store verifies and its head is that of the whole history |
| `StoreLaws.EveryRunIsSound` | c3r/telemetry/governed_store.py:166-292 | after any run of appends, refused appends and purges the store verifies, live rows plus audited purge counts equal the admitted traces, and the history is approved, redacted, in time order and one chain from genesis |
| `StoreLaws.HistoryOnlyGrows` | c3r/telemetry/governed_store.py:218-292 | no later step rewrites what was admitted |
| `StoreLaws.CapturedHeadsStay` | c3r/telemetry/governed_store.py:203-216 | a head captured at any point of a run stays on the chain for the rest of the run, purges included |
| `StoreAdmission.AdmittedExactlyWhen` | c3r/telemetry/governed_store.py:218-263 | in every reachable state a trace is admitted exactly when source and task are granted, it is redacted, the clock can go back thirty days and does not precede the last entry, no live entry is thirty days old, and its run id is not live |
| `StoreAdmission.EveryAdmissionIsJustified` | c3r/telemetry/governed_store.py:218-263 | the same after every run of appends, refused appends and purges |
| `StoreAdmission.EveryRunHasDistinctRuns` | c3r/telemetry/governed_store.py:131-136 | in every run no two live rows share a run id |
| `StoreAdmission.RedactedExactlyWhen` | c3r/telemetry/governed_store.py:27-89 | a trace passes redaction exactly when all its texts have 1 to 128 safe characters, all its numbers are finite, its state hash is 64 lower-case hexadecimal digits, every probability list is nonempty with entries between 0 and 1, no cost is negative, and there are no artifact references |
| `StoreAdmission.VerifiesMeans` | c3r/telemetry/governed_store.py:166-198 | the store verifies exactly when every live row continues the one before it or the checkpoint, is canonical, hashes to its digest and agrees with its columns, and the last row with the metadata |
| `StoreAdmission.PurgeIsAudited` | c3r/telemetry/governed_store.py:276-286 | a purge that removes rows adds one audit entry with the next number, the time, the count and the new checkpoint, the hash of the newest removed row; any other changes nothing |
| `AccessQuota.AccessStore.CreateProject` | c3r/api_access.py:113-121 | a project is stored once, within the allowed limits |
| `AccessQuota.AccessStore.Admit` | c3r/api_access.py:233-255 | admits exactly when the table does, then bumps both counters and sweeps old windows; a refusal changes nothing |
| `AccessQuota.SweptTableIsExact` | c3r/api_access.py:233-255 | for any clock that falls by at most 61 seconds, the swept table admits exactly the requests that counting the whole history admits |
| `AccessQuota.EveryLimitHolds` | c3r/api_access.py:241-249 | no key is admitted more than `key_rps` times in a second and no project more than `rpm` times in an aligned minute |
| `AccessQuota.AdmittedExactlyWhen` | c3r/api_access.py:233-249 | with a steady clock a request is admitted exactly when its project exists, its own key was admitted fewer than `key_rps` times in this second, and its project fewer than `rpm` times in this minute |
| `AccessQuota.RatesHold` | c3r/api_access.py:241-249 | the two rates hold counted over the requests of one key and of one project |
| `AccessQuota.SpanBound` | c3r/api_access.py:241-249 | no project is admitted more than twice `rpm` in any 60 seconds |
| `AccessQuota.OthersDoNotMatter` | c3r/api_access.py:243-249 | dropping every other project's requests leaves the requests admitted to a project by counting unchanged |
| `AccessQuota.TenantsAreIsolated` | c3r/api_access.py:233-255 | the same for the swept table |
| `AccessQuota.SixtyTwoSecondsIsTooMuch` | c3r/api_access.py:254 | a run of three requests whose clock falls by 62 seconds admits all three where counting admits two |
| `AccessQuota.ExactUpToSixtyOne` | c3r/api_access.py:233-255 | the swept table admits what counting admits in every run of a given clock tolerance if and only if the tolerance is at most 61 seconds |
| `TokenBucket.TokenBucket.Take` | c3r/http_service.py:54-64 | grants and updates exactly as its specification |
| `TokenBucket.StaysInRange` | c3r/http_service.py:57-63 | the token count stays between 0 and the capacity for any clock |
| `TokenBucket.StretchBound` | c3r/http_service.py:54-64 | for any clock the grants in any stretch of consecutive calls number at most the capacity plus the refill rate times the forward movement of the clock in that stretch |
| `TokenBucket.IntervalBound` | c3r/http_service.py:54-64 | for any nondecreasing clock the grants in any interval from s to t number at most capacity + refill * (t - s) |
| `TokenBucket.RefillPeriodSuffices` | c3r/http_service.py:54-64 | a call at least one refill period after the previous one is granted |
| `TokenBucket.BurstIsGranted` | c3r/http_service.py:50-64 | a new bucket grants a burst of its whole capacity, whatever the clock does |
| `TokenBucket.BackwardClockBreaksTheBound` | c3r/http_service.py:57-60 | a clock that goes back and forth breaks the bound |
| `GenerationStream.TextGenerationStream.Next` | c3r/adapters/providers.py:272-353 | the reading loop returns the specified chunk, end or error, and keeps the byte budget |
| `GenerationStream.TextGenerationStream.Abort` | c3r/adapters/providers.py:355-367 | marks the stream finished and changes nothing else |
| `GenerationStream.ReadOnSpends` | c3r/adapters/providers.py:276-291 | each read that yields a chunk spends at least one byte of the budget, and never more than it has |
| `StreamLaws.ParsedExactlyWhen` | c3r/adapters/providers.py:297-348 | a chunk is read exactly from the events that say it: one choice with a delta that calls no tool, text content, an admissible finish reason, and absent or valid usage, or no choice and a usage |
| `ResponseEvents.ResponseEventStream.Next` | c3r/responses.py:62-108 | the pulling loop emits the specified event and state; what they are for every backend is `StreamLaws.EventsAreDetermined` |
| `ResponseEvents.PullOutcome` | c3r/responses.py:70-108 | one pull on a live stream is a delta that extends the text within 65,536 bytes, a done event with the whole text and a finish reason, or a failure reporting at least the emitted text |
| `ResponseEvents.EveryPrefixIsGrammatical` | c3r/responses.py:62-130 | for any backend and any abort, the emitted events are a prefix of `created`, any number of deltas, then either `output_text.done` and `completed` or `failed`; completed text is the concatenation of the deltas, and on failure the deltas are a prefix of the reported text |
| `ResponseEvents.EveryStreamEnds` | c3r/responses.py:62-108 | after a fixed number of calls every stream has emitted exactly one terminal event, as its last; a completion implies that a finish reason was seen |
| `StreamLaws.EventsAreDetermined` | c3r/responses.py:62-130 | every stream ends at one read, and its events are those the reads determine: created, one delta for each content sent in order, then either the whole text with the last finish reason and usage sent, or the report of what was received |
| `StreamLaws.CompletesExactlyWhen` | c3r/responses.py:70-108 | a stream completes if and only if its reads reach a good end: only good lines within both byte limits before it, no text after a finish reason, one sent, and the done marker read or an abort seen there |
| `StreamLaws.UnabortedCompletesExactlyWhen` | c3r/adapters/providers.py:276-296 | without an abort it completes if and only if the reads reach the done marker that way |
| `StreamLaws.OneEnd` | c3r/adapters/providers.py:272-353 | a stream stops at one read only |
| `GenerationCapacity.PermitsAreConserved` | c3r/http_service.py:331-348 | in every interleaving of handlers and watchers, free plus held permits equal the capacity |
| `GenerationCapacity.ReleaseNeverOverflows` | c3r/http_service.py:194-199 | no release ever exceeds the bound of the semaphore |
| `GenerationCapacity.StrandedByFailedStart` | c3r/http_service.py:227-247 | a handler is stranded exactly by a failed start of its watcher |
| `GenerationCapacity.ReleasedExactlyOnce` | c3r/http_service.py:181-247 | once its handler returned, a request has given back what it took exactly once if and only if no start of its watcher failed |
| `GenerationCapacity.IdleServerHasAllPermits` | c3r/http_service.py:331-348 | when all handlers have returned, all permits are free but one per stranded request |
| `GenerationCapacity.TurnedAwayExactlyWhenFull` | c3r/http_service.py:332-334 | a request is turned away exactly when no permit is free |
| `GenerationCapacity.EveryHandlerCanReturn` | c3r/http_service.py:181-247 | from every state a handler can be driven to its return in a bounded number of steps, so no interleaving deadlocks |
| `GenerationCapacity.EveryStepProgresses` | c3r/http_service.py:181-247 | every step brings its request nearer to its end |
| `GenerationCapacity.UnstartedWatcherStrandsPermit` | c3r/http_service.py:227-247 | one failed start leaves a server of capacity one without permits |
| `IngressCapacity.PermitsAreConserved` | c3r/ingress_proxy.py:91-107 | in every state of every interleaving, free plus held equals the capacity of every connection, in-flight and route semaphore |
| `IngressCapacity.ReleaseNeverOverflows` | c3r/ingress_proxy.py:306-313 | no semaphore is released beyond its capacity |
| `IngressCapacity.StrandedByFailedStart` | c3r/ingress_proxy.py:272-313 | a connection is stranded exactly by a failed start of its watcher |
| `IngressCapacity.ReleasedExactlyOnce` | c3r/ingress_proxy.py:231-313 | a finished connection has given back every permit exactly once if and only if no start of its watcher failed, and its connection slot always |
| `IngressCapacity.RefusedExactlyWhenFull` | c3r/ingress_proxy.py:94-96 | a connection is shut, and a request answered over capacity, exactly when the permit it needs is not free |
| `IngressCapacity.RoutesShare` | c3r/ingress_proxy.py:78-83 | the decision routes share one semaphore, generation and each ranking route have their own, no other path has one |
| `IngressCapacity.EveryStepProgresses` | c3r/ingress_proxy.py:231-313 | every step brings its connection nearer to its end |
| `IngressCapacity.NeverStuck` | c3r/ingress_proxy.py:91-107 | a connection that has not ended can always take a step |
| `IngressCapacity.UnstartedWatcherStrandsPermits` | c3r/ingress_proxy.py:272-313 | after a failed start no remaining step of the connection gives the in-flight and route permits back |
| `IngressCapacity.UnstartedWatcherLosesPermits` | c3r/ingress_proxy.py:231-313 | from any start with the permits it needs, a run of one connection whose watcher cannot be started ends with one in-flight and one generation permit fewer and the connection gone |
| `Cvoc.SelectIsConservative` | c3r/cvoc.py:17-51 | the selected candidate is estimated, has a positive lower bound that no other exceeds (ties broken by id), and nothing is selected if and only if no estimated candidate has a positive bound |
| `Cvoc.SelectedIsBest` | c3r/cvoc.py:40-51 | the selected bound is positive, no usable estimate has a greater one, and an equal one has no greater id |
| `Cvoc.BoundIsConservative` | c3r/cvoc.py:17-33 | the bound is finite exactly for finite estimates with charges that are not negative, never exceeds the expected gain, and equals it without charges |
| `Cvoc.BoundMoves` | c3r/cvoc.py:28-33 | it rises with the gain and falls with cost and penalty one for one, and with the uncertainty at the rate of the multiplier |
| `Authority.SameFingerprintSameAction` | c3r/authority.py:12-22 | equal fingerprints mean equal actions up to payload order, or a collision |
| `Authority.FingerprintForgetsPayloadOrder` | c3r/authority.py:12-22 | actions that differ only in payload order share a fingerprint, and without a collision on the two it is if and only if |
| `Authority.JoinInjective` | c3r/authority.py:25-29 | as many fields with the same joined text are equal as soon as one side holds no NUL |
| `Authority.JoinDetermines` | c3r/authority.py:25-29 | the joined text determines the fields if and only if none holds a NUL |
| `CommitGateway.NonceStore.Claim` | c3r/commit_gateway.py:52-57 | claims a nonce exactly when it is in date and unclaimed |
| `CommitGateway.TrustedCommitGateway.Commit` | c3r/commit_gateway.py:89-147 | decides in the source's order of checks; claims the nonce and calls the executor exactly when it decides to commit, so a rejected request leaves nonces and effects alone; an error of the executor is passed on with the nonce claimed |
| `CommitGateway.RejectedDoNotMatter` | c3r/commit_gateway.py:89-147 | leaving every rejected request out of a run gives the same verifications, claimed nonces and effects |
| `CommitGateway.EveryRunIsSafe` | c3r/commit_gateway.py:89-147 | over any sequence of requests to gateways sharing a nonce store, every effect passed every check and each nonce backs at most one approval-class effect |
| `CommitLaws.CommittedExactlyWhen` | c3r/commit_gateway.py:94-147 | a request is committed exactly when it carries an accepted verification of this action by a trusted verifier under the policy version with the MAC of its six fields, and for the four risky classes an approval of this action in date with the MAC of its six fields and an unclaimed nonce |
| `CommitLaws.EveryEffectIsAuthorised` | c3r/commit_gateway.py:94-147 | every effect of every run carried all of that |
| `CommitLaws.NoncesAreSpentOnce` | c3r/commit_gateway.py:119-144 | no two risky effects of a run carry the same nonce |
| `CommitGateway.EveryEffectIsAttested` | c3r/verifier_firewall.py:48-74 | without forgery, and with NUL-free identifiers in what the firewall issues and the gateways are presented, every executed action carries an accepted verification that the firewall issued for that fingerprint under the gateway's policy version |
| `CommitGateway.IssuedNulSuffices` | c3r/commit_gateway.py:106-118 | without the check on issued identifiers: for every action that needs no approval, every key and version, a run in which the firewall only rejects and nothing is forged executes the action unattested |
| `CommitGateway.PresentedNulSuffices` | c3r/commit_gateway.py:106-118 | without the check on presented identifiers: the same with clean identifiers in everything issued |
| `CommitGateway.BothChecksAreNeeded` | c3r/verifier_firewall.py:55-65 | every effect of every run without forgery is attested if and only if both checks are made |
| `CommitLaws.IssuedExactlyWhen` | c3r/verifier_firewall.py:48-74 | the firewall issues exactly the opinion of the verifier its policy names for the risk class, on this candidate and fingerprint, with the MAC of the six fields |
| `CommitLaws.EveryRiskyEffectIsGranted` | c3r/commit_gateway.py:119-144 | without forged approvals and with NUL-free grants, every risky effect was granted: this action, policy version and nonce, with an expiry not passed |
| `CommitLaws.GrantCheckIsNeeded` | c3r/authority.py:25-34 | that holds in every such run if and only if grants with a NUL are refused |
| `Runtime.StandaloneController.Run` | c3r/runtime.py:137-311 | the tree of early returns ends every returning run with the specified outcome and exactly that outcome's trace appended; an empty run id raises and appends nothing |
| `Runtime.StandaloneController.Finish` | c3r/runtime.py:151-193 | builds the trace from its arguments and appends it, the only append there is |
| `Runtime.StandaloneController.DeliberateOrStop` | c3r/runtime.py:313-351 | each of its five returns appends exactly the trace of the outcome it returns |
| `Runtime.StandaloneController.ConsultFastPath` | c3r/runtime.py:219-254 | the fast path either finishes the run with one trace or lets it pass with none |
| `Runtime.StandaloneController.SelectAndVerify` | c3r/runtime.py:256-278 | selection, the text fallback and its verification end with exactly one trace |
| `Runtime.StandaloneController.VerifyChoice` | c3r/runtime.py:279-311 | a chosen action is verified, then recommended, deliberated or declined, with exactly one trace |
| `Runtime.CompilationSucceeds` | c3r/runtime.py:203-217 | with a nonnegative budget the compilation a run asks for never raises, and is empty exactly when no definition survives |
| `Runtime.RecommendationComesFromSelection` | c3r/runtime.py:256-311 | a recommendation is the selected candidate, read-only, not a deliberation, accepted by the policy's verifier in the only call made |
| `Runtime.EveryRecommendationIsJustified` | c3r/runtime.py:195-311 | with distinct ids every recommendation is read-only, verifier-accepted, has a positive lower bound maximal among estimated candidates, and comes from a definition in an available family, permitted by policy and boundary, within the remaining budget |
| `Runtime.FastPathCannotSteer` | c3r/runtime.py:219-254 | two runs on one request with any two fast-path answers or failures that both recommend select the same action with the same bound |
| `Runtime.RequestedDeliberatorIsMediated` | c3r/runtime.py:256-294 | a requested deliberator is invoked at most once, and only after an accepted verification of a DELIBERATE candidate of the run |
| `RuntimeLaws.RecommendsExactlyWhen` | c3r/runtime.py:195-311 | a run recommends exactly when it is enabled with a state, a budget and an expandable definition, the fast path is off, or consulted and lets it through, and the choice is vouched for by the policy's verifier, read-only and not a deliberation |
| `RuntimeLaws.StopsExactlyWhen` | c3r/runtime.py:249-250 | a run ends on the fast path exactly when a consulted fast path says STOP_NOW without abstaining, and then selects and calls nothing |
| `RuntimeLaws.DeliberatesExactlyWhen` | c3r/runtime.py:240-294 | a run deliberates exactly when it is diverted to a deliberator that answers, or reaches a verified deliberation that is answered |
| `RuntimeLaws.DeclinesExactlyWhen` | c3r/runtime.py:279-302 | a choice is declined because its verifier rejects it, fails, or it would have an effect, each with its reason |
| `RuntimeLaws.EarlyReasons` | c3r/runtime.py:195-224 | a run that cannot start, compile or consult says why, in the source's order |
| `RuntimeLaws.EveryTraceTells` | c3r/runtime.py:151-193 | every run ends in one finish whose trace names its run, candidates, selection, bound, authority result and reason |
| `RuntimeLaws.CompiledWithDefaults` | c3r/runtime.py:203-214 | the candidates of a run carry permitted, affordable definitions of the request in an available family, compiled with the default width, margin and limits |
| `CalibrationMetrics.FillBuckets` | c3r/system_one/calibration_fit.py:65-87 | the example loop counts correct predictions, accumulates Brier score and negative log-likelihood, collects outcomes and distributes them over buckets, or stops at the first example that raises |
| `CalibrationMetrics.BucketErrors` | c3r/system_one/calibration_fit.py:90-96 | the bucket loop lists size and calibration error of the nonempty buckets |
| `CalibrationMetrics.CalibrationMetrics` | c3r/system_one/calibration_fit.py:59-125 | the whole computation equals its specification |
| `CalibrationMetrics.ArgMax` | c3r/system_one/calibration_fit.py:76 | the first index of a greatest probability |
| `CalibrationMetrics.OutcomeMeans` | c3r/system_one/calibration_fit.py:76-84 | the confidence is a greatest probability, and an outcome is correct exactly when its label is the first index that reaches it |
| `CalibrationMetrics.AccuracyCounts` | c3r/system_one/calibration_fit.py:77-78 | accuracy times the example count is the number of correct outcomes |
| `CalibrationMetrics.AcceptedCountsSorted` | c3r/system_one/calibration_fit.py:100-105 | the accepted counts are the set of the four quotas in increasing order, within 1 and the example count, which is the last |
| `CalibrationMetrics.BucketsPartition` | c3r/system_one/calibration_fit.py:84-96 | sizes, confidences and hits of the buckets add up to those of all outcomes |
| `CalibrationMetrics.BucketSizesAddUp` | c3r/system_one/calibration_fit.py:90-97 | the reported bucket sizes add up to the example count |
| `CalibrationMetrics.BucketsHaveEqualWidth` | c3r/system_one/calibration_fit.py:86 | an outcome in bucket k has a confidence between k and k + 1 over the number of buckets, the upper end in the last bucket only |
| `CalibrationMetrics.EceIsBetween` | c3r/system_one/calibration_fit.py:89-98 | the distance of mean confidence from accuracy is at most ECE, ECE is at most MCE, and MCE is at most 1, however outcomes are placed in buckets |
| `CalibrationMetrics.EceSumsGaps` | c3r/system_one/calibration_fit.py:89-97 | ECE times the example count is the sum, over all buckets, of the distance between summed confidence and hits |
| `CalibrationMetrics.MceIsReached` | c3r/system_one/calibration_fit.py:89-98 | MCE bounds the distance in every bucket relative to its size, and some nonempty bucket reaches it |
| `CalibrationMetrics.RankedByConfidence` | c3r/system_one/calibration_fit.py:99 | ranking permutes the outcomes and puts the more confident first |
| `CalibrationMetrics.PointCounts` | c3r/system_one/calibration_fit.py:106-117 | a point's coverage counts the accepted and its risk the wrong ones among them |
| `CalibrationMetrics.LastPointAcceptsAll` | c3r/system_one/calibration_fit.py:100-117 | the last risk-coverage point accepts everything with selective risk 1 - accuracy |
| `CalibrationMetrics.SquaredErrorOfExample` | c3r/system_one/calibration_fit.py:79-82 | the squared error of a distribution is at most twice the probability it denies its label |
| `CalibrationMetrics.ScoresAreBounded` | c3r/system_one/calibration_fit.py:79-83 | the mean Brier score lies between 0 and 2, and the mean negative log-likelihood between 0 and that of the floor 1e-12 |
| `CalibrationMetrics.MetricsAreSound` | c3r/system_one/calibration_fit.py:59-125 | metrics exist exactly for a nonempty list of examples with labels in range and at least one bucket, and then meet the inequalities and the last point |
| `CostTwin.AdaptiveCostTwin.Observe` | c3r/cost_twin.py:32-39 | an observation updates only its own residual and staleness as specified; an unknown action raises and changes nothing |
| `CostTwin.ForecastIsItsOwn` | c3r/cost_twin.py:23-39 | after any run prior plus residual depends on the action's own observations only |
| `CostTwin.LevelStaysInHull` | c3r/cost_twin.py:32-36 | it stays within any nonnegative bounds of the prior and the observed costs |
| `CostTwin.ClampNeverActs` | c3r/cost_twin.py:26-30 | the clamp at zero never acts, for all nonnegative priors and costs, if and only if the smoothing factor lies between 0 and 1 |
| `CostTwin.GapDecaysGeometrically` | c3r/cost_twin.py:32-36 | n observations of a constant cost leave exactly (1 - alpha)^n of the initial gap |
| `CostTwin.ForecastIsSound` | c3r/cost_twin.py:23-39 | after any run the forecast is prior plus residual, stays in the hull, and p95 is at least expected if the prior's is |
| `CostTwin.StalenessIsKept` | c3r/cost_twin.py:37-39 | once stale, an action stays stale |
| `CostTwin.StaleExactlyWhen` | c3r/cost_twin.py:32-39 | an observation makes its action stale exactly when it is off the expected cost by more than the threshold's share of it, and no other action changes |
| `CostTwin.UpperForecastMoves` | c3r/cost_twin.py:23-31 | p95 exceeds its prior by exactly the distance the expected cost moved |

## Left out

- `CandidateCompiler.compile`, the flat compilation without widening: a filter, a sort and a slice.
- `c3r/pg_access.py`: admission under concurrency rests on PostgreSQL row locks. The SQLite store is modelled, where `BEGIN IMMEDIATE` makes each admit one atomic step.
- HTTP parsing, headers, sockets, `select` and upstream transport: outcomes of I/O are nondeterministic steps or parameters. `_forward_stream` relays frames and `_record_usage` writes one usage row; neither touches a permit.
- Closing the event stream or the upstream connection in a `finally` block is taken not to raise.
- SHA-256, HMAC, key issuance and file checks: hash and MAC are parameters; non-forgery is a hypothesis on the run.
- CommitGateway.EveryEffectIsAttested: asks for NUL-free identifiers, because the code does not meet the promise without them (`CommitGateway.BothChecksAreNeeded`).
- StoreLaws.EveryRunIsSound: assumes that canonical JSON re-encodes to itself, keeps the two fields read back, and is encodable as UTF-8; the JSON encoder itself is a parameter of the store.
- JsonLines.FromJsonl: what `json.loads` and `str` make of a line that is not an object of strings is a parameter, so the model says nothing about it.
- GenerationStream.TextGenerationStream.Next: the decoding of a data line's JSON into an event is part of the backend's input; the checks on the decoded event are modelled.
- AccessQuota.AccessStore.Admit: the clock is the whole number of seconds that `int(self.clock())` yields; identifiers and key expiry are not modelled.
- CalibrationMetrics.CalibrationMetrics: takes the probability vectors as given, with entries between 0 and 1, and the logarithm as a parameter; softmax and the temperature fit are not modelled.
- CostTwin.AdaptiveCostTwin.Observe: reals stand for floats.
- IEEE rounding, NaN and overflow everywhere; non-finite estimates are an explicit case of `Cvoc`.
- The five nested loops are one method per level, so a `break` that leaves several levels is a return through them.
- Provider codecs, adapters, readiness probes, catalogues, feature flags, deployment files, `c3r/retention_job.py` and `c3r/decisionmix/dataset.py`: thin wrappers, configuration or I/O around a filter; they would only add easy members.

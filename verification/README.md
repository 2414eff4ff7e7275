# pkgmirror: verified models of its stateful components

pkgmirror is a package registry that can also mirror upstream registries. Its HTTP handlers stand on a
set of small components that keep state. This project models those components in Dafny and proves what
they promise, over every input and every run. The lock pool, key generation, the audit queue, policy evaluation
and the provenance gate are proved over every interleaving of their steps; the other components are called
one request at a time.

The shape is the same throughout. The state of a component is a value, one call (or one atomic step) on
it is a function, and the promises are lemmas about runs of that function. A component that the program
writes as an object with fields is also a class with those fields and loops, whose methods are proved to
do exactly what the function says. So a lemma about runs is a statement about the class. What each function
does is stated a second time without it: by a reference that reads the calls alone, or by the columns, decisions
and amounts written out.

| file | component |
|---|---|
| `ExclusivePool.dfy` | the refcounted map of per-key mutexes, as objects and as an interleaving of threads |
| `KeyGeneration.dfy` | first-use key generation inside that lock, with failures and crashes, and without the lock |
| `MetadataCache.dfy` | the byte-budgeted LRU with expiry |
| `RateLimiter.dfy` | the per-tenant token bucket |
| `UploadTracker.dfy` | chunked upload sessions, their temp files and running digests |
| `AuditQueue.dfy` | the buffered audit logger: producers, drainer, Close |
| `PolicyEngine.dfy` | rule selection, the evaluator chain, snapshots under concurrent refresh |
| `Models.dfy` | the relational store: schema, operations, transactions, deletions, properties |
| `Ingest.dfy` | ingest of files as a sequence of steps that may stop anywhere |
| `Provenance.dfy` | package labels under uploads, pull-through and deletion; the merged PyPI index |
| `CappedReader.dfy` | the cap on streamed bodies, and the metadata path's size check |
| `SimpleIndex.dfy` | the PEP 503 index page and its parser |
| `AuditCsv.dfy` | the audit CSV export and an RFC 4180 reader |
| `Wrappers.dfy` | `Option` and `Result` |

## Where the code does not do what it says

Each of these has a lemma with the exact condition and a lemma with an input or a run that shows it. The
model follows the code.

- **A body of exactly the cap.** The streamed path refuses a body of exactly the cap when its end is not
  reported together with its last byte; the metadata path accepts it. A body that breaks with the very
  byte that is one too many is too large to the streamed path and a failed read to the other. With a cap
  that is not positive only the metadata path refuses anything as too large
  (`CappedReader.PathsAgreeIff`, `CappedReader.ExactlyMaxCanBeRefused`, `CappedReader.OneOverCanBeBroken`).
- **The provenance gate.** The gates treat a failed lookup like a missing package. With requests one after
  another, an upload reaches a mirrored package exactly when the gate's own lookup fails and the upload
  would otherwise go through (`Provenance.ServeKeepsFromIff`, `Provenance.MirrorIsCrossedIff`,
  `Provenance.ACrossingRun`). When requests overlap it also does so when the mirrored row is created after
  the gate has looked and before the ingest, and in no other way (`Provenance.OverlappingAlwaysFromIff`,
  `Provenance.OnlyANewerMirrorIsCrossed`, `Provenance.AGateRace`).
- **Sealed packages.** `internal/packages/pypi/handler.go:394-400` calls uploaded packages sealed. Their
  index takes no upstream entry, but the download path at `internal/packages/pypi/handler.go:477-516`
  pulls a missing version or file into them, and the index then lists it as local; pulled Go versions
  likewise (`Provenance.UploadedIsCrossedIff`, `Provenance.UploadedIndexTakesNothing`,
  `Provenance.ACrossingRun`).
- **Key generation.** `internal/packages/debian/handler.go:63-67` expects the second of two racing callers
  to fail on a unique constraint. Properties have no such constraint: without the lock both callers can
  succeed with different pairs and leave mixed halves (`KeyGeneration.WithoutTheLockKeysMix`), and they
  agree under every schedule exactly if a usable pair was stored before, however many they are
  (`KeyGeneration.AnyUnlockedCallersAgreeIff`). `internal/packages/alpine/handler.go:140` and `:201` take no
  lock. The result for locked callers is `KeyGeneration.EveryCallerGetsTheStoredPair`.
- **Properties on ids not handed out.** SetProperty does not check that its row exists. A live row shows
  a property set before the row existed exactly when the call named an id that had not been handed out
  (`Models.LiveRowsShowTheirOwnProperties`, `Models.APropertyCanPredateItsRow`).
- **Retrying a stopped Go ingest.** An upload that stops after its version row cannot be retried; the retry is
  refused as a duplicate although there is no file. It can be retried exactly if it stopped before that
  and the version was new (`Ingest.StoppedNewVersionRetriedIff`,
  `Ingest.StoppedNewVersionCannotBeRetried`). A stopped PyPI upload can always be retried,
  unless its filename was taken before (`Ingest.StoppedAddCanBeRetried`). A Go pull-through stopped after its
  version row never gets its file: the early return at `internal/packages/goproxy/upstream.go:588-592` takes
  the version for complete, and a download then fails at `internal/packages/goproxy/upstream.go:558-561`
  (`Provenance.StoppedGoPullRetriedIff`).
- **Upload digests and sizes.** After a short write to the temp file the digest does not cover the file,
  and a failed append is not counted (`UploadTracker.WhenDigestAndSizeAreRight`,
  `UploadTracker.DigestIsTheFilesIff`, `UploadTracker.AShortWriteIsNotCovered`). A repeated session
  identifier orphans a temp file (`UploadTracker.EveryFileHasOnePlace`,
  `UploadTracker.TwoSessionsUnderOneIdOrphanAFile`).
- **The order of evaluators.** It can change the decision when a rule expires while a call is being
  evaluated, and never otherwise (`PolicyEngine.OrderMattersOnlyThroughExpiry`,
  `PolicyEngine.AMovingClockMatters`).
- **attrValue.** It finds the attribute in the lower-cased tag and slices the original one, and panics
  exactly when that position lies past the end, which takes lower-casing that lengthens the tag
  (`SimpleIndex.PanicsIffATagOverruns`, `SimpleIndex.AWidePagePanicsIff`).

## Model

| member | source | states |
|---|---|---|
| ExclusivePool.Pool.constructor | internal/syncutil/exclusive_pool.go:46-51 | a new pool has no entries |
| ExclusivePool.Pool.Enter | internal/syncutil/exclusive_pool.go:57-64 | CheckIn's critical section: one more participant, the existing mutex if there is one and otherwise a fresh unlocked one, other keys untouched |
| ExclusivePool.Pool.CheckIn | internal/syncutil/exclusive_pool.go:56-66 | the critical section and then the key's mutex: taken if free, and otherwise the caller is told to wait for the very mutex in the map; no other mutex is replaced |
| ExclusivePool.Pool.CheckOut | internal/syncutil/exclusive_pool.go:72-82 | unlocks the key's mutex and drops the entry with its last participant |
| ExclusivePool.Pool.Size | internal/syncutil/exclusive_pool.go:86-90 | the number of identities in the map |
| ExclusivePool.StepKeepsInv | internal/syncutil/exclusive_pool.go:56-82 | each lock, unlock or map step of any thread keeps the invariant of the protocol |
| ExclusivePool.PoolIsSafe | internal/syncutil/exclusive_pool.go:36-82 | in every interleaving: one holder per identity, all its waiters and its holder on the one mutex in the map, no mutex shared by identities, exact counts, an entry exactly while its identity has a participant |
| ExclusivePool.IdlePoolIsEmpty | internal/syncutil/exclusive_pool.go:72-82 | with no call in progress both maps are empty, so memory is bounded by active identities |
| ExclusivePool.GlobalHolderMoves | internal/syncutil/exclusive_pool.go:31-34 | the thread in the global lock never waits for a per-key mutex, and CheckOut never finds its mutex missing or unlocked |
| ExclusivePool.NoDeadlock | internal/syncutil/exclusive_pool.go:56-82 | whenever a call is pending, some pending call can take its next step |
| ExclusivePool.CallsFinish | internal/syncutil/exclusive_pool.go:56-82 | without new calls each step of any schedule uses up one of a number of steps fixed in advance |
| ExclusivePool.EveryScheduleEndsIdle | internal/syncutil/exclusive_pool.go:56-82 | from any reachable state every schedule without new calls that goes on while anything can happen ends with all threads idle, after exactly that number of steps |
| KeyGeneration.TenantKeys.GetOrCreateKeyPair | internal/packages/debian/index.go:302-331 | read, read, generate, write, write with early return on each failure, equal to the step-by-step call run alone |
| KeyGeneration.LoneCall | internal/packages/debian/index.go:302-331 | a call alone in which nothing fails hands out the stored halves if neither is missing or empty, and otherwise the pair it makes, and stores it whole |
| KeyGeneration.StepKeepsInv | internal/packages/debian/handler.go:195-200 | each pool step, call step, failure or crash keeps it that a stored public half belongs with the stored private half and that calls in progress have read what is stored |
| KeyGeneration.EveryCallerGetsTheStoredPair | internal/packages/debian/handler.go:195-200 | in every interleaving all callers of one tenant that succeed get one and the same pair, it is the stored one, and its halves were generated together |
| KeyGeneration.WithoutTheLockKeysMix | internal/packages/alpine/index.go:259-288 | from any state without a usable pair, two unlocked calls can both succeed, with different pairs, and leave halves of different pairs stored |
| KeyGeneration.UnlockedCallersAgreeIff | internal/packages/alpine/index.go:259-288 | two unlocked callers agree under every schedule, with any failures, if and only if a usable pair was stored before they started |
| KeyGeneration.AnyUnlockedCallersAgreeIff | internal/packages/alpine/index.go:259-288 | the same for any set of two or more callers |
| MetadataCache.MetadataCache.constructor | internal/upstream/metadata_cache.go:41-46 | an empty cache with the given budget |
| MetadataCache.MetadataCache.Get | internal/upstream/metadata_cache.go:50-66 | a hit touches its key, an expired entry is removed and missed, no budget always misses |
| MetadataCache.MetadataCache.Put | internal/upstream/metadata_cache.go:70-99 | replaces the key's entry after evicting for room; too large a body only removes; no budget or no lifetime does nothing |
| MetadataCache.MetadataCache.Refresh | internal/upstream/metadata_cache.go:102-115 | moves the expiry and touches, or reports the key missing |
| MetadataCache.MetadataCache.EvictFor | internal/upstream/metadata_cache.go:82-85 | the eviction loop ends and equals oldest-first eviction |
| MetadataCache.MetadataCache.RemoveLocked | internal/upstream/metadata_cache.go:117-130 | removes the key from the map, the order list and the total |
| MetadataCache.MetadataCache.TouchLocked | internal/upstream/metadata_cache.go:132-140 | moves the key to the end of the order list |
| MetadataCache.EveryReachableCacheIsValid | internal/upstream/metadata_cache.go:31-37 | always: the order list enumerates the map's keys once each, the total is the sum of the sizes, and is within the budget |
| MetadataCache.EvictDropsLeastPrefix | internal/upstream/metadata_cache.go:82-85 | eviction drops exactly the shortest oldest-first prefix that makes room, and always makes room for a body within the budget |
| MetadataCache.GetLeaves | internal/upstream/metadata_cache.go:50-66 | the entries, order and answer after a read: unchanged and a miss, without an expired entry and a miss, or moved to the newest place and a hit |
| MetadataCache.RefreshLeaves | internal/upstream/metadata_cache.go:102-115 | a refresh changes one expiry and one place in the order, of a key that is there, and nothing else |
| MetadataCache.PutLeaves | internal/upstream/metadata_cache.go:70-99 | a body over the budget takes its own key's entry away and leaves every other entry in its order; a body within it is stored as the newest after the least number of oldest other keys that makes room was dropped |
| MetadataCache.LeavesIff | internal/upstream/metadata_cache.go:48-140 | a key leaves the cache if and only if: it is read after expiry, or is put with a body over the budget, or a body is stored that does not fit beside it and all keys accessed since |
| MetadataCache.HitsAreNeverWrong | internal/upstream/metadata_cache.go:48-115 | over every run each hit is exactly what a timed map without a budget would return; eviction only turns hits into misses |
| MetadataCache.HitIsLastPutLastRefresh | internal/upstream/metadata_cache.go:48-115 | over every run a hit returns what the key's last put stored, with the expiry of its last put or refresh and not past it |
| MetadataCache.WithinBudgetNothingIsForgotten | internal/upstream/metadata_cache.go:68-99 | while no put needs more room than is free, every answer is that of the unbounded map |
| MetadataCache.OrderIsByLastAccess | internal/upstream/metadata_cache.go:132-140 | in every reachable cache the order list runs from least to most recently accessed |
| RateLimiter.RateLimiter.constructor | internal/upstream/ratelimit.go:24-33 | the capacity is one minute's requests; a rate that is not positive means 60 |
| RateLimiter.RateLimiter.Allow | internal/upstream/ratelimit.go:37-58 | refills the tenant's bucket at rpm/60 tokens a second up to the capacity and admits if a whole token is there, leaving other buckets alone |
| RateLimiter.TenantsAreIndependent | internal/upstream/ratelimit.go:37-58 | a tenant's bucket after any run is the one its own requests alone would leave |
| RateLimiter.DecidedAlone | internal/upstream/ratelimit.go:37-58 | each request is decided as if its tenant's requests were alone |
| RateLimiter.LevelIsLeastSlack | internal/upstream/ratelimit.go:46-51 | the bucket level is the capacity or the least of what any window from an earlier call still allows |
| RateLimiter.AdmittedIffEveryWindowFits | internal/upstream/ratelimit.go:46-57 | a call is admitted if and only if admitting it keeps every window from an earlier call within the capacity plus its refill |
| RateLimiter.AdmittedAtMost | internal/upstream/ratelimit.go:35-58 | in any run and between any two instants a tenant gets at most the capacity plus elapsed time times the rate |
| RateLimiter.SpacedRequestsAreAdmitted | internal/upstream/ratelimit.go:46-57 | a request at least 60/rpm seconds after its tenant's earlier ones is always admitted |
| RateLimiter.RefusedRequestsLeaveNoTrace | internal/upstream/ratelimit.go:52-55 | leaving a refused request out of a run changes no later decision |
| UploadTracker.UploadTracker.Begin | internal/packages/container/upload.go:110-123 | a new session with an empty temp file and hasher, or no session |
| UploadTracker.UploadTracker.Append | internal/packages/container/upload.go:127-146 | the copy loop feeds file and hasher; the total counts complete copies only |
| UploadTracker.UploadTracker.Size | internal/packages/container/upload.go:149-157 | the session's total, or no such session |
| UploadTracker.UploadTracker.Finalize | internal/packages/container/upload.go:167-192 | removes the session, then hands the file over or removes it on a wrong digest or failed seek |
| UploadTracker.UploadTracker.Cancel | internal/packages/container/upload.go:195-206 | removes session and file, if any |
| UploadTracker.UploadTracker.SweepIdle | internal/packages/container/upload.go:247-263 | removes exactly the sessions idle for longer than the timeout, with their files, and counts them |
| UploadTracker.UnlinkStale | internal/packages/container/upload.go:251-256 | the sweep's loop picks exactly the stale sessions |
| UploadTracker.SessionsEndOnce | internal/packages/container/upload.go:167-206 | a session is consumed at most once and its file handed to at most one caller |
| UploadTracker.HandingOverEnds | internal/packages/container/upload.go:168-191 | a successful Finalize ends the session and passes its file on |
| UploadTracker.HandedIff | internal/packages/container/upload.go:167-206 | a file passes to a caller if and only if a Finalize answered with it; all other ends remove it |
| UploadTracker.EndedStaysEnded | internal/packages/container/upload.go:110-206 | the file of an ended session never becomes live again |
| UploadTracker.EveryFileHasOnePlace | internal/packages/container/upload.go:110-263 | every temp file is in exactly one place (live session, handed over, removed) if and only if no identifier was issued to two live sessions |
| UploadTracker.SessionsTrackTheirBodies | internal/packages/container/upload.go:127-146 | file, hasher and total of a live session are those of all bodies appended to it, in order |
| UploadTracker.SessionsAre | internal/packages/container/upload.go:110-263 | over every run the calls alone tell which identifiers are live, what each has been sent and when it was last sent something in full, and that is what the tracker holds |
| UploadTracker.FinalizeAnswers | internal/packages/container/upload.go:167-192 | a live session is handed over if and only if the file can be rewound and the digest wanted is none or that of the bytes hashed; its digest is refused if and only if it is neither; either way the session is over |
| UploadTracker.AppendAnswers | internal/packages/container/upload.go:127-146 | the total of the bodies copied in full, with this one if it was |
| UploadTracker.OtherAnswers | internal/packages/container/upload.go:110-206 | the answers of Begin, Size and Cancel from the calls before them |
| UploadTracker.SweepAnswers | internal/packages/container/upload.go:247-263 | a sweep ends exactly the sessions idle for longer than the timeout and answers their number |
| UploadTracker.BytesInOrder | internal/packages/container/upload.go:134-141 | the bytes written, the bytes hashed and the total of bodies one after another are those of the first and then those of the others |
| UploadTracker.OneBody | internal/packages/container/upload.go:134-141 | a body's chunks all reach file and hasher, and of a write cut short the file has what it took; only a body copied to its end counts |
| UploadTracker.FinalizeHandsOverWhatWasAppended | internal/packages/container/upload.go:159-192 | a successful Finalize hands over the in-order bytes of all appends, however they were split, with the hasher's digest, equal to the wanted one if one was given |
| UploadTracker.WhenDigestAndSizeAreRight | internal/packages/container/upload.go:134-141 | the bytes hashed are the bytes of the file exactly if no file write was cut short, and the total is their number exactly if failed appends wrote nothing |
| UploadTracker.DigestIsTheFilesIff | internal/packages/container/upload.go:178-191 | unless the two byte strings collide, the digest handed over is that of the file exactly if no file write was cut short |
| UploadTracker.AShortWriteIsNotCovered | internal/packages/container/upload.go:136-140 | a run of three calls that hands over a byte with the digest of none |
| UploadTracker.TwoSessionsUnderOneIdOrphanAFile | internal/packages/container/upload.go:119-121 | a run of two calls after which nobody is left to remove a temp file |
| AuditQueue.BufferedLogger.constructor | internal/audit/audit.go:69-81 | a fresh logger, empty and open, with room for the number of events asked for, or for 4096 if that is not positive |
| AuditQueue.BufferedLogger.Log | internal/audit/audit.go:92-101 | stamps the event and queues it, or counts a drop when the queue is full, and nothing else changes |
| AuditQueue.BufferedLogger.Drops | internal/audit/audit.go:103 | the Log calls whose event was not accepted |
| AuditQueue.BufferedLogger.DrainOne | internal/audit/audit.go:115-119 | one round of the drainer's loop at any time: the oldest queued event goes to the sink, whether or not its write succeeds |
| AuditQueue.BufferedLogger.Drain | internal/audit/audit.go:113-121 | from the closing of the channel on, the loop empties the queue into the sink and ends |
| AuditQueue.BufferedLogger.Close | internal/audit/audit.go:105-111 | when it returns, the sink has been handed every accepted event once and in order |
| AuditQueue.NothingAcceptedIsLost | internal/audit/audit.go:92-121 | in every interleaving accepted events = handed to the sink, then in flight, then queued, in order; accepted plus drops counted = completed Log calls, the queue test and the count being separate steps |
| AuditQueue.DropsOnlyWhenFull | internal/audit/audit.go:96-100 | a Log call is refused if and only if the queue is full, and is otherwise accepted last in order; an event that comes with a time keeps it |
| AuditQueue.DropsAreFullLogs | internal/audit/audit.go:96-100 | over every run the drops counted or about to be are exactly the Log calls that met a full queue |
| AuditQueue.CloseFlushes | internal/audit/audit.go:105-121 | whenever Close returns every accepted event has been handed to the sink exactly once, whichever writes failed |
| AuditQueue.CloseTerminates | internal/audit/audit.go:105-121 | after Close the drainer is never stuck and each of its steps brings the return of Close nearer |
| AuditQueue.CloseReturnsAfterBacklog | internal/audit/audit.go:105-121 | over every run after Close the drainer takes as many steps as the backlog falls by, and when it has taken them all Close returns with every accepted event handed over |
| PolicyEngine.BeforeIsLexicographic | internal/policy/rule.go:36-53 | the specificity number orders rules lexicographically by version pattern, package, tenant and format being set |
| PolicyEngine.SortRules | internal/policy/engine.go:120-128 | a permutation sorted by specificity downwards, then priority upwards |
| PolicyEngine.FilterMatching | internal/policy/engine.go:107-118 | exactly the matching rules, in order |
| PolicyEngine.FilterCounts | internal/policy/engine.go:111-117 | filtering lists each rule it keeps as often as before and no other rule |
| PolicyEngine.FilterSplit | internal/policy/engine.go:111-117 | filtering keeps the listed order |
| PolicyEngine.ChainEngine.constructor | internal/policy/engine.go:39-43 | starts with the empty rule set |
| PolicyEngine.Partition | internal/policy/engine.go:49-55 | the enabled rules of each kind in listed order |
| PolicyEngine.ChainEngine.Refresh | internal/policy/engine.go:48-60 | installs exactly the enabled rules, partitioned by kind, each part in order |
| PolicyEngine.EvaluatorsSeeExactlyTheirRules | internal/policy/engine.go:76-80 | each evaluator gets a permutation of exactly the enabled, unexpired, matching rules of its kind, more specific ones first, lower priority values first among equals |
| PolicyEngine.ChainEngine.Evaluate | internal/policy/engine.go:74-95 | despite the stop at Deny the result is the strictest of all evaluators' votes, a panic voting Allow, with the reason of the first to reach it |
| PolicyEngine.StrictestIsUnique | internal/policy/engine.go:88-90 | the strictest vote leaves no choice: decision, reason and rule are determined |
| PolicyEngine.DecidedBy | internal/policy/policy.go:37-54 | Deny if and only if some evaluator comes back with Deny, Quarantine if some does and none denies, Warn if some does and none is stricter; Quarantine and Deny block, and an evaluator that panics has no say |
| PolicyEngine.ReasonIsTheFirst | internal/policy/engine.go:74-95 | reason and rule are those of the first evaluator that comes to the decision; a bare Allow has neither |
| PolicyEngine.OrderDoesNotMatter | internal/policy/policy.go:37-53 | reordering the evaluators over one snapshot permutes their votes and changes neither the decision nor whether it blocks, as long as the rules they are given stay the same |
| PolicyEngine.AMovingClockMatters | internal/policy/rule.go:57-60 | if the rules of a kind change between two places in the chain, two orders of some evaluators decide differently |
| PolicyEngine.OrderNeverMattersIff | internal/policy/engine.go:74-95 | no order of any evaluators changes the decision if and only if the rules given stay the same during the call |
| PolicyEngine.SteadyIff | internal/policy/rule.go:57-75 | as time passes the rules given stay the same if and only if no rule whose selectors apply expires between two places in the chain |
| PolicyEngine.OrderMattersOnlyThroughExpiry | internal/policy/engine.go:74-95 | no order of any evaluators changes the decision if and only if no rule that concerns the subject expires during the call |
| PolicyEngine.EvaluateSeesOneRuleSet | internal/policy/engine.go:12-23 | an Evaluate interleaved with any number of Refresh calls votes with one single rule set, installed when it began or while it ran and unchanged by it |
| PolicyEngine.EvaluateDecidesByOneList | internal/policy/engine.go:12-23 | from call to result, interleaved with any Refresh calls: one list given to Refresh, in force at the call or later, decides alone, each evaluator being given exactly its matching rules of that list in order |
| Models.Store.GetPackageByLookup | internal/models/models.go:252-268 | the row with that tenant, type and lookup name, if any |
| Models.Store.GetVersion | internal/models/models.go:403-416 | the version of that package and lower-cased name, if any |
| Models.Store.GetOrCreatePackageWithLookup | internal/models/models.go:192-222 | the existing row untouched, or a new one with a recognised label |
| Models.Store.CreateVersion | internal/models/models.go:355-382 | a new row, or a duplicate or foreign-key error without effect |
| Models.Store.GetOrCreateBlob | internal/models/models.go:607-629 | the row with that sha256, or a new one |
| Models.Store.CreateFile | internal/models/models.go:650-672 | a new row, or a duplicate or foreign-key error without effect |
| Models.Store.SetProperty | internal/models/models.go:836-854 | replaces the value; a failure of any statement leaves the database unchanged |
| Models.Store.GetProperty | internal/models/models.go:857-869 | the value of that name, if any |
| Models.Store.DeleteProperty | internal/models/models.go:899-904 | removes the value, if any |
| Models.Store.DeleteFile | internal/models/models.go:719-722 | removes the file row alone |
| Models.Store.DeleteVersion | internal/models/models.go:735-762 | removes the version's tree with its properties, or, on a failure of any statement, nothing |
| Models.Store.DeletePackage | internal/models/models.go:773-813 | removes the package's tree with its properties, or, on a failure of any statement, nothing |
| Models.Store.SetPackageCreatedVia | internal/models/models.go:821-831 | relabels one package row, or reports it missing |
| Models.PackageAnswers | internal/models/models.go:192-222 | a package is found by tenant, type and lookup name, and otherwise made with every column as given, an unknown label becoming uploaded |
| Models.VersionAnswers | internal/models/models.go:355-382 | a version is refused exactly if its package has one of that lower-cased name or is missing, and is otherwise a new row |
| Models.BlobAnswers | internal/models/models.go:607-629 | a blob is found by sha256, and otherwise a new row |
| Models.FileAnswers | internal/models/models.go:650-672 | a file is refused exactly if its version has one of that lower-cased name or a parent is missing, and is otherwise a new row |
| Models.RelabelAnswers | internal/models/models.go:821-831 | one package's label changes and no other row or column |
| Models.FileDeletionLeaves | internal/models/models.go:719-722 | every row but that file stays |
| Models.VersionDeletionLeaves | internal/models/models.go:735-762 | all packages, all other versions and all files of other versions stay |
| Models.PackageDeletionLeaves | internal/models/models.go:773-813 | all other packages with their versions and files stay |
| Models.EveryReachableDbIsValid | internal/db/db.go:18-71 | over every run: the unique and foreign keys hold, ids are below the next one, and every (level, id, name) has at most one property |
| Models.DeleteVersionRemovesItsTree | internal/models/models.go:742-760 | the statements and cascades remove exactly the version, its files and the properties of both |
| Models.DeletePackageRemovesItsTree | internal/models/models.go:780-811 | the statements and cascades remove exactly the package, its versions, their files and the properties of all three |
| Models.DoActsOnProperty | internal/models/models.go:715-854 | each operation's effect on any one property: set, cleared with its row's tree, or left alone |
| Models.PropertyIsTheLastOneSet | internal/models/models.go:835-869 | over every run reading a property gives the value last set, unless it or its row's tree was deleted since |
| Models.DeadStaysDead | internal/db/db.go:22-62 | no operation brings a deleted id back |
| Models.LiveRowsShowTheirOwnProperties | internal/models/models.go:715-854 | a property shown by a live row was set while that row was live exactly if the id had been handed out when it was set; even after DeleteFile no deleted row's property shows |
| Models.APropertyCanPredateItsRow | internal/models/models.go:836-854 | a run of two calls after which a package shows a property set before it existed |
| Ingest.Service.CreatePackageAndAddFile | internal/packages/service.go:184-234 | the steps of ingest into a new version, stopping where they stop |
| Ingest.Service.CreatePackageOrAddFileToExisting | internal/packages/service.go:245-305 | the steps of ingest into a version that may exist |
| Ingest.Service.AttachFile | internal/packages/service.go:200-204 | the loop over version properties |
| Ingest.Service.RecordContent | internal/packages/service.go:206-233 | bytes first, then the blob row, then the file row |
| Ingest.Service.OpenFile | internal/packages/service.go:311-324 | the bytes behind a file row |
| Ingest.SaveKeepsIntactIff | internal/storage/storage.go:146-180 | saving keeps every blob row true to its bytes exactly if the digest is not recorded for bytes of another length |
| Ingest.AddKeepsIntact | internal/packages/service.go:184-234 | an ingest that stops before any step or fails leaves every file row with a blob row and every blob row with bytes of its digest and size |
| Ingest.SuccessKeepsIntactIff | internal/packages/service.go:206-222 | a successful ingest does so exactly if its digest is not recorded for bytes of another length |
| Ingest.StoppingAnywhereKeepsIntact | internal/packages/service.go:184-305 | the same over whole runs of ingests, each stopping anywhere, deletions and property writes |
| Ingest.EmptyWorldIsIntact | internal/packages/service.go:134-136 | the empty database and storage meet the invariant, so every run from them does |
| Ingest.AddLands | internal/packages/service.go:184-305 | an ingest changes no existing package, version, blob or file row and adds one file row if it succeeds and none otherwise |
| Ingest.AddLinks | internal/packages/service.go:184-305 | from the package, version and file of a successful ingest the rows lead to the ingested bytes |
| Ingest.AddsUnderTarget | internal/packages/service.go:170-179 | the file goes under the existing package row of that name, unchanged, or under the new row the ingest creates |
| Ingest.RowsOf | internal/packages/service.go:162-233 | the rows of a successful ingest column by column: package by lookup name or lower-cased name, version, blob with its digests, file; existing package, version and blob rows as they are |
| Ingest.PropertiesOf | internal/packages/service.go:200-204 | a successful ingest has set on its version every property given, the last entry of a name counting, and no other property anywhere; a stopped one has done so for the entries its steps sufficed for |
| Ingest.PutAllSets | internal/packages/service.go:200-204 | setting properties one after another leaves each name with its last value and other names and rows as before |
| Ingest.IngestedBytesReadBack | internal/packages/service.go:307-324 | reading an ingested file at any later time gives exactly its bytes, until it is deleted |
| Ingest.BytesStayReadable | internal/packages/service.go:307-324 | no later ingest or deletion changes what a remaining file reads |
| Ingest.EqualBytesShareABlob | internal/models/models.go:606-629 | two files share a blob row if and only if they have equal bytes |
| Ingest.AddAnswers | internal/packages/service.go:184-305 | the answer of an ingest in every case, in the order in which its steps find out: it succeeds if and only if, before it starts, its tenant is known, its steps suffice and its version or filename is free, and otherwise fails with the error of the first obstacle |
| Ingest.StoppedAddCanBeRetried | internal/packages/service.go:236-305 | wherever it stopped, trying again succeeds unless the filename was taken before the first attempt |
| Ingest.StoppedNewVersionCannotBeRetried | internal/packages/service.go:181-198 | after a stop past the version row, trying again is refused as a duplicate and no file is added |
| Ingest.StoppedNewVersionRetriedIff | internal/packages/service.go:184-234 | trying a stopped upload of a new version again succeeds if and only if it stopped before the version row and the version was not there before; otherwise it is a duplicate |
| Provenance.Handlers.Upload | internal/packages/pypi/handler.go:218-247 | the gate and the ingest of an upload |
| Provenance.Handlers.PullThroughPersist | internal/packages/goproxy/upstream.go:587-631 | the ingest of a pull-through, skipped for a Go version already there |
| Provenance.LabelsAreSticky | internal/models/models.go:192-222 | over every run of uploads, pull-throughs and deletions a package row keeps the label it was created with |
| Provenance.AddedFileGoesUnderTarget | internal/packages/service.go:170-179 | an added file goes under the existing package row of that name, or under the next new row with the request's own label |
| Provenance.ServeKeepsFromIff | internal/packages/pypi/handler.go:218-247 | a request keeps all files under packages of a label of that origin, except exactly when it targets such a package, has the other origin, is let in and, by what is stored before it, will add its file; for uploads and pull-throughs of both formats |
| Provenance.AddsIffWillAdd | internal/packages/goproxy/upstream.go:587-631 | whether a request adds a file is decided by the gate, the early return and the rows and steps before it |
| Provenance.AddsFileIff | internal/packages/goproxy/handler.go:346-369 | a request adds its file if and only if no gate that works sees a mirrored package of its name, no Go pull-through sees the version, no Go upload finds it, the filename is free, the tenant known and the steps suffice, all by the columns of the rows |
| Provenance.AddedFileIs | internal/packages/goproxy/upstream.go:594-631 | the rows of the request's name lead to the added file with its bytes; a Go version shows its go.mod, a PyPI version the properties uploaded, and a new package the label of the request's kind |
| Provenance.AlwaysFromIff | internal/packages/pypi/handler.go:218-247 | throughout a run all files under packages of a label have that origin if and only if no request of the run crosses over and is let in |
| Provenance.OverlappingAlwaysFromIff | internal/packages/pypi/handler.go:226-247 | the same when lookups and ingests of any number of requests overlap: the promise always holds if and only if no ingest finds a package of that label in its request's way and goes through |
| Provenance.OverlappingLabelsAreSticky | internal/models/models.go:192-222 | labels never change in such runs either |
| Provenance.OnlyANewerMirrorIsCrossed | internal/packages/goproxy/handler.go:346-369 | an upload that a working gate let in lands under a mirrored package only if that package's row was created after the gate had looked |
| Provenance.AGateRace | internal/packages/pypi/handler.go:226-247 | four events of two overlapping requests, no lookup failing, after which a mirrored package holds an uploaded file |
| Provenance.StoppedGoPullRetriedIff | internal/packages/goproxy/upstream.go:587-631 | trying a stopped Go pull-through again adds its file if and only if it stopped before the version row; after that the retry does nothing and there is no file |
| Provenance.EmptySiteIsFrom | internal/models/models.go:192-222 | an empty registry meets both label promises |
| Provenance.MirrorIsCrossedIff | internal/packages/pypi/handler.go:226-235 | what crosses into a mirrored package are exactly the uploads whose gate lookup fails and that would otherwise go through |
| Provenance.UploadedIsCrossedIff | internal/packages/pypi/handler.go:462-516 | what crosses into an uploaded package are exactly the pull-throughs that go through; no gate stops them |
| Provenance.OnlyAMissedGateCrosses | internal/packages/goproxy/handler.go:346-355 | an upload gets a file into a mirrored package only if the gate's lookup failed |
| Provenance.MirroredPackagesHoldPulledFiles | internal/packages/pypi/handler.go:218-235 | over every run in which no gate lookup on a mirrored package fails, every file under a mirrored package was pulled from upstream |
| Provenance.UploadedPackagesHoldUploadedFiles | internal/packages/pypi/handler.go:462-516 | uploaded packages hold only uploaded files as long as no pull-through targets them |
| Provenance.CrossingsGoIn | internal/packages/pypi/upstream.go:491-503 | for both formats, an upload past a failed lookup and a pull-through into an uploaded package break the label's promise if and only if they would go through |
| Provenance.ACrossingRun | internal/packages/pypi/handler.go:226-247 | two requests from an empty registry, in either order of origin, after which one package holds files of both origins |
| Provenance.UpstreamFileEntries | internal/packages/pypi/upstream.go:289-324 | the loop keeps the upstream files without local namesake that policy does not block |
| Provenance.AdditionsCount | internal/packages/pypi/upstream.go:306-322 | each offered upstream file is added as often as upstream lists it, no other file is |
| Provenance.AdditionsKeepOrder | internal/packages/pypi/upstream.go:306-322 | additions come in upstream order |
| Provenance.IndexIs | internal/packages/pypi/handler.go:352-411 | an index starts with the local files; behind them a mirrored package, and no other, has exactly the upstream files that policy does not block and that have no local namesake |
| Provenance.Handlers.PackageIndex | internal/packages/pypi/handler.go:352-411 | the loop over the local file rows and the gated merge give that index of the package's rows and label |
| Provenance.LinkLeadsBack | internal/packages/pypi/handler.go:365-372 | a local line of the index has the digest of the bytes its file reads, and its link, split as the download route splits it and looked up, leads back to the file, exactly if no name has a slash in it |
| Provenance.UploadedIndexTakesNothing | internal/packages/pypi/handler.go:394-405 | in every later state the index of a package uploaded first lists exactly its local files, whatever upstream offers; all of them were uploaded if no pull-through targeted an uploaded package |
| CappedReader.CappedReadCloser.Read | internal/upstream/fetcher.go:281-307 | one read with the cap, the probe at the cap and the sticky error |
| CappedReader.CapIsEnforced | internal/upstream/fetcher.go:268-307 | for every positive cap, source, short-read pattern and buffer sizes: a prefix of at most max bytes; shorter sources whole with their own end, longer ones exactly max bytes and then the size error; exactly max bytes accepted if and only if the end comes with the last byte |
| CappedReader.DrainOutcome | internal/upstream/fetcher.go:281-307 | the same for any reader in mid-stream and any cap |
| CappedReader.TooLargeIsSticky | internal/upstream/fetcher.go:281-307 | after the size error every later read gives it again, delivers nothing and takes nothing from the source |
| CappedReader.ReadAllTakesPrefix | internal/upstream/fetcher.go:232-233 | the metadata path reads the first max+1 bytes of any source, however it splits them |
| CappedReader.ReadAllFailsIff | internal/upstream/fetcher.go:232-236 | it fails exactly if a broken end is seen before the limit cuts it off |
| CappedReader.MetadataOutcome | internal/upstream/fetcher.go:230-247 | it accepts exactly the bodies within the cap that end cleanly, and refuses larger ones as too large unless they break with the byte that is one too many |
| CappedReader.PathsAgreeIff | internal/upstream/fetcher.go:230-253 | for every source, ending cleanly or not, both paths report the same bodies as too large except: exactly max bytes ending late, a break one byte over, and any body that a cap which is not positive refuses on one path only |
| CappedReader.ExactlyMaxCanBeRefused | internal/upstream/fetcher.go:282-289 | a one-byte body under a cap of one, refused by one path and accepted by the other |
| CappedReader.OneOverCanBeBroken | internal/upstream/fetcher.go:234-241 | two bytes under a cap of one, the second breaking: too large to one path, a failed read to the other |
| SimpleIndex.ParseSimpleHTML | internal/packages/pypi/upstream.go:113-165 | the loop ends on every page and collects the files of its tags in order with their versions, or panics |
| SimpleIndex.VersionsOnce | internal/packages/pypi/upstream.go:156-162 | no version is listed twice |
| SimpleIndex.VersionsAre | internal/packages/pypi/upstream.go:156-162 | the versions listed are exactly those that files have |
| SimpleIndex.SdistGivesItsVersion | internal/packages/pypi/upstream.go:191-212 | a source distribution has as its version the first dash-separated part after the first that starts with a digit, so name-version.tar.gz gives its version; none if no part does |
| SimpleIndex.WheelGivesItsVersion | internal/packages/pypi/upstream.go:191-212 | the same for a wheel, so name-version-tags.whl gives its version |
| SimpleIndex.PanicsIffATagOverruns | internal/packages/pypi/upstream.go:169-189 | the parser panics exactly if in some tag the lower-cased text has its first href= where the tag has run out |
| SimpleIndex.NoPanicIfLowerKeepsLength | internal/packages/pypi/upstream.go:169-176 | it never panics on a page whose tags lower-casing does not lengthen |
| SimpleIndex.TagIsRead | internal/packages/pypi/upstream.go:126-150 | any tag with a link in single or double quotes is read as its URL, the text behind its first > and the value of a fragment named sha256 alone, or skipped if link or text is empty |
| SimpleIndex.NoLinkIsSkipped | internal/packages/pypi/upstream.go:169-189 | a tag without href=, or with an unquoted or unclosed value, is skipped |
| SimpleIndex.NextTagIs | internal/packages/pypi/upstream.go:116-128 | each tag runs from the first opening to the next closing one |
| SimpleIndex.NoTagIsLeft | internal/packages/pypi/upstream.go:116-128 | the loop stops when no opening has a closing behind it |
| SimpleIndex.AWidePagePanicsIff | internal/packages/pypi/upstream.go:169-176 | a page whose tag has n letters of two bytes with three-byte lower case before its href= panics the parser if and only if n is more than four |
| SimpleIndex.RowIsRead | internal/packages/pypi/upstream.go:126-150 | a rendered row is read as its file, with the name trimmed, or skipped without a name |
| SimpleIndex.RowsReadBack | internal/packages/pypi/upstream.go:113-165 | parsing rendered rows between any text without tags gives the files in order with URLs and sha256 values; the very same list if and only if every name is trimmed and not empty |
| SimpleIndex.PageReadsBack | internal/packages/pypi/upstream.go:627-634 | the same for the page the template renders for a package |
| AuditCsv.FieldReadsBack | internal/console/audit.go:166-171 | a written field is read back, whatever it contains |
| AuditCsv.PlainIff | internal/console/audit.go:166-171 | a field is written as it is if and only if it has no comma, quote or line break |
| AuditCsv.CsvJoin | internal/console/audit.go:158-164 | the fields as one comma-separated line |
| AuditCsv.RowReadsBack | internal/console/audit.go:158-171 | a written row of at least one field is read back and ends at its line feed |
| AuditCsv.TextReadsBack | internal/console/audit.go:140-154 | every list of non-empty rows of arbitrary strings is read back exactly by a reader of section 2 of RFC 4180 |
| AuditCsv.AuditExportCSV | internal/console/audit.go:141-153 | the export reads back as the header and one row of columns per event |
| AuditCsv.ExportReadsBack | internal/console/audit.go:141-153 | the exported text reads back as the header and one row of columns per event |
| AuditCsv.ValuesStandUnderTheirNames | internal/console/audit.go:141-153 | in what is read back each event's values stand in order under the names of their columns |
| AuditCsv.ExportDeterminesEvents | internal/console/audit.go:141-153 | different lists of events have different exports, if numbers are rendered distinctly |

## Left out

- HTTP, routing, HTML pages, sessions, configuration, permission checks, allowlists and address checks.
- Cryptography, compression, archives, OpenPGP, JSON and XML: a digest is a function of bytes, a generated key pair a fresh value.
- SQL text and SQLite's internals; store operations run one at a time, and the lost-race branches after an insert conflict are therefore not reached.
- Tenant rows: the set of tenants is fixed, because the program deletes none.
- Listing queries, quarantine, license and publish-time columns of versions, and the admin relabelling of packages in runs of requests.
- strings.ToLower, strings.TrimSpace, strings.EqualFold and path.Match, which are parameters; the round trip of the index page assumes of lower-casing only that it leaves the text of a lower-case opening tag as it is.
- html/template's escaping: the index page is modelled for values over bytes the template copies unchanged.
- The sharing of one cache entry between the cache and a caller holding it from an earlier hit, whose expiry a refresh moves.
- The order of rules equal in specificity and priority, which sort.Slice leaves open; SortRules is one such sort.
- Floating-point rounding of tokens: they are reals.
- Integer widths: counts, sizes and times are unbounded, so the drop counter does not wrap.
- Failures to close or remove a temp file, and the boot-time sweep of leftovers.
- Concurrent calls on one upload session, and Log after Close, which panics.
- The deadline, retry and header handling of upstream fetches, and the singleflight group.
- Fetching, policy and publish-time steps around a pull-through; its persisting step is modelled.
- ExclusivePool.Mutex.Lock: demands a free mutex, because a method of the class cannot block; the waiting itself is in the interleaving of threads.
- The clock within one evaluator's filter: its rules are matched at one instant, while different evaluators may see different ones.
- Provenance.Handlers.PackageIndex: is given the rows of the readable versions in listed order, and leaves out file sizes, requires-python and the merged list of versions, because the quarantine filter, the sorting and these columns do not touch the merge.
- Overlapping ingests: requests and ingests run one after another, and where requests overlap their lookups and ingests do, an ingest being one step. Two ingests whose package, version and file rows interleave are not modelled.

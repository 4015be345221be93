# Theia: verified models of its core

Theia is a network-topology service with a poller, an HTTP API and a desktop launcher bridge. This
project models its most intricate parts in Dafny and proves what they guarantee, over every input,
every interleaving and every run.

| Dafny files | What they model |
|---|---|
| `KeyIndex`, `CacheStore`, `CacheNames`, `ResidentCache` | the resident device and link cache: row maps, two secondary indexes, adjacency, lazily sorted lists, and the spellings that find a row |
| `ChangeFeed`, `CacheProtocol` | repository change events, and the refresh protocol around the cache as a system of steps |
| `CacheControl`, `CacheCoherence`, `CacheTheorems`, `CacheFreshness`, `CacheFindability`, `CacheProgress`, `CacheCompletion` | what every run of that protocol guarantees |
| `CounterRates`, `RateStreams` | interface rates from octet counters, one round and whole streams |
| `WindowLimiter` | the bridge's fixed-window rate limiter |
| `Leases`, `LeaseProtocol`, `BulkLimiter` | bulk-download admission: lease keys, two ways to acquire, interleaved requests, local counters |
| `Routes`, `RoutePermissions` | route patterns, the registry validator, and the decision to forward a request |
| `DesktopEntry` | the Linux autostart file |
| `Keyring`, `KeyStore`, `KeyParsing`, `KeyDocuments`, `KeyInputs` | encryption keyrings, their persistence, and the texts they are restored from, entry by entry and as whole documents |
| `Basics`, `Text`, `Sorting` | shared value types, Go string functions, sorting |

Go iterates over maps in an arbitrary order. Wherever that matters the order is a parameter
(`Visits`), so a theorem holds for every order or says for which it does.

## Main results

**Cache refresh protocol.** Writers commit and announce changes while any number of getter calls
lock, refresh, wait and answer; the mutex is free during repository reads.

- `CacheTheorems.EveryRun`: in every run, a resident row is the committed one unless an event about it
  is on its way or a reload is owed; indexes, adjacency and lists are consistent; one refresh window
  at most; every channel closed exactly once.
- `CacheFreshness.OwnRefreshIsFresh`: a call that refreshes for itself shows every announced row as
  it was committed at some moment since the call took the mutex.
- `CacheTheorems.ReadersInAWindowSeeOneSnapshot`: while a window is open, all readers are served the
  rows published before it.
- `CacheFindability.TrustedAnswersFindEverything`: as long as the batches since the last reload keep
  key owners, every answer is given from complete indexes.
- `CacheProgress.NobodyIsStuck`: no reachable state deadlocks.
- `CacheCompletion.ErrorsAreExcused`: a call ends in an error only after a broken full read, a panic, or
  a failed read that follows its own full reload. A failed read of changed rows alone never ends one.
  `CacheCompletion.EveryCallCanFinish` and `CacheCompletion.OwnStepsDescend`: from every reachable state
  a call that holds the mutex or the window can go on by itself to its answer, and every step it takes
  brings it nearer to its end.
- `CacheNames.SameHostIff`, `CacheNames.SamePairIff`: which spellings of a name find a row.

**Key texts.** `KeyInputs.EveryTextIsADocument` and `KeyDocuments.DocumentsParse` together say what the
restore form makes of every text: each text is a list of lines of five kinds, and the form yields exactly
what those lines mean. `KeyInputs.PairsAreRestored` and `KeyInputs.EnvironmentListParsesIff` draw the
consequences for lists of pairs.

**Properties that turn out false, with their exact conditions.**

- *Every sysName and endpoint pair stays findable.* A batch applies changes in map order, and
  dropping an old key does not look at who owns the entry. `CacheStore.ReplacedDeviceCanBeLost` loses
  a resident device; `CacheStore.SysNamesFindableIff` and `CacheStore.EndpointsFindableIff` say that
  every order is safe exactly when no changed row gives up a key another row holds afterwards.
- *No emitted rate starts at an anomalous sample.* The sample after a flagged one becomes the
  baseline unexamined. `RateStreams.DoubleResetStartsDirty` shows it; `RateStreams.EmitsIffEvenRun`
  and `RateStreams.WindowsStartCleanIff` give the parity of the anomaly run as the condition.
- *The two lease acquisitions agree.* They differ exactly when the lowest free slot's key is the
  actor's key (`Leases.AcquireBothWays`), which the handler's actor names rule out
  (`Leases.AcquisitionsAgreeForCallers`).
- *A saved keyring reloads as returned.* `KeyStore.SaveIsFaithfulIff` gives the exact condition, for
  a save with and without a current keyring, an environment, a file and a directory. It fails in
  three ways. Without a current keyring the result is made of the new entries alone, under whichever
  comes first, and forgets all earlier ids (`KeyStore.SaveWithoutKeyringForgets`); the restore
  service makes that call when it was set up with a raw key. A hand-edited file that spells an id
  with surrounding space keeps both spellings (`KeyStore.RespelledIdCanDiffer`). Extra entries that
  coincide after trimming can leave different secrets in memory and file
  (`KeyStore.AmbiguousSaveCanDiffer`); that case is for direct callers only, since what the restore
  form yields is trimmed (`KeyParsing.ParsedKeysAreClean`). For a process that runs on the keyring of
  its world and a file without such spellings, restoring works end to end
  (`KeyParsing.RestoredKeysSurvive`).
- *An autostart path reads back.* True exactly for paths that have no line break and are valid UTF-8
  (`DesktopEntry.FileRoundTripIff`): the scanner writes U+FFFD for any other byte
  (`DesktopEntry.StrayByteIsReplaced`).
- *The texts an administrator saves restore the key.* True for every generated key; in general
  exactly when the id is not read as a comment or a variable and nothing holds a separator
  (`KeyParsing.PendingSecretParsesIff`, `KeyParsing.EnvSnippetParsesIff`,
  `KeyParsing.EnvironmentAcceptsTheSnippetIff`).

**Where code and documentation disagree.** The comment above `ParseFlexibleEncryptionKeys` lists
`THEIA_ENCRYPTION_KEY=legacysecret` as a legacy form. The code has no case for it and yields an entry
whose id is the variable's name (`KeyParsing.LegacyLineNamesTheVariable`).

## Assumptions

- Row ids are naturals with the order of the UUID text; they are unique and never reused.
- `GetAll` and `GetByID` each read one committed state. A batched read of changed rows is a sequence
  of single reads, which allows more behaviours.
- A write is announced after its commit, at any distance and in any order; until then its row is
  excused. The cache is the only consumer of the repair flags. Either both repositories publish
  events or neither does.
- Rates are exact reals, instants are integers, and lower-casing is ASCII. Text is valid UTF-8, except
  in `DesktopEntry`, where a path is any bytes.
- An advisory lock is its key: the hash that turns keys into lock numbers is taken to be injective.
  A released or lost connection frees its locks.
- The keyring file is read and written atomically, writing succeeds, and JSON round-trips.

## Model

| member | source | states |
|---|---|---|
| KeyIndex.ChangeAllKeepsSound | internal/cache/cache.go:503-552 | after any batch in any order, an index hit is a resident row that carries exactly that key |
| KeyIndex.RowsOfBatch | internal/cache/cache.go:339-352 | the rows left by a batch do not depend on the iteration order |
| KeyIndex.CompleteInEveryOrderIff | internal/cache/cache.go:503-552 | every row stays findable in every order if and only if no changed row gives up a key that a row holds afterwards |
| KeyIndex.LostWhenVisitedLast | internal/cache/cache.go:503-515 | visiting last the row that gives a key up leaves the key's new owner unfindable |
| KeyIndex.BatchOrderDoesNotMatter | internal/cache/cache.go:339-352 | with distinct keys that keep their owners, rows and index are the same in every order |
| KeyIndex.HandoverDependsOnOrder | internal/cache/cache.go:503-528 | one row replaced by another with its key: one order loses the key, the other files it under the new row |
| KeyIndex.LoadBuildsTable | internal/cache/cache.go:444-460 | loading a snapshot with unique ids gives a well-keyed, sound and complete table that the snapshot lists |
| CacheStore.ListOrdersAreStrict | internal/cache/cache.go:572-602 | the two list orders are strict, and ids tell all devices apart |
| CacheStore.UnindexIsExact | internal/cache/cache.go:563-570 | removing a link keeps every adjacency bucket exactly the incident links and leaves no empty bucket |
| CacheStore.IndexIsExact | internal/cache/cache.go:554-561 | adding a link keeps every adjacency bucket exactly the incident links |
| CacheStore.DeviceChangeKeepsConsistent | internal/cache/cache.go:503-528 | a device change keeps keys, indexes, adjacency and clean lists consistent |
| CacheStore.LinkChangeKeepsConsistent | internal/cache/cache.go:530-570 | so does a link change, including one that moves endpoints or is a self-loop |
| CacheStore.ReloadIsConsistent | internal/cache/cache.go:436-471 | a full reload from snapshots with unique ids is consistent, whatever was resident before |
| CacheStore.ReloadHoldsSnapshot | internal/cache/cache.go:436-471 | after a reload the resident rows are exactly the tables the snapshots list |
| CacheStore.DeviceBatch | internal/cache/cache.go:339-345 | applying a device batch is the table batch, stays consistent, and touches no link |
| CacheStore.LinkBatch | internal/cache/cache.go:346-352 | applying a link batch is the table batch, stays consistent, and touches no device |
| CacheStore.SysNamesFindableIff | internal/cache/cache.go:503-528 | all sysNames stay findable in every order if and only if no changed device gives up a name held afterwards |
| CacheStore.EndpointsFindableIff | internal/cache/cache.go:530-552 | the same for links and endpoint pairs |
| CacheStore.ReplacedDeviceCanBeLost | internal/cache/cache.go:503-528 | delete and re-create under one sysName in a batch: resident both ways, findable in one order only |
| CacheStore.IncidentLinksAreAScan | internal/cache/cache.go:217-244 | a device's incident links in ascending order are the sorted list of all links, filtered by incidence |
| CacheNames.NormalizedSpelling | internal/domain/link.go:13-20 | a label, with or without a dot and a domain, between spaces: the normalised name is the label with exactly its ASCII capitals lowered |
| CacheNames.EveryNameIsSpelled | internal/domain/link.go:13-20 | every text is such a spelling |
| CacheNames.SameHostIff | internal/domain/link.go:13-20 | two names find the same row if and only if they spell one non-empty label up to case |
| CacheNames.SameInterfaceIff | internal/cache/cache.go:617-619 | two interface names are one if and only if they differ in case and surrounding space at most |
| CacheNames.SamePairIff | internal/cache/cache.go:604-619 | two endpoint pairs are one if and only if the device ids agree end by end and so do the interface names |
| CacheNames.AscendingByHostname | internal/cache/cache.go:572-586 | a device list is in the list order if and only if hostnames never go down in code-point order and ids go up where they are equal |
| CacheNames.AscendingByCreation | internal/cache/cache.go:588-602 | a link list is in the list order if and only if creation times never go down and ids go up where they are equal |
| ResidentCache.DeviceLinkCache.constructor | internal/cache/cache.go:79-114 | a new cache is empty, consistent, not loaded and owes a full reload |
| ResidentCache.DeviceLinkCache.IndexLinkEndpoints | internal/cache/cache.go:554-561 | the loop over both endpoints adds the link to both buckets and changes nothing else |
| ResidentCache.DeviceLinkCache.UnindexLinkEndpoints | internal/cache/cache.go:563-570 | the loop removes it from both and drops emptied buckets |
| ResidentCache.DeviceLinkCache.UpsertDeviceLocked | internal/cache/cache.go:503-515 | the whole new contents, equal to the value-level upsert |
| ResidentCache.DeviceLinkCache.DeleteDeviceLocked | internal/cache/cache.go:517-528 | the whole new contents; an unknown id changes nothing, not even the dirty flag |
| ResidentCache.DeviceLinkCache.UpsertLinkLocked | internal/cache/cache.go:530-540 | the whole new contents, equal to the value-level upsert |
| ResidentCache.DeviceLinkCache.DeleteLinkLocked | internal/cache/cache.go:542-552 | the whole new contents; an unknown id changes nothing |
| ResidentCache.DeviceLinkCache.ApplyDeviceBatch | internal/cache/cache.go:339-345 | for some visiting order, exactly the device changes of the batch in that order |
| ResidentCache.DeviceLinkCache.ApplyLinkBatch | internal/cache/cache.go:346-352 | for some visiting order, exactly the link changes of the batch in that order |
| ResidentCache.DeviceLinkCache.Install | internal/cache/cache.go:443-470 | replaces everything resident by the two snapshots, loaded and owing nothing |
| ResidentCache.DeviceLinkCache.GetDevices | internal/cache/cache.go:118-131 | every device once; if dirty, rebuilt with hostnames ascending by code point, otherwise the kept list; no other change |
| ResidentCache.DeviceLinkCache.GetLinks | internal/cache/cache.go:135-148 | every link once; if dirty, rebuilt with creation times ascending, otherwise the kept list; no other change |
| ResidentCache.DeviceLinkCache.GetDeviceBySysName | internal/cache/cache.go:164-178 | a hit is a resident device whose name spells the same host as the one asked for; with a complete index a miss means that no resident device's does |
| ResidentCache.DeviceLinkCache.GetLinkByEndpointPair | internal/cache/cache.go:194-213 | a hit is a resident link that joins the two devices at interfaces of those names, up to case and surrounding space; with a complete index a miss means that no resident link does |
| ResidentCache.DeviceLinkCache.GetDeviceTopology | internal/cache/cache.go:217-244 | the devices are the asked-for one and those a resident link joins to it, if resident; the links equal a filter of the sorted list of all links |
| ResidentCache.BuildSorted | internal/cache/cache.go:572-602 | every row once, in ascending order |
| ChangeFeed.CoalesceKeepsLast | internal/cache/cache.go:307-331 | a row is in the coalesced batch if and only if it was in an event, with the kind of its last event |
| ChangeFeed.Drain | internal/cache/cache.go:307-331 | takes at most 512 events from the front, coalesced, and leaves the rest |
| ChangeFeed.FetchChanged | internal/cache/cache.go:356-434 | succeeds if and only if no read fails and every changed row still exists, and then returns exactly those rows |
| ChangeFeed.CommitKeepsOrder | internal/repository/postgres/device_repo.go:78-93 | deletions are only ever announced for deleted ids, and deleted ids stay deleted |
| ChangeFeed.CommitKeepsAgreement | internal/repository/postgres/device_repo.go:78-93 | no commit, announcement, dropped announcement or overflow makes a view stale without an event or the repair flag saying so |
| ChangeFeed.TakeKeepsAgreement | internal/cache/cache.go:313-328 | taking an event off the queue affects the agreement of its own row only |
| CacheControl.ControlIsKept | internal/cache/cache.go:246-294 | every step keeps mutual exclusion, single flight, channel discipline, load flags and isolation |
| CacheCoherence.HarmlessKeeps | internal/cache/cache.go:246-354 | a step that leaves feeds and rows alone and drops no drained work keeps coherence |
| CacheCoherence.ChangeAgrees | internal/cache/cache.go:339-352 | applying one drained change makes that row agree with the committed rows and touches no other |
| CacheCoherence.ReadAllIsOk | internal/cache/cache.go:489-501 | a complete read loads to exactly the committed rows |
| CacheCoherence.InstallKeeps | internal/cache/cache.go:436-471 | installing a snapshot, however many writes happened during the read, is coherent and consistent |
| CacheCoherence.WriteDeviceKeeps | internal/repository/postgres/device_repo.go:61-93 | a device write at any moment, even inside a refresh window, keeps coherence |
| CacheCoherence.WriteLinkKeeps | internal/repository/postgres/link_repo.go:57-89 | so does a link write |
| CacheTheorems.KnowledgeIsKept | internal/cache/cache.go:246-501 | every step keeps coherence, consistency and what open reads are known to be worth |
| CacheTheorems.EveryRun | internal/cache/cache.go:246-501 | in every run: coherence, consistency, mutual exclusion, one window at most, every channel closed once |
| CacheTheorems.QuietAnswersAreCommitted | internal/cache/cache.go:246-294 | with nothing on its way and no refresh open, a call answers from exactly the committed rows |
| CacheTheorems.AnswersSeeAPublication | internal/cache/cache.go:246-294 | whoever answers does so on a loaded cache, from the rows of the last window that closed |
| CacheTheorems.ListAnswersArePublished | internal/cache/cache.go:118-148 | in every run a list answer holds every row of the last closed window once and nothing else |
| CacheTheorems.QuietListsAreCommitted | internal/cache/cache.go:118-148 | with nothing on its way and no refresh open, a list answer is exactly the committed table |
| CacheTheorems.ReadersInAWindowSeeOneSnapshot | internal/cache/cache.go:246-263 | while a window stays open, every reader is served the rows published before, whatever happens |
| CacheTheorems.ParkedReadersAreReleased | internal/cache/cache.go:473-487 | a waiting cold reader can go on as soon as no window is open |
| CacheTheorems.ColdReadersWaitForALoad | internal/cache/cache.go:246-263 | nobody is answered before a complete read of both tables has been installed |
| CacheFreshness.StepKeepsFresh | internal/cache/cache.go:246-501 | no step of any thread makes an engaged call lose a row it is bound to show fresh |
| CacheFreshness.BystandersLeaveItAlone | internal/cache/cache.go:246-294 | while a call refreshes, other calls change no feed, no resident row and no load flag |
| CacheFreshness.RunKeepsBounded | internal/repository/postgres/device_repo.go:44-59 | no queue ever exceeds its buffer of 256 |
| CacheFreshness.OwnRefreshIsFresh | internal/cache/cache.go:264-354 | a refreshing call answers each announced row with a value committed at some moment since it took the mutex |
| CacheFindability.StepKeepsFindable | internal/cache/cache.go:333-354 | every step of every thread keeps each trusted index complete but for the rows its open window still has to change |
| CacheFindability.TrustedAnswersFindEverything | internal/cache/cache.go:164-213 | in every run, an answer is given from a complete index if every batch applied since the last reload keeps key owners |
| CacheProgress.RunKeepsReads | internal/cache/cache.go:356-434 | in every run a batch is only applied when all its rows were read |
| CacheProgress.NobodyIsStuck | internal/cache/cache.go:246-294 | in every reachable state with a call under way some call can take a step that is not a failure; how calls end is `CacheCompletion`'s |
| CacheCompletion.StepLands | internal/cache/cache.go:246-294 | per step: a call ends only with an answer or where an error is excused, turns to failure only when a read fails, parks only on a cold cache, answers only from a warm or completely refreshed one |
| CacheCompletion.ErrorsAreExcused | internal/cache/cache.go:264-294 | in every run a call without an answer met a broken full read, a panic, or a failed read after its own full reload |
| CacheCompletion.OwnStepsDescend | internal/cache/cache.go:246-294 | every step of its own brings an engaged call strictly nearer to its end, whatever others do |
| CacheCompletion.EveryCallCanFinish | internal/cache/cache.go:246-294 | from every reachable state an engaged call reaches its answer by its own steps, unless a row is gone in the pass after its own reload |
| CacheCompletion.IdleCallsReadNothing | internal/cache/cache.go:264-332 | with nothing announced, lost or owed a call answers without a read and changes nothing |
| CacheCompletion.ReloadIsAskedForOnce | internal/cache/cache.go:264-287 | asking for a full reload clears what asked for it |
| CounterRates.ComputeCounterRates | internal/collector/rates.go:24-104 | the loop emits and records per interface what the pairwise definition says, in input order |
| CounterRates.BaselineOf | internal/collector/rates.go:24-99 | a reported interface's baseline becomes its sample; others keep theirs |
| CounterRates.EmissionOf | internal/collector/rates.go:24-87 | a metric is emitted if and only if that interface's own sample pair yields exactly it |
| RateStreams.StateIsLastSample | internal/collector/rates.go:24-104 | after any stream the baseline is the interface's last sample, whichever rounds skipped it |
| RateStreams.StreamEmission | internal/collector/rates.go:24-104 | a round emits a metric if and only if the interface's own sample stream emits there, as the rate against the sample just before |
| RateStreams.AbsentInterfacesKeepBaseline | internal/collector/rates.go:89-99 | an interface a round does not report keeps its baseline and is not mentioned |
| RateStreams.EmittedRatesAreSane | internal/collector/rates.go:41-84 | emitted rates are non-negative and at most a tenth above the interface speed |
| RateStreams.EmitsIffEvenRun | internal/collector/rates.go:37-84 | a sample emits if and only if it is sound and the anomaly run before it has even length |
| RateStreams.EmissionInNumbers | internal/collector/rates.go:37-84 | when a sample emits and with which rates, in the counters, instants and speeds of the samples themselves: rate times nanoseconds is 8000000000 times octets, and a pair is sound if and only if time passed, no counter fell, the speed is known and neither direction is more than a tenth above it |
| RateStreams.IsolatedAnomalySilencesTwo | internal/collector/rates.go:37-84 | an isolated anomaly silences itself and the next sample |
| RateStreams.WindowsStartCleanIff | internal/collector/rates.go:37-84 | no emission starts at an anomaly if and only if no even-length anomaly run is followed by a sound sample |
| RateStreams.DoubleResetStartsDirty | internal/collector/rates.go:37-84 | two counter resets in a row: the next rate is measured from an anomalous sample |
| RateStreams.RatesConserveOctets | internal/collector/rates.go:60-84 | over consecutive emissions, rate times elapsed nanoseconds sums to 8000000000 times the octets counted, in both directions |
| WindowLimiter.BridgeRateLimiter.constructor | internal/api/bridge_rate_limiter.go:23-39 | defaults of 20 calls per minute replace non-positive settings |
| WindowLimiter.BridgeRateLimiter.EvictExpired | internal/api/bridge_rate_limiter.go:61-67 | exactly the buckets whose window is still running are kept |
| WindowLimiter.BridgeRateLimiter.Allow | internal/api/bridge_rate_limiter.go:41-59 | decision and whole new map, against the value-level admission |
| WindowLimiter.MapShowsLedger | internal/api/bridge_rate_limiter.go:41-67 | the shared, evicting map shows of each key what a ledger for that key alone shows |
| WindowLimiter.KeysAreIndependent | internal/api/bridge_rate_limiter.go:41-67 | every decision is the one an independent per-key limiter would take |
| WindowLimiter.ClockMustAdvance | internal/api/bridge_rate_limiter.go:41-67 | with a clock that goes back, another key's call can free this key |
| WindowLimiter.AtMostTwiceTheLimit | internal/api/bridge_rate_limiter.go:41-59 | in any stretch of one window's length a key is allowed at most twice the limit |
| WindowLimiter.AtMostTheLimitPerBucket | internal/api/bridge_rate_limiter.go:41-59 | in a running bucket's window its key was allowed exactly the bucket's count, at most the limit |
| WindowLimiter.RefusalsAreEarned | internal/api/bridge_rate_limiter.go:41-59 | a call is refused only if its key was allowed at least the limit of calls less than one window ago |
| Leases.SlotKeysDiffer | internal/api/backup_handler.go:1139-1144 | different slots have different keys |
| Leases.SlotKeyIs | internal/api/backup_handler.go:1139-1144 | a slot's key is the fixed prefix and the decimal digits whose value is the slot |
| Leases.ActorKeyIsSlotKeyIff | internal/api/backup_handler.go:1062-1068 | an actor key is a slot key if and only if the trimmed actor spells the slot |
| Leases.CallersNeverCollide | internal/api/backup_handler.go:1044-1060 | no actor name the handler makes gives a slot key |
| Leases.CallerKeys | internal/api/backup_handler.go:1044-1068 | the key of a request is made of its user id, else of its user name in lower case, else of its address |
| Leases.UsersShareAKeyIff | internal/api/backup_handler.go:1044-1068 | requests of two users share a key if and only if the user ids are equal |
| Leases.UsersAndAddressesDiffer | internal/api/backup_handler.go:1044-1068 | a user never shares a key with a request known only by its address |
| Leases.LowestFree | internal/api/backup_handler.go:1119-1137 | the result is free and all lower slots are held; none means all are held |
| Leases.LockTable.TryAcquireAll | internal/repository/postgres/bulk_operation_lease_repo.go:35-67 | all keys are taken, or the table is unchanged and the first busy key is reported |
| Leases.LockTable.TryAcquire | internal/repository/postgres/bulk_operation_lease_repo.go:28-31 | takes the key if and only if it was free |
| Leases.LockTable.AcquireCombined | internal/api/backup_handler.go:1070-1094 | meets the admission specification; an error leaves the table unchanged |
| Leases.LockTable.AcquireSlot | internal/api/backup_handler.go:1119-1137 | takes the lowest free slot, if any, and nothing else |
| Leases.LockTable.AcquireTwoStep | internal/api/backup_handler.go:1095-1117 | meets the two-step specification; refusal and errors leave the table unchanged |
| Leases.AcquireBothWays | internal/api/backup_handler.go:1070-1117 | the two acquisitions agree on decision and table if and only if the actor's key is not the lowest free slot's |
| Leases.AcquisitionsAgreeForCallers | internal/api/backup_handler.go:1044-1117 | for the handler's actor names both meet one specification |
| Leases.CompositeLease.Release | internal/api/backup_handler.go:1151-1164 | the first call releases each lease once, in the reverse of the order they were acquired, and reports the failure met first; later calls do nothing |
| LeaseProtocol.StepKeepsGood | internal/api/backup_handler.go:1070-1164 | every step keeps the lock table equal to what the requests' phases call for |
| LeaseProtocol.AtMostLimitRequests | internal/api/backup_handler.go:1070-1137 | in every interleaving at most the limit of requests occupy a slot, whatever the keys are called |
| LeaseProtocol.AtMostOnePerActor | internal/api/backup_handler.go:1070-1117 | in every interleaving at most one request per actor is admitted |
| LeaseProtocol.EndedRequestsHoldNothing | internal/api/backup_handler.go:622-646 | a request that ended in any way holds no lock; when all ended the table is empty |
| LeaseProtocol.AcquisitionDecides | internal/api/backup_handler.go:1070-1117 | an uninterrupted acquisition, step by step on any reachable table, decides and changes the table exactly as its specification says |
| LeaseProtocol.ActorRefusalsAreJustified | internal/api/backup_handler.go:1044-1117 | in every interleaving a handler caller is refused for its actor only while another request holds that actor's lock |
| LeaseProtocol.RefusedAcquireRestoresTable | internal/api/backup_handler.go:1070-1117 | an uninterrupted request that is over leaves the table as it found it |
| BulkLimiter.BulkOperationLimiter.constructor | internal/api/backup_handler.go:934-946 | a limit of at least one is used as it is, anything lower becomes one; no counter is set |
| BulkLimiter.BulkOperationLimiter.TryAcquire | internal/api/backup_handler.go:960-977 | verdict in the order actor then global, and the whole new counters |
| BulkLimiter.BulkOperationLimiter.Release | internal/api/backup_handler.go:979-995 | the whole new counters, with the entry dropped at one |
| BulkLimiter.StepKeepsAccurate | internal/api/backup_handler.go:960-995 | admitting and releasing keep the counters equal to the multiset of running operations |
| BulkLimiter.ReachableCountersAreRight | internal/api/backup_handler.go:608-620 | in every reachable state the total is the sum over actors, within both limits, and zero when all is done |
| BulkLimiter.AdmittedIffBelowBothLimits | internal/api/backup_handler.go:960-977 | in every reachable state a request is admitted if and only if its actor runs fewer operations than the actor limit and all together fewer than the global one, with the reason otherwise |
| Routes.MatchRoutePattern | internal/api/middleware.go:394-426 | true if and only if the segment lists have equal length and fit one by one |
| Routes.MatchesIff | internal/api/middleware.go:394-426 | on texts with any slashes around them: as many segments, the same text where the pattern has a fixed one, any non-empty one where it has a name in braces, and nothing else |
| Routes.EveryPathIsSlashed | internal/api/middleware.go:414-421 | every text is its segments between slashes |
| Routes.FirstMatch | internal/api/routes.go:186-193 | the first matching entry, or none matches |
| Routes.Validate | internal/api/middleware.go:367-389 | clean if and only if every entry has a policy and no pattern is shadowed; otherwise the first offender in table order, a repeat before a missing policy before a shadow, with the first pattern that shadows it |
| Routes.ShadowingIsTotal | internal/api/middleware.go:367-412 | every path a shadowed pattern matches also matches the earlier pattern |
| Routes.WitnessResolves | internal/api/middleware.go:367-412 | in an unshadowed registry each pattern, with placeholders filled, resolves to itself |
| Routes.ShadowCheckIsExact | internal/api/middleware.go:367-412 | the shadow check passes if and only if every pattern is what some path resolves to |
| RoutePermissions.NonEmptyPermissionsAre | internal/api/middleware.go:477-492 | no duplicates, and exactly the non-blank trimmed values |
| RoutePermissions.CollectPermissions | internal/api/middleware.go:477-492 | the loop with its seen set computes that list |
| RoutePermissions.BuildProtectedSpecs | internal/api/routes.go:264-276 | the loop keeps the entries that need permissions, in order |
| RoutePermissions.FirstRouteResolves | internal/api/routes.go:186-193 | the table finds nothing if and only if no pattern fits, and otherwise the entry the path resolves to |
| RoutePermissions.PermissionsResolve | internal/api/middleware.go:357-364 | the registry finds nothing if and only if no pattern fits, and otherwise the policy of the entry the path resolves to |
| RoutePermissions.RegistriesAgree | internal/api/middleware.go:321-364 | the derived registry answers with the policy of the very route the full table resolves to |
| RoutePermissions.RequireAnyPermission | internal/api/middleware.go:214-226 | true if and only if one listed permission is held; an empty list never passes |
| RoutePermissions.UserAuth | internal/api/middleware.go:88-113 | forwards if and only if session, password, token and permission checks all pass |
| RoutePermissions.ForwardedExactlyWithARoutePermission | internal/api/middleware.go:88-113 | a request is forwarded if and only if the session is good, a due password change leaves only the three account paths, a POST, PUT, PATCH or DELETE other than the login carries a valid token, and the user holds a permission its own route lists for the method |
| RoutePermissions.ChangesNeedAToken | internal/api/middleware.go:238-245 | a changing request without a valid token is not forwarded, whatever else holds |
| RoutePermissions.OtherRequestsNeedNoToken | internal/api/middleware.go:238-245 | for every other request the token makes no difference |
| RoutePermissions.PasswordChangeComesFirst | internal/api/middleware.go:285-292 | while a password change is due a request is forwarded if and only if it goes to one of the three account paths and would be forwarded anyway |
| RoutePermissions.DerivedRegistryIsUnshadowed | internal/api/routes.go:202-276 | a table that passes its shadow check derives a registry that passes too |
| DesktopEntry.AutostartCommandPath | cmd/winbox-bridge/setup.go:937-967 | the scanner computes the unquoting function on any bytes, or the first field when unquoted |
| DesktopEntry.LinuxAutostartTarget | cmd/winbox-bridge/setup.go:845-860 | the target of the first Exec line of any file, or nothing |
| DesktopEntry.ExecRoundTripIff | cmd/winbox-bridge/setup.go:922-967 | a path written as an Exec value reads back with stray bytes replaced: itself if and only if it is valid UTF-8 |
| DesktopEntry.ArgumentsAreIgnored | cmd/winbox-bridge/setup.go:937-967 | space before the quoted path and anything after its closing quote make no difference |
| DesktopEntry.UnquotedYieldsFirstField | cmd/winbox-bridge/setup.go:937-947 | a value that does not start with a quote yields its first field |
| DesktopEntry.ExecValueIsWellQuoted | cmd/winbox-bridge/setup.go:922-931 | a written value is quoted, with every quote, backtick, dollar sign and backslash behind a backslash of its own and percent signs only in twos |
| DesktopEntry.FileLines | cmd/winbox-bridge/setup.go:810-816 | the written file is exactly five lines, given in full |
| DesktopEntry.TargetsAreSingleLine | cmd/winbox-bridge/setup.go:845-860 | whatever the file holds, the target has no line break |
| DesktopEntry.FileRoundTripIff | cmd/winbox-bridge/setup.go:810-860 | the written file reads back to the path if and only if the path has no line break and is valid UTF-8 |
| DesktopEntry.StrayByteIsReplaced | cmd/winbox-bridge/setup.go:949-966 | a path with one invalid byte comes back with U+FFFD instead |
| Keyring.NewKeyring | internal/crypto/keyring.go:73-99 | succeeds if and only if no entry is blank and the active id is among the trimmed ones; the result holds exactly the trimmed entries |
| Keyring.Merge | internal/crypto/keyring.go:249-263 | for some visiting order, the extra entries laid over the base in that order; if unambiguous, the base overridden by the usable entries |
| Keyring.MergeIsUnion | internal/crypto/keyring.go:249-263 | an unambiguous merge is the base overridden by the usable entries, in every order |
| Keyring.AmbiguousMergeDependsOnOrder | internal/crypto/keyring.go:249-263 | for every ambiguous set of entries two orders disagree about some id |
| Keyring.WithAdditionalKeys | internal/crypto/keyring.go:249-263 | never fails on a sound keyring; the result is sound, keeps the active id and all ids, and merges the extra entries |
| KeyStore.LoadIsEffective | internal/crypto/keyring_store.go:61-111 | loading yields environment keys overridden by the trimmed file keys, or the file's, in every order, and changes nothing |
| KeyStore.YieldsIff | internal/crypto/keyring_store.go:61-111 | all loads agree if and only if there is something to load and the file spells no id with two secrets |
| KeyStore.ReadFailsIff | internal/crypto/keyring_store.go:298-323 | a file is refused if and only if it is unreadable, holds a blank entry, or has no entry for its active id |
| KeyStore.LoadFailsIff | internal/crypto/keyring_store.go:61-111 | loading fails if and only if the environment is broken, or there is none and the directory is missing or the file refused; nothing but a missing file is ever written |
| KeyStore.FirstStartPersistsTheKey | internal/crypto/keyring_store.go:61-111 | the first start stores the generated keyring unacknowledged, and every later load yields it |
| KeyStore.SaveKeepsEverything | internal/crypto/keyring_store.go:180-239 | when a save succeeds; which ids are in the result, with and without a current keyring; the file keeps its active id, all ids and its acknowledgement, and a new one counts as acknowledged |
| KeyStore.SaveIsFaithfulIff | internal/crypto/keyring_store.go:180-239 | every load after the save yields what it returned, in every order, if and only if a condition on world, current keyring and extra entries holds |
| KeyStore.RunningSaveIsFaithfulIff | internal/crypto/keyring_store.go:180-239 | for the keyring a load yields: if and only if there was no file, or the entries are unambiguous alone and next to the file's |
| KeyStore.SaveWithoutKeyringForgets | internal/crypto/keyring_store.go:187-202 | without a current keyring one new entry makes the result lose every earlier id, so no load yields it |
| KeyStore.RespelledIdCanDiffer | internal/crypto/keyring_store.go:220-234 | a file that spells the id with surrounding space makes loads after the save disagree |
| KeyStore.AmbiguousSaveCanDiffer | internal/crypto/keyring_store.go:180-239 | with a file and ambiguous entries, some orders leave different secrets in memory and file |
| KeyStore.KeyringStore.LoadOrGenerate | internal/crypto/keyring_store.go:61-111 | the method meets the load specification for some order; an error changes nothing |
| KeyStore.KeyringStore.SaveAdditional | internal/crypto/keyring_store.go:180-239 | the method meets the save specification for some choices; with nothing to save it returns the current keyring or loads |
| KeyStore.KeyringStore.Acknowledge | internal/crypto/keyring_store.go:159-176 | sets the flag of a readable file and nothing else; an unreadable one is an error |
| KeyParsing.ParsePartsLoop | internal/crypto/keyring_store.go:272-289 | the entry loop computes the recursive parser, errors included; what that parser yields is `KeyDocuments`'s |
| KeyParsing.ParseFlexibleEncryptionKeys | internal/crypto/keyring_store.go:246-296 | the two nested loops compute the recursive parser, errors included; what that parser yields is `KeyDocuments.DocumentsParse`'s |
| KeyParsing.ParsedKeysAreClean | internal/crypto/keyring_store.go:246-296 | whatever the form accepts is trimmed and spells no id with two secrets |
| KeyParsing.RestoredKeysSurvive | internal/service/instance_backup_service.go:311-317 | whatever the form accepts, saved by a process running on its world's keyring, is what every later load yields over all that was there |
| KeyParsing.ParseKeyringLoop | internal/crypto/keyring.go:109-140 | the environment parser's loop computes the recursive parser, errors included; what that parser yields is `KeyInputs.EnvironmentListParsesIff`'s |
| KeyDocuments.DocumentsParse | internal/crypto/keyring_store.go:246-296 | a text of well-formed lines with breaks of either kind: entries count in order, later ones winning, bare secrets go to the default id, comments and blank lines say nothing, and a broken entry or no entry at all is refused |
| KeyDocuments.FormIgnoresSpace | internal/crypto/keyring_store.go:246-296 | space and line breaks around the text make no difference |
| KeyInputs.EveryTextIsADocument | internal/crypto/keyring_store.go:246-296 | every text is such a document, so the form's answer to every text is known |
| KeyInputs.PairsAreRestored | internal/crypto/keyring_store.go:246-296 | any pairs, grouped into lines in any way among comments and blank lines, yield exactly those ids, each with its last secret |
| KeyInputs.EnvironmentListParsesIff | internal/crypto/keyring.go:109-140 | the environment's list is accepted if and only if it is nothing but pairs with distinct ids, the active one among them, and the keyring then holds exactly those pairs |
| KeyParsing.PendingSecretParsesIff | internal/crypto/keyring_store.go:246-296 | the pending secret parses to exactly its key if and only if nothing holds a separator and the id is read as one |
| KeyParsing.EnvSnippetParsesIff | internal/crypto/keyring_store.go:246-296 | the two-line environment snippet does if and only if nothing holds a separator |
| KeyParsing.EnvironmentAcceptsTheSnippetIff | internal/crypto/keyring.go:109-140 | the snippet's values, as environment variables, load the key if and only if both are trimmed and hold no separator, for all texts |
| KeyParsing.GeneratedKeysAreRecoverable | internal/crypto/keyring_store.go:370-384 | every generated key is recovered from each text an administrator can save |
| KeyParsing.StatusShowsWhatRestoreAccepts | internal/crypto/keyring_store.go:114-156 | after a first start the status shows texts that restore the key, until it is acknowledged |
| KeyParsing.StatusShowsSecretsIff | internal/crypto/keyring_store.go:114-156 | key material is shown if and only if the keys come from a file nobody has acknowledged; when the status cannot be given; whose id it names otherwise |
| KeyParsing.LegacyLineNamesTheVariable | internal/crypto/keyring_store.go:241-296 | a legacy single-key line yields an entry named after the variable |

## Left out

- KeyParsing.PendingSecretParsesIff: is stated for ids and secrets on one line, as keys are entered and generated; with a line break inside, what is read also depends on the form's default id.
- KeyParsing.EnvSnippetParsesIff: is stated for ids and secrets on one line, for the same reason.
- KeyParsing.LegacyLineNamesTheVariable: is stated for a secret on one line without commas.
- CacheFreshness.OwnRefreshIsFresh: says nothing about calls answered from the rows published before another call's window; `CacheTheorems.ReadersInAWindowSeeOneSnapshot` is what they get.
- LeaseProtocol.RefusedAcquireRestoresTable: is about an uninterrupted request; under interleaving `LeaseProtocol.EndedRequestsHoldNothing` applies.
- Termination of a waiting getter call under fairness: an engaged call takes finitely many steps and can always finish, but that the scheduler lets it is not modelled.
- GetDeviceByID and GetLinkByID: single map lookups after the same preparation.
- A cached list that came from a full reload keeps the repository's order; the order in which the database returns rows is not modelled.
- Envelope encryption, key derivation and hashing of secrets: cryptographic libraries.
- Floating-point rounding of rates, and overflow of 64-bit counters in the agent.
- Session lookup, token checks and the permission store: their outcomes are inputs of the forwarding decision.
- The macOS and Windows autostart formats, and the rest of the launcher bridge.
- The polling scheduler, topology layout, backup contents and the web client.
- Metrics and log lines.

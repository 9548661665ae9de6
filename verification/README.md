# Verification of the client world cache and the telemetry gateway

Dafny models of the rules Thunderforge keeps on both sides of the wire, with proofs of what those
rules are for. Run `dafny verify dfyconfig.toml` in this directory.

## What is modelled

The **client world cache** is an index of rows (item, world, fingerprint, size, last read), a
directory of encrypted blob files per world, one session key per user scope, and named cross-tab
locks. Several tabs share all of it.

- `KeyCreation`, `KeyProtocol`: how one tab obtains the session key (look, lock, look again, only
  then generate), and any number of tabs doing so at once, one awaited request at a time.
- `Locks`: the request, grant and timeout race behind a lock, following "request a lock" and
  "release the lock" of the Web Locks API (section 4).
- `Sync`: the storage passes (apply a plan, record a fetch, discard a world, repair, enforce the
  budget) as methods over the index and the files, each run by one tab.
- `SyncProtocol`, `SyncRefinement`: the same passes as small steps of any number of tabs, with
  denied locks, failing calls and tabs dying anywhere; and the proof that a pass nobody
  interleaves with computes what the method computes.
- `Budget`, `Delta`, `Prefetch`: the eviction planner, the manifest diff, the speculative queue.
- `Index`, `IndexRace`, `Opfs`, `Outbox`, `OutboxRace`, `Conflict`: the recovered read counter of
  one open index store and of several, the blob store, the offline outbox by one tab and by
  several, the reconnect rule.
- `Fingerprints`, `ConstantTime`: the strict hexadecimal codec and the comparison that does not
  stop early.

The **telemetry gateway** is `TokenBuckets` and `Limits` (a bounded table of token buckets) and
`Intake` (the policy applied to a batch in place).

`Sorting` and `Items` hold shared vocabulary.

Objects the program updates are classes here, its loops are loops, and each method is proved
against a specification function or predicate about which the lemmas then speak. Runs are finite
event lists; an event that cannot happen at some point changes nothing, so a statement about all
lists is a statement about all runs. Time is a real number of seconds, a uuid a natural number,
the hash and the cipher are arbitrary functions (the cipher assumed only to open what it sealed),
the policy's lists and caps are arbitrary functions, and the instance limiter an arbitrary function
of the ids asked so far.

## Where the code falls short of its comments

- The comments on session keys promise one key as long as the lock is granted. Deleting an
  extractable key after reading it is not covered by the lock, so the promise fails for a store
  that starts with such a key and two tabs, and only then: `KeyProtocol.AgreementExactly`.
- The comment on repair says a row naming an unfinished file needs a truncation nothing performs.
  `SyncProtocol.UnfinishedLieIsReachable` reaches one without any truncation;
  `Sync.RepairRestoresReadability` says exactly when repair is enough.
- A discard of a refused world removes its files even when its rows would not go. Passes that
  overlap because a lock was denied, a touch that puts back a row gone since, and a read's
  deletion likewise lose the file of a row: `SyncProtocol.SafetyNeedsDiscipline`. That deletion
  can also hit a file another tab is writing, which the comment on reading rules out:
  `SyncProtocol.LateDiscardHitsAWrite`.
- The prefetch allowance bounds a visit exactly when stores are no larger than planned:
  `Prefetch.AllowanceHoldsExactly`. The store's limit does exactly when, besides, demand loads
  store nothing meanwhile, which the figure a visit carries forward never sees:
  `Prefetch.LimitHoldsExactly`, `Prefetch.OverrunIsBounded`. A refused estimate stops all
  prefetching but that of an item of no planned size into an empty store:
  `Prefetch.ZeroLimitStopsAllButNothing`.
- A plan names an unfingerprinted item by the hash of no bytes. The store refuses its bytes under
  that name unless there are none, and in any case the item is fetched again on every sync:
  `Delta.FollowingConverges`.
- The outbox says callers cannot hand out one number twice. Two tabs whose appends overlap can;
  appends one at a time never do: `OutboxRace.StaysApartExactly`.
- The engine says that an index store of its own for an overlapping access keeps the read numbers
  monotonic. Two open stores give two items one number; below the top number the order of last
  access is safe exactly when one store is open at a time: `IndexRace.KeepsOrderExactly`.
- The gateway says the instance id a resource keeps is checked. Only the first is, and all are
  kept: `Intake.SecondIdLeavesUnchecked`, `Intake.IdsLeaveCheckedExactly`.

## Model

| member | source | states |
|---|---|---|
| KeyCreation.EveryHistory | crates/thunderforge-cache-browser/src/crypto.rs:189-208 | Whatever answers arrive, the ones that are not stray form one of a handful of short histories: a key is generated only after a lock request was answered and a second look found nothing, and the lock is held exactly when it was granted; at most three answers are ever heeded |
| KeyCreation.AnswersAdvance | crates/thunderforge-cache-browser/src/crypto.rs:194-206 | An answer that belongs to the step lowers its rank; a stray one changes neither step nor lock; generation is reached only from the second look finding nothing |
| KeyCreation.KeyCreation.constructor | crates/thunderforge-cache-browser/src/crypto.rs:170-175 | Begins at the unlocked first look |
| KeyCreation.KeyCreation.Advance | crates/thunderforge-cache-browser/src/crypto.rs:194-208 | Updates step and lock as the transition function says and returns the new step |
| KeyCreation.KeyStore.StoredKey | crates/thunderforge-cache-browser/src/crypto.rs:379-392 | Answers only a usable key; an extractable one is deleted, anything else is left alone |
| KeyCreation.KeyStore.LoadOrCreate | crates/thunderforge-cache-browser/src/crypto.rs:321-373 | The driver loop ends; a usable key is returned untouched without asking for the lock, otherwise the minted key is stored and returned after asking once, granted or not |
| KeyProtocol.KeyRuns | crates/thunderforge-cache-browser/src/crypto.rs:321-392 | In every interleaving of any number of tabs, denials, deaths and failures, from a store without an extractable key: the lock is exclusive, stored keys exceed denials by at most one, generated keys exceed denials and failures by at most one, and while nobody was denied every finished tab returned the stored key; from a usable key nothing is generated |
| KeyProtocol.WarmRuns | crates/thunderforge-cache-browser/src/crypto.rs:124-128 | With a usable key stored no tab ever takes the lock, is denied it or generates a key |
| KeyProtocol.AgreementExactly | crates/thunderforge-cache-browser/src/crypto.rs:379-392 | Denial-free runs of n tabs always end with every finished tab holding the stored key if and only if the store did not start with an extractable key or there are no two tabs |
| KeyProtocol.DeletingRaces | crates/thunderforge-cache-browser/src/crypto.rs:387-389 | A concrete run of two tabs, neither denied, in which deleting an extractable key after reading it loses a key another tab stored and returned |
| KeyProtocol.RunsEnd | crates/thunderforge-cache-browser/src/crypto.rs:330-372 | A run of n tabs has at most 8n effective events, and from every state it reaches all tabs can finish without any denial or failure |
| Locks.GuardsAreExclusive | crates/thunderforge-cache-browser/src/locks.rs:148-231 | In every run of any number of requests on one name: a live guard means the lock is held for it, at most one is live, and a request that is over holds the lock only under its live guard or with its promise already resolved |
| Locks.RefinesExclusiveLock | crates/thunderforge-cache-browser/src/locks.rs:208-231 | To callers the request protocol is a plain exclusive lock: ownership moves only from nobody to a request waking up to its grant, and back when that guard is released |
| Locks.HolderCanFree | crates/thunderforge-cache-browser/src/locks.rs:174-184 | Whoever holds the lock, its own callback, wake-up and release free it; no other request has to act |
| Locks.LateGrantIsFreed | crates/thunderforge-cache-browser/src/locks.rs:226-230 | A request that lost the race and is granted later never yields a guard, and the browser frees its lock once the callback has run |
| Locks.EveryCallerGoesOn | crates/thunderforge-cache-browser/src/locks.rs:166-217 | No caller waits for ever: its timer, or without one its callback, lets it go on |
| Locks.ReleasingTwiceIsOnce | crates/thunderforge-cache-browser/src/locks.rs:117-122 | Releasing a second time changes nothing |
| Locks.Guard.Release | crates/thunderforge-cache-browser/src/locks.rs:117-122 | The promise is resolved by the first release only |
| SyncProtocol.FlawlessRunsStayConsistent | crates/thunderforge-cache-browser/src/sync.rs:341-824 | Over every interleaving of any number of passes and reads, storage call by storage call, with locks denied, calls failing and tabs dying anywhere: as long as no pass started in a world where another was under way, no refused world kept rows that would not go, no touch put back a row that had gone or changed since it was read, and no read deleted a file a row names or is about to, every row names a finished file, shared files included |
| SyncProtocol.LocksKeepPassesApart | crates/thunderforge-cache-browser/src/locks.rs:148-231 | While no lock is denied, no pass ever starts in a world where another is under way, tabs dying included |
| SyncProtocol.ActKeeps | crates/thunderforge-cache-browser/src/sync.rs:341-824 | Each storage call of each pass, under its world's lock, keeps every row's file finished and establishes what the pass's next call relies on; a repair's candidates and an eviction's file are unnamed when deleted |
| SyncProtocol.ActFrame | crates/thunderforge-cache-browser/src/sync.rs:655-747 | A pass of one world never disturbs what a pass of another world relies on |
| SyncProtocol.DisciplinedRun | crates/thunderforge-cache-browser/src/sync.rs:341-824 | One call of one pass keeps the invariant of all passes, whichever of them are under way |
| SyncProtocol.DiscardLeavesNothing | crates/thunderforge-cache-browser/src/sync.rs:445-474 | When a discard of a refused world makes its last call, no row of that world is left, whatever other tabs are doing; no file of it is left either if and only if that call succeeds or there was none |
| SyncProtocol.SafetyNeedsDiscipline | crates/thunderforge-cache-browser/src/sync.rs:341-824 | Runs that show only an allowed set of flaws are safe if and only if that set is empty: passes of one world overlapping, rows that would not clear, a touch that restores a row gone or changed, and a read deleting a needed file each lose the file of some row |
| SyncProtocol.DenialLosesAFile | crates/thunderforge-cache-browser/src/sync.rs:804-823 | A write that goes ahead without the lock can index its item just before another tab wipes the world's files |
| SyncProtocol.UnclearedIndexLosesAFile | crates/thunderforge-cache-browser/src/sync.rs:464-473 | A discard whose rows would not go removes the files they name all the same |
| SyncProtocol.TouchResurrects | crates/thunderforge-cache-browser/src/index.rs:303-309 | Getting a row and putting it back without the lock restores a row whose file went in between |
| SyncProtocol.UnlockedDiscardLosesAFile | crates/thunderforge-cache-browser/src/opfs.rs:126-137 | A read that deletes a file it could not open leaves the row that named it |
| SyncProtocol.LateDiscardHitsAWrite | crates/thunderforge-cache-browser/src/opfs.rs:126-137 | A run in which a read that found a finished file deletes the unfinished one another tab has created in its place since; it harms no row |
| SyncProtocol.UnfinishedLieIsReachable | crates/thunderforge-cache-browser/src/sync.rs:562-569 | A run after which a row names an unfinished file, the one lie no repair looks for |
| SyncRefinement.RepairAlone | crates/thunderforge-cache-browser/src/sync.rs:536-597 | The small steps of a repair, taken alone and in any order, can end, and end with exactly the rows and files the whole pass computes |
| SyncRefinement.EvictAlone | crates/thunderforge-cache-browser/src/sync.rs:363-397 | The small steps of one group of an eviction, taken alone, end within four calls for each item and one more with exactly what the whole loop computes, and go on to the groups left |
| SyncRefinement.PassAlone | crates/thunderforge-cache-browser/src/locks.rs:148-231 | A pass of the protocol with nothing else going on starts, is granted its lock, and once ended has done to the disk what its small steps do alone and left no lock and no trace |
| SyncRefinement.BudgetAlone | crates/thunderforge-cache-browser/src/sync.rs:707-747 | A budget pass over any number of worlds, run through the protocol by itself, asks for, takes and frees the worlds' locks one after another and leaves exactly the rows and files the whole pass does |
| SyncRefinement.FetchAlone | crates/thunderforge-cache-browser/src/sync.rs:810-823 | Create, commit and index, taken alone, store exactly the file and row the whole operation does |
| SyncRefinement.DiscardAlone | crates/thunderforge-cache-browser/src/sync.rs:464-473 | The small steps of a discard, taken alone and in any order, can end, and end with exactly the other worlds' rows and files |
| SyncRefinement.SameConsistency | crates/thunderforge-cache-browser/src/index.rs:184-190 | The protocol's and the passes' notions of a consistent disk agree |
| Sync.ManifestForWorld | crates/thunderforge-cache-browser/src/sync.rs:42-50 | The manifest is exactly the world's rows with their fingerprints |
| Sync.StillReferenced | crates/thunderforge-cache-browser/src/sync.rs:777-788 | True exactly when a row of the world names the fingerprint |
| Sync.EvictItems | crates/thunderforge-cache-browser/src/sync.rs:711-746 | Exactly the named rows go; exactly the files only they named go, each counted; freed bytes are the drop in indexed bytes |
| Sync.EvictItem | crates/thunderforge-cache-browser/src/sync.rs:711-746 | One item: its row goes, and its file with the last row of the world naming it |
| Sync.ApplyPlan | crates/thunderforge-cache-browser/src/sync.rs:341-400 | Rows become those not evicted, files those not released, and both are counted |
| Sync.EvictionKeepsSurvivors | crates/thunderforge-cache-browser/src/sync.rs:770-776 | Evicting leaves every surviving row its file, shared files included |
| Sync.RecordFetched | crates/thunderforge-cache-browser/src/sync.rs:796-824 | Bytes with the promised hash become a sealed file and a row numbered next; any others change nothing |
| Sync.DiscardWorld | crates/thunderforge-cache-browser/src/sync.rs:445-474 | Exactly the world's rows and files go, and its rows are counted |
| Sync.RepairWorld | crates/thunderforge-cache-browser/src/sync.rs:536-597 | Rows lose exactly the world's lies, files exactly its finished orphans; both and the unfinished orphans kept are counted |
| Sync.RepairSettles | crates/thunderforge-cache-browser/src/sync.rs:536-597 | From any disagreement, after a repair every row of the world names a present file and every finished file is named, and a second repair changes nothing |
| Sync.RepairSparesTheRest | crates/thunderforge-cache-browser/src/sync.rs:508-535 | A repair keeps every row whose file was there, every unfinished file, every file still named and every other world |
| Sync.RepairRestoresReadability | crates/thunderforge-cache-browser/src/sync.rs:562-569 | A repair makes every row of its world name a finished file if and only if none of them named an unfinished one |
| Sync.EnforceBudget | crates/thunderforge-cache-browser/src/sync.rs:666-748 | With a known quota: whole worlds other than the open one go as the planner says; what stays with the incoming bytes is within the limit or only the open world stays; freed bytes, rows and files are counted truly; insufficient exactly when the open world alone does not fit; an unknown quota changes nothing |
| Sync.PlanRelease | crates/thunderforge-cache-browser/src/sync.rs:682-690 | The plan over whatever order the index lists rows in; every listing gives this plan, and it names exactly the rows of the worlds released |
| Sync.GroupByWorld | crates/thunderforge-cache-browser/src/sync.rs:696-705 | The planned items, each once, under the world that holds them |
| Sync.ReleaseGroups | crates/thunderforge-cache-browser/src/sync.rs:707-747 | Releasing the groups in any order leaves exactly the other worlds' rows and files |
| Sync.ReleaseKeepsSurvivors | crates/thunderforge-cache-browser/src/sync.rs:738-746 | Releasing whole worlds leaves the file of every surviving row and every file of the other worlds |
| Budget.LimitBytes | crates/thunderforge-cache-core/src/budget.rs:46-48 | The greatest limit that is neither over half the quota nor over the cap |
| Budget.PlanEviction | crates/thunderforge-cache-core/src/budget.rs:64-119 | Releases exactly the shortest prefix of the non-open worlds, coldest first by newest read then id, each world whole, that makes the incoming bytes fit; insufficient exactly when the open world and the incoming bytes exceed the limit |
| Budget.TallyWorlds | crates/thunderforge-cache-core/src/budget.rs:86-99 | The first-seen grouping loop tallies each world but the open one once, at its true bytes and newest read |
| Budget.TallyLists | crates/thunderforge-cache-core/src/budget.rs:86-99 | The tally names exactly the index's other worlds, each once, at true cost and warmth |
| Budget.ReleaseColdest | crates/thunderforge-cache-core/src/budget.rs:102-113 | The releasing loop takes whole worlds off the front and stops exactly when the excess is gone or none is left |
| Budget.PlanReleasesWorlds | crates/thunderforge-cache-core/src/budget.rs:50-63 | A plan releases whole worlds, never the open one, and what stays fits or is the open world alone |
| Budget.PlanNamesOnce | crates/thunderforge-cache-core/src/budget.rs:102-113 | With one row an item, the plan names no item twice |
| Budget.PlanIgnoresRowOrder | crates/thunderforge-cache-core/src/budget.rs:86-113 | Any two orders of the same rows give the same plan |
| Budget.PlanHoldsForAnyOrder | crates/thunderforge-cache-core/src/budget.rs:62-63 | A plan for one order of the rows is the plan for every order |
| Budget.AdmitSpeculative | crates/thunderforge-cache-core/src/budget.rs:167-178 | Admits exactly what fits beside what is already there, overflow included, which is what the headroom says |
| Delta.ComputePlan | crates/thunderforge-cache-core/src/delta.rs:57-96 | Evicts exactly what is held and no longer offered, fetches exactly what is not shown to be held, in id order, each once, as offered |
| Delta.SilenceMeansCurrent | crates/thunderforge-cache-core/src/delta.rs:57-96 | Fetch and evict are disjoint, and a held item in neither has the server's fingerprint |
| Delta.PlanIsUnique | crates/thunderforge-cache-core/src/delta.rs:57-96 | The same claims and catalogue have one plan |
| Delta.FollowingConverges | crates/thunderforge-cache-core/src/delta.rs:57-96 | A client that follows its plan, storing only bytes that hash to the planned name, holds exactly the fingerprinted part of what it may and of the rest only what it held or what verifies; its next plan evicts nothing and fetches exactly the unfingerprinted items, so it is empty if and only if there are none |
| Delta.FollowerHolds | crates/thunderforge-cache-browser/src/opfs.rs:81-92 | What such a client then holds of each item, old copies of unfingerprinted items included |
| Index.HighWater | crates/thunderforge-cache-browser/src/index.rs:118-124 | The newest read number of any entry, zero for none |
| Index.MissingBlobs | crates/thunderforge-cache-browser/src/index.rs:184-190 | Exactly the items whose file is not on disk |
| Index.OrphanedBlobs | crates/thunderforge-cache-browser/src/index.rs:197-210 | Exactly the files on disk that no row names |
| Index.PartitionOrphans | crates/thunderforge-cache-browser/src/index.rs:227-240 | Finished orphans are reclaimable and all others kept, none lost or doubled |
| Index.BudgetEntries | crates/thunderforge-cache-browser/src/index.rs:156-166 | Each row's id, world, size and recency, unchanged and in order |
| Index.IndexStore.Open | crates/thunderforge-cache-browser/src/index.rs:266-275 | The counter starts at the newest read among the stored rows |
| Index.IndexStore.Tick | crates/thunderforge-cache-browser/src/index.rs:278-281 | Advances the counter and returns it, frozen at the top |
| Index.IndexStore.Touch | crates/thunderforge-cache-browser/src/index.rs:303-309 | Renumbers an indexed row as the newest read and changes nothing otherwise |
| Index.IndexStore.All | crates/thunderforge-cache-browser/src/index.rs:319-333 | Every row once |
| Index.IndexStore.ForWorld | crates/thunderforge-cache-browser/src/index.rs:336-343 | Every row of the world once and no other |
| Index.IndexStore.RemoveWorld | crates/thunderforge-cache-browser/src/index.rs:346-351 | Exactly the world's rows go |
| Index.LruIsTrueRecency | crates/thunderforge-cache-browser/src/index.rs:173-178 | With one store open: over every run of stores, reads, removals and reopenings that keeps its numbers apart, among them every run of no more accesses than there are numbers, sorting the surviving rows gives the true order of last access, though the counter is rederived at each reopening |
| Index.AccessClimbsExactly | crates/thunderforge-cache-browser/src/index.rs:46-55 | An access keeps the rows' numbers climbing in the order of last access if and only if the counter is below its top, or no other row is numbered at the top, or the access numbers nothing |
| Index.RunClimbsExactly | crates/thunderforge-cache-browser/src/index.rs:118-124 | A run keeps true order throughout if and only if each of its accesses does |
| Index.ShortRunsStayApart | crates/thunderforge-cache-browser/src/index.rs:46-55 | Every run of no more accesses than there are numbers does so |
| Index.RunClimbs | crates/thunderforge-cache-browser/src/index.rs:118-124 | After such a run of one open store the numbers climb in the order of last access and stay under the counter |
| Index.FrozenCounterLosesOrder | crates/thunderforge-cache-browser/src/index.rs:46-55 | A run at the counter's top in which two reads tie and the id, not the access order, decides |
| IndexRace.KeepsOrderExactly | crates/thunderforge-engine/src/plugins/cached_assets/wasm.rs:44-49 | Over every interleaving of stores, reads and removals through index stores that open and close over the same rows, below the top number, the rows keep the true order of last access if and only if at most one store is open at a time |
| IndexRace.AccessKeepsOrderExactly | crates/thunderforge-cache-browser/src/index.rs:278-309 | Whatever stores are open, an access keeps the true order if and only if the number it gives, if any, exceeds every other row's |
| IndexRace.OrderedIsLru | crates/thunderforge-cache-browser/src/index.rs:173-178 | Sorting the rows gives the true order of last access whenever the numbers climb along it, whichever stores gave them |
| IndexRace.TwoOpenTie | crates/thunderforge-engine/src/plugins/cached_assets/wasm.rs:570-579 | A run of two stores, each opened over the same rows, that give two items one number |
| Opfs.EnvelopeRoundTrip | crates/thunderforge-cache-browser/src/crypto.rs:84-104 | Splitting undoes sealing for every non-empty ciphertext, and nothing else splits |
| Opfs.WrittenOpens | crates/thunderforge-cache-browser/src/opfs.rs:81-139 | What is written under a key opens under it again as the same bytes |
| Opfs.OpfsStore.WriteBlob | crates/thunderforge-cache-browser/src/opfs.rs:81-92 | Writes the sealed bytes if and only if they hash to the promised name |
| Opfs.OpfsStore.ReadBlob | crates/thunderforge-cache-browser/src/opfs.rs:118-139 | Returns bytes only if they open and hash to the name; deletes a finished file that does not and leaves an unfinished one, nobody writing in between |
| Opfs.OpfsStore.ListFingerprints | crates/thunderforge-cache-browser/src/opfs.rs:178-180 | Every file of the world once, finished or not |
| Opfs.OpfsStore.RemoveWorld | crates/thunderforge-cache-browser/src/opfs.rs:185-188 | Exactly the world's files go |
| Prefetch.PrefetchQueue.FromPlan | crates/thunderforge-cache-browser/src/prefetch.rs:158-178 | Queues exactly the plan's canvas assets, in order |
| Prefetch.PrefetchQueue.Step | crates/thunderforge-cache-browser/src/prefetch.rs:214-252 | Answers by the rule that outranks the others and dequeues only what it hands out |
| Prefetch.FetchesExactly | crates/thunderforge-cache-browser/src/prefetch.rs:214-252 | Exactly when an item is handed out, and exactly when the caller is told to yield, whatever the order of the checks |
| Prefetch.NothingLostOrReordered | crates/thunderforge-cache-browser/src/prefetch.rs:205-252 | Over any pressures, what was handed out followed by what still waits is the queue as it was |
| Prefetch.DeliveriesFit | crates/thunderforge-cache-browser/src/prefetch.rs:215-248 | Every item handed out was planned to fit beside what the store held, for the open world and the current plan, with nobody waiting |
| Prefetch.Visit | crates/thunderforge-cache-browser/src/prefetch.rs:158-262 | What a visit hands out is a prefix of the plan's canvas assets; when no report exceeds the planned size, all its bytes are counted, stay within the allowance, and leave a store within its limit past it by no more than demand stored unseen |
| Prefetch.AllowanceHoldsExactly | crates/thunderforge-cache-browser/src/prefetch.rs:240-262 | The allowance bounds every visit whose reports exceed the plan by at most some amount if and only if that amount is zero |
| Prefetch.LimitHoldsExactly | crates/thunderforge-engine/src/plugins/cached_assets/wasm_sync.rs:488-509 | Over runs that carry the bytes in use forward by their own stores, speculation never takes a store past its limit if and only if reports may not exceed the plan and demand stores nothing the carried figure does not see |
| Prefetch.OverrunIsBounded | crates/thunderforge-engine/src/plugins/cached_assets/wasm_sync.rs:488-509 | In any case the store ends past its limit by at most what one report exceeds the plan and what demand stored unseen |
| Prefetch.TruthfulVisitsFit | crates/thunderforge-engine/src/plugins/cached_assets/wasm_sync.rs:488-509 | With truthful reports, the carried figure at the start and all bytes the visit stores fit the limit |
| Prefetch.TurnOverrunsExactly | crates/thunderforge-cache-browser/src/prefetch.rs:240-262 | A turn overruns if and only if an item is handed out and its report exceeds what is left |
| Prefetch.ZeroLimitStopsAllButNothing | crates/thunderforge-cache-core/src/budget.rs:149-172 | At a limit of zero nothing is handed out but an item of no planned size into an empty store |
| Prefetch.OnlyTheLastReportOverruns | crates/thunderforge-cache-browser/src/prefetch.rs:240-262 | In any case a visit exceeds its allowance by at most what its last report exceeds the planned size |
| Outbox.NextSeq | crates/thunderforge-cache-browser/src/outbox.rs:46-52 | One past the highest queued number, frozen at the top, zero for none |
| Outbox.ChangeQueue.ApplyOutcomes | crates/thunderforge-cache-core/src/queue.rs:110-124 | Drops exactly the changes an outcome names and hands back all others in order |
| Outbox.OutboxStore.All | crates/thunderforge-cache-browser/src/outbox.rs:135-147 | Every row once, oldest first |
| Outbox.OutboxStore.Append | crates/thunderforge-cache-browser/src/outbox.rs:159-184 | Numbers the change past every queued one and stores it under its id |
| Outbox.OutboxStore.ForgetResolved | crates/thunderforge-cache-browser/src/outbox.rs:194-206 | Drops exactly the rows an outcome names whose deletion does not fail, and lists the rest |
| Outbox.OutboxStore.ForWorld | crates/thunderforge-cache-browser/src/outbox.rs:209-211 | The world's changes in the order made, whenever the rows are some history's |
| Outbox.HistoryIsKept | crates/thunderforge-cache-browser/src/outbox.rs:159-206 | Over any history with fresh ids below the top number, the durable rows are the in-memory queue: same changes, distinct rising numbers, order of making |
| Outbox.HistoryReplays | crates/thunderforge-cache-browser/src/outbox.rs:59-65 | Every listing of the rows is that queue, and each world replays exactly its changes in the order made |
| Outbox.ReplayIsHistory | crates/thunderforge-cache-core/src/queue.rs:99-104 | Sorting by world and number and keeping one world gives that world's changes in order, from any order they were read in |
| Outbox.LeavesOnlyWhenNamed | crates/thunderforge-cache-core/src/queue.rs:105-124 | A queued change that is gone was named by an outcome since |
| Outbox.AppendKeepsExactly | crates/thunderforge-cache-browser/src/outbox.rs:85-91 | Storing a change keeps every queued one if and only if its id was not in use |
| Outbox.NumbersTieExactlyAtTheTop | crates/thunderforge-cache-browser/src/outbox.rs:46-52 | The next number repeats a queued one if and only if the top number is queued |
| OutboxRace.StaysApartExactly | crates/thunderforge-cache-browser/src/outbox.rs:159-184 | Over every interleaving of any number of tabs, below the top number, queued numbers stay distinct if and only if appends come one at a time |
| OutboxRace.StoreKeepsApartExactly | crates/thunderforge-cache-browser/src/outbox.rs:176-183 | Storing a numbered change keeps the numbers distinct if and only if no other queued change has its number |
| OutboxRace.TwoAtOnceCollide | crates/thunderforge-cache-browser/src/outbox.rs:166-183 | Two appends that both read before either stores share a number |
| TokenBuckets.IdleIsNew | crates/thunderforge-telemetry-policy/src/rate.rs:42-46 | An idle bucket answers, and is left, exactly as a new one, so evicting it shows nothing |
| TokenBuckets.WaitIsExact | crates/thunderforge-telemetry-policy/src/rate.rs:31-40 | A bucket nobody else draws on gives its next token once the answered wait has passed and not before |
| TokenBuckets.LevelGrows | crates/thunderforge-telemetry-policy/src/rate.rs:25-29 | Time adds at most the rate |
| TokenBuckets.TakingCosts | crates/thunderforge-telemetry-policy/src/rate.rs:31-40 | A grant costs one token and a refusal none |
| Limits.Buckets.constructor | apps/telemetry-gateway/src/limits.rs:55-63 | Starts empty with room for at least one key |
| Limits.Buckets.TakeOne | apps/telemetry-gateway/src/limits.rs:70-92 | The table and the answer after one request; the table never exceeds its bound |
| Limits.TurnedAwayExactly | apps/telemetry-gateway/src/limits.rs:74-87 | A key is turned away if and only if it is new, the table is full, and no sweep is due or no bucket is idle |
| Limits.TakeStandsFor | apps/telemetry-gateway/src/limits.rs:70-92 | One request is answered, and leaves the table standing, as the unbounded table would, unless it is turned away |
| Limits.AnswersAsUnbounded | apps/telemetry-gateway/src/limits.rs:70-92 | Over any run in which time does not go back, everyone not turned away is answered as by the unbounded table |
| Limits.TableLimitsEveryKey | apps/telemetry-gateway/src/limits.rs:54-97 | A new table answers as if no bucket were ever evicted, and grants one key at most its burst and what its rate has earned since the start |
| Limits.SweepsAreApart | apps/telemetry-gateway/src/limits.rs:75-83 | Full sweeps are at least a second apart |
| Intake.LongerThanCapExactly | apps/telemetry-gateway/src/intake.rs:385-403 | A value's measured length exceeds a cap if and only if some string or byte run in it, however deep, does |
| Intake.StripKeepsListed | apps/telemetry-gateway/src/intake.rs:357-361 | Stripping neither loses nor doubles a listed attribute and leaves no other |
| Intake.StripInPlace | apps/telemetry-gateway/src/intake.rs:357-361 | What is left, and how many went |
| Intake.SignalsConserve | apps/telemetry-gateway/src/intake.rs:307-343 | For spans, log records and metric points alike, a record's weight is what was kept of it and what was dropped |
| Intake.RetainRecords | apps/telemetry-gateway/src/intake.rs:197-211 | The in-place loop over the records of a scope leaves and counts what the policy says of each |
| Intake.RetainScopes | apps/telemetry-gateway/src/intake.rs:167-187 | The loop over scopes empties their attributes, counts them, and treats their records |
| Intake.CheckResource | apps/telemetry-gateway/src/intake.rs:245-305 | One resource's checks, charge, relabelling and counts |
| Intake.RetainGroups | apps/telemetry-gateway/src/intake.rs:162-189 | The in-place loop over resources |
| Intake.BatchIsConserved | apps/telemetry-gateway/src/intake.rs:136-241 | For every batch: kept and rejected make up what was there, kept is what is left, surviving resources are those checked and not limited, the limited are those answered with a wait, the retry wait is the longest of these, and reasons are named once |
| Intake.OnlyListedLeaves | apps/telemetry-gateway/src/intake.rs:284-304 | Whatever came in, what goes out carries only listed attributes of allowed size, resources included, emptied scopes, links and exemplars, gateway labels other than instance ids only the gateway wrote, and records clean for the service its resource names wherever the policy lets names through |
| Intake.IdsLeaveCheckedExactly | apps/telemetry-gateway/src/intake.rs:258-290 | Of a resource that passes, every instance id that leaves is a valid one if and only if every one that came in was or ids are not listed |
| Intake.SecondIdLeavesUnchecked | apps/telemetry-gateway/src/intake.rs:258-290 | A resource with a valid id and then an invalid one passes, and the invalid one leaves |
| Intake.Request.Apply | apps/telemetry-gateway/src/intake.rs:159-241 | The whole policy in place: conservation, the limited resources, the longest wait, an empty batch when all were limited, and a clean batch |
| Conflict.SwappingSidesSwapsTheWinner | crates/thunderforge-cache-core/src/conflict.rs:56-69 | For distinct contenders, naming them the other way round names the same winner |
| Conflict.NoCycles | crates/thunderforge-cache-core/src/conflict.rs:56-69 | Beating is transitive |
| Conflict.ChampionIsRightful | crates/thunderforge-cache-core/src/conflict.rs:40-69 | Any knockout is won by the earliest Game Master, or the earliest player if there is none |
| Conflict.PairingDoesNotMatter | crates/thunderforge-cache-core/src/conflict.rs:56-69 | Two knockouts of the same crowd have the same winner |
| Fingerprints.ToHex | crates/thunderforge-cache-core/src/fingerprint.rs:81-87 | The loop prints the digest's one lower-case form |
| Fingerprints.FromHex | crates/thunderforge-cache-core/src/fingerprint.rs:90-102 | Accepts a string if and only if it is the printed form of the fingerprint returned |
| Fingerprints.HexNibble | crates/thunderforge-cache-core/src/fingerprint.rs:110-116 | Accepts exactly the lower-case hexadecimal digits |
| Fingerprints.HexInjective | crates/thunderforge-cache-core/src/fingerprint.rs:81-102 | Different fingerprints print differently |
| ConstantTime.SecureEquals | crates/thunderforge-axum-auth-core/src/constant_time.rs:15-24 | True if and only if the two byte strings are equal, at every length |
| ConstantTime.XorIsZero | crates/thunderforge-axum-auth-core/src/constant_time.rs:15-24 | Bit by bit, an exclusive or is zero only for equal numbers |
| ConstantTime.OrIsZero | crates/thunderforge-axum-auth-core/src/constant_time.rs:15-24 | Bit by bit, an or is zero only when both sides are |

## Left out

- Sync.ApplyPlan: run by one tab with no failing call; failing calls, deaths and interleavings are in `SyncProtocol`, the `failed` counters nowhere.
- Sync.RepairWorld: as above, one tab and no failing call.
- Sync.DiscardWorld: as above, one tab and no failing call, so both halves are always reported cleared.
- Sync.EnforceBudget: as above, one tab and no failing call; the byte sums of the index are assumed to stay within 64 bits, since the planner adds unchecked.
- Sync.RecordFetched: as above, one tab and no failing call; the nonce is a parameter.
- KeyCreation.KeyStore.LoadOrCreate: platform errors, which end the loop early, are in `KeyProtocol` only.
- KeyProtocol.KeyRuns: signing out (`forget`) during an acquisition is not an event, and an awaited store request takes effect at once or not at all.
- SyncProtocol.FlawlessRunsStayConsistent: bytes and sizes are reduced to whether a file is finished; the order of a listing is any order; an awaited storage call takes effect at once or not at all, that of a dying tab included; signing out is not an event.
- Locks.GuardsAreExclusive: browsers without locks, whose callers always go ahead, are the denied requests of the other modules; requests queue in the order of asking, and a caller cancelled while it waits is not an event.
- Prefetch.Visit: each item handed out is reported before the next ask, as the queue's documentation prescribes.
- Opfs.OpfsStore.ReadBlob: reading and deleting are one step here; the await between them is in `SyncProtocol`.
- Delta.FollowingConverges: assumes the server's bytes hash to its fingerprints and can be fetched for every fingerprinted item.
- Index.LruIsTrueRecency: one open store; several at once are in `IndexRace`.
- IndexRace.KeepsOrderExactly: an access takes effect at once; a read's get and put are apart in `SyncProtocol`.
- OutboxRace.StaysApartExactly: says nothing of the order of overlapping appends, only whether their numbers differ.
- Limits.TableLimitsEveryKey: reals in place of floating point and of nanosecond durations; hashing of addresses to keys and the lock around the table are not modelled.
- Intake.Request.Apply: decoding and encoding of batches, the partial-success answer and its message are not modelled; a batch holds at most as many records as a signed 64-bit count.
- JSON rows and undecodable rows, GraphQL and HTTP calls, IndexedDB, the file system and WebCrypto beyond their effect as atomic steps.
- AES-GCM and SHA-256 themselves; no claim about collisions.
- Wall-clock timeouts as numbers: a timer or a denial is an event that may come at any time.
- The wire form of item ids, plan parsing, the diagnostics and summaries, canonical scene state, and `canvas_fingerprints`.
- Client addresses from forwarded headers, and the rounding of a wait to whole seconds.
- Peer connections, authorisation tables, accounts and passwords, servers and user interfaces.

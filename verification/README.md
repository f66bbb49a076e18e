# Verification of gitcask

gitcask keeps every git repository as a write-ahead log in an object bucket. All coordination goes
through compare-and-swap on versioned objects, and everything fast in it (checkpoints, cold rewind,
ref caches, prefix search, shared-subtree walks) is a shortcut for something simple. This project
models those protocols, shortcuts and codecs in Dafny and proves that they keep what they promise.

`dafny verify dfyconfig.toml` checks the whole project.

**Protocols over a versioned store.** `VersionedStore` is the bucket: objects with versions from one
counter, conditional writes and deletes, and a network that loses, invents or delays answers.
Protocols are state machines in which every read, decision and write is a step of its own; `Runs`
lifts what one step keeps to every run.
`Lease` and `CasLoop` are the coordination primitives, `Checkpoint`, `CheckpointSafety` and
`CheckpointRuns` the two-round checkpoint commit next to pushes, compactions, annotations, syncs and
crashes, `Gc` the garbage collector, `PendingQueue` and `Maintenance` the work queue and its planner,
`Bridge` the event bridge.

**Replay and what speeds it up.** `Wal` defines what a log means: ref transactions folded into a ref
map and HEAD, pack additions and supersessions folded into a pack set. `LastWrite` reduces both to
single-cell writes. `LogReader`, `Rewind` and `RewindRuns` read the log through the manifest and by probing,
`Names`, `RefsCache` and `LsRefs` are the sorted snapshot, the overlay view, the pending list and the
prefix search, `Connectivity` the walk with a shared set of objects seen, `Events` the ref events.

**Codecs and matchers.** `Frame` is the log object format, `PktLine`, `Receive`, `Fetch` and
`FetchRelay` the wire formats, `Glob` the two glob matchers.

Where a promise does not hold for every input, the code is kept as it is, a lemma gives a concrete
input, and another states exactly when the promise holds:

- A checkpoint writer that was overtaken by a newer checkpoint drops log entries when it commits;
  the write does not check this. Runs are therefore stated for writers that were not overtaken,
  which the per-repository checkpoint lease provides and the checkpoint started by a publisher
  (`crates/gitcask-wal/src/publish.rs:1046`) does not.
- Checkpoint writers, compactions and annotations read the manifest and its version under two
  locks. A sync of the same instance in between pairs an old manifest with a new version, the write
  is accepted and a push is lost. Runs are stated for accepted writes that are built on the stored
  head, which holds when nothing else installs a manifest in the instance between the reads.
- The log reader fetches a manifest of its own, so a checkpoint that commits between a bridge's sync
  and its read hides entries from it without a gap being reported.
- Cold rewind probes log objects number by number; a number burned over a crashed writer's leftover
  stops it, or makes it replay that leftover.
- The refs of a checkpoint may be read after later pushes have landed locally, and nothing stored
  says when. Syncing forward repairs this; a cold rewind to a moment in between does not.
- A push that deletes HEAD leaves a checkpoint without one, and whoever loads it keeps its old HEAD.
- The publisher compares old values with the refs before the whole transaction, so a push that names
  a ref twice can leave a consumer of its events with other refs.
- A pack that is published again while the collector is about to delete it is lost.
- A compaction that supersedes its own pack disagrees with replay; a pack that needs a reverse index
  behind another of the same checksum keeps the maintenance loop busy for ever; a marker write that
  is lost leaves a push unnoticed until the next one; a view whose last pending update deletes HEAD
  still resolves it.
- A line longer than a pkt-line, a newline inside a status reason, a newline at the end of a fetch
  argument, and a fetch argument that fills its line when the server prints it again, do not read back.

Premises appear as `requires` clauses or as named step conditions: clocks at most two seconds apart
and heartbeats that never shorten a lease; checkpoint writers that were not overtaken, and manifest
writes whose two reads match; published transactions that do not delete HEAD; HEAD not pointing at
itself where old values are looked up; tree modes that match object kinds and existing refs that are complete;
timestamps that do not decrease along the log; no pack that needs a reverse index behind another of
its checksum where the instance compacts, and a compaction that leaves nothing to fold; a freshness
time-to-live of zero for maintainers; true old values in the log for `Events.EventsAreFaithful`.

## Model

| member | source | states |
|---|---|---|
| VersionedStore.MemoryStore.Get | crates/gitcask-store/src/memory.rs:96-139 | Not found, failed `if-match` and unmodified `if-none-match` are told apart exactly; otherwise the stored object comes back with its version. |
| VersionedStore.MemoryStore.Put | crates/gitcask-store/src/memory.rs:155-188 | The new slot and the answer are those of a versioned register: create, update and overwrite take effect only when their precondition holds, with a version never used before; versions stay unique across all keys and other keys are untouched. |
| VersionedStore.MemoryStore.Delete | crates/gitcask-store/src/memory.rs:211-226 | A conditional delete removes the key only if it still has the given version. |
| VersionedStore.MemoryStore.PutThrough | crates/gitcask-store/src/fault.rs:478-493 | The same put when the network loses it, invents a precondition failure, or reports an error after it was applied. |
| VersionedStore.MemoryStore.DeleteThrough | crates/gitcask-store/src/fault.rs:495-510 | The same for deletes. |
| VersionedStore.StaleVersionIsDead | crates/gitcask-store/src/memory.rs:43-50 | For every later history of a key, a version that is no longer stored never comes back, so its holder can neither update nor delete. |
| VersionedStore.NoAba | crates/gitcask-store/src/memory.rs:43-50 | Seeing the same version again, after any history, means the content never changed in between. |
| Lease.NobodyLiveAtTakeover | crates/gitcask-store/src/coord.rs:298-358 | When an acquire replaces a lease, no other guard is unexpired by its own clock, for clocks at most two seconds apart. |
| Lease.AtMostOneLive | crates/gitcask-store/src/coord.rs:298-358 | In every run of acquires, steals, heartbeats, releases, drops, crashes, late and lost responses, with any two clocks at most 2000 milliseconds apart, at most one guard is unexpired by its own holder's clock. |
| Lease.SupersededForever | crates/gitcask-store/src/coord.rs:198-234 | A guard whose version was replaced stays replaced for the rest of the run. |
| Lease.SupersededIsPowerless | crates/gitcask-store/src/coord.rs:198-234 | Such a guard can never again extend or delete the lease: its writes leave the record as it is, whatever the network does. |
| Lease.EpochRisesBetweenDeletions | crates/gitcask-store/src/coord.rs:200-218 | Between two deletions, every change of the stored record raises its epoch. |
| Lease.AcquireFrom | crates/gitcask-store/src/coord.rs:307-358 | The write half of an acquire creates the key or replaces exactly the record that was read, past its grace period. |
| Lease.TryAcquire | crates/gitcask-store/src/coord.rs:298-358 | The read and the write with other clients running in between: a returned guard names the version now stored, with the next epoch. Undisturbed, the acquire succeeds if and only if there is no record or it expired at least 2000 milliseconds ago; otherwise it answers that the lease is held and leaves the record alone. |
| Lease.AcquireAnswers | crates/gitcask-store/src/coord.rs:298-358 | The same of the write alone, whatever record was read and whatever the network does. |
| Lease.UndisturbedGuard | crates/gitcask-store/src/coord.rs:198-234 | An undisturbed heartbeat extends the lease from its holder's clock; an undisturbed release ends it. |
| Lease.LeaseChangesHands | crates/gitcask-store/src/coord.rs:298-358 | A run in which a lease that runs out at 1000 is taken over at 3000. |
| Lease.LeaseGuard.Heartbeat | crates/gitcask-store/src/coord.rs:200-218 | Extends the lease, by the time to live from now, if and only if nothing disturbs it and the guard's version is still stored; the epoch moves even when it fails, version and expiry only when it succeeds. |
| Lease.LeaseGuard.Release | crates/gitcask-store/src/coord.rs:222-234 | A release deletes the lease if its version is still the guard's, and changes nothing otherwise. |
| CasLoop.StoredIsComposition | crates/gitcask-store/src/coord.rs:53-106 | For any number of clients in every run, the stored value is the composition of the committed update functions in commit order. |
| CasLoop.CommitsOnlyGrow | crates/gitcask-store/src/coord.rs:53-106 | No committed update is ever lost or reordered. |
| CasLoop.ClientsAreAccountedFor | crates/gitcask-store/src/coord.rs:53-106 | A client sends at most `max_retries + 1` writes and gives up only after all of them or when a read fails; it committed once if it was told so plus once for each write applied behind a transient error, and a reported success is one of its own commits with the value it reports. |
| CasLoop.CasUpdate | crates/gitcask-store/src/coord.rs:53-106 | The loop itself, with interference: on success the update function was applied to exactly the content the write landed on; a write that did not succeed is tried again until the budget is used up, and the loop ends otherwise only when the function says so or a read fails. |
| CasLoop.UndisturbedCommits | crates/gitcask-store/src/coord.rs:53-106 | A read and a write with nothing in between commit the new value if and only if the update function asks for it. |
| LastWrite.ReplayAbsorbs | crates/gitcask-cli/src/wal_cmd.rs:300-308 | Replaying a log of single-cell writes over a cell that already saw any part of it changes nothing. |
| Wal.BlendCatchesUp | crates/gitcask-cli/src/wal_cmd.rs:300-308 | A ref snapshot tagged with one sequence but read cell by cell at any later moments, with the log replayed over it from its tag, is exactly the state at any head at or after those moments. |
| Wal.BlendAdvances | crates/gitcask-wal/src/sync.rs:654-734 | Replaying only part of the overlap never yields a ref older than the position replayed to. |
| Wal.LateSnapshotRewind | crates/gitcask-cli/src/wal_cmd.rs:300-308 | Rewinding a snapshot taken whole at a later moment is right if and only if every ref changed in between is rewritten by the replay. |
| Wal.RewindIff | crates/gitcask-cli/src/wal_cmd.rs:300-308 | Any refs whatever, with a stretch of log replayed over them, are the refs at its end if and only if each ref and HEAD is written by the stretch or already has its value at the end. |
| Wal.BlendRewindsIff | crates/gitcask-cli/src/wal_cmd.rs:300-308 | Every snapshot with a given tag, read cell by cell at any moments up to a given one, rewinds right to a target if and only if the log leaves alone, from the target to that moment, whatever the replay does not rewrite: a condition on the log alone. |
| Wal.PackReplayAbsorbs | crates/gitcask-cli/src/wal_cmd.rs:252-260 | Replaying entries over a pack set that already saw part of them gives the same set. |
| Wal.ReplayConcat | crates/gitcask-git/src/refs.rs:410-456 | Replay composes over any split of the log. |
| Wal.UpdateMeans | crates/gitcask-git/src/refs.rs:410-456 | One update sets the ref it names, removes it if the new id is empty or all zeros, or retargets or detaches HEAD, and leaves everything else alone. |
| CheckpointSafety.SegmentsCoverTheLog | crates/gitcask-wal/src/checkpoint.rs:117-262 | In every run mixing pushes, compactions, annotations, syncs, crashes and lost compare-and-swaps, the manifest's segments are exactly the committed log after its checkpoint, in order and once each. |
| CheckpointSafety.CheckpointingPreservesMeaning | crates/gitcask-wal/src/checkpoint.rs:117-262 | In every such run, checkpoint snapshot plus listed segments give the refs of replaying the whole log, and checkpoint packs plus segments give the replayed pack set, which is the manifest's. |
| CheckpointSafety.SyncIsExact | crates/gitcask-wal/src/sync.rs:313-370 | Syncing any instance, however far its refs ran ahead, gives exactly the refs of the whole log. |
| CheckpointSafety.CommitCoversIff | crates/gitcask-wal/src/checkpoint.rs:197-262 | Committing a checkpoint keeps the log covered if and only if the manifest it is written over has no newer checkpoint. |
| CheckpointSafety.CommitIsSafeIff | crates/gitcask-wal/src/checkpoint.rs:197-262 | In every reachable state, a manifest write that lands leaves the log covered if and only if the writer was not overtaken, and leaves the head of the log as head if and only if the manifest it was built on has the stored head. |
| CheckpointSafety.EditIsSafeIff | crates/gitcask-wal/src/publish.rs:1134-1256 | In every reachable state, a compaction or an annotation whose manifest write lands leaves a manifest that lists the whole log after its checkpoint if and only if it was built on the stored head. |
| CheckpointSafety.SyncIsExactIff | crates/gitcask-git/src/refs.rs:466-506 | Whatever the log does to HEAD, a sync ends in the refs of the whole log if and only if it loads no checkpoint, or the checkpoint has exactly one HEAD or neither side has any, or the log sets HEAD after it. |
| CheckpointSafety.HeadlessCheckpointKeepsAnOldHead | crates/gitcask-git/src/refs.rs:466-506 | A push that deletes HEAD, checkpointed: an instance that loads the checkpoint keeps the HEAD it had. |
| CheckpointRuns.OvertakenWriterLosesAPush | crates/gitcask-wal/src/checkpoint.rs:197-262 | A run of three pushes and two checkpoint writers: the slower one syncs, reads manifest and version together and commits; the second push is gone from every cold start. |
| CheckpointRuns.SplitReadsLoseAPush | crates/gitcask-wal/src/checkpoint.rs:197-262 | A run in which a sync falls between the writer's two reads: its write is accepted although it is built on the older manifest, the head goes back and a push is gone. |
| CheckpointRuns.SplitAnnotationLosesAPush | crates/gitcask-wal/src/publish.rs:1320-1345 | A run in which a sync falls between an annotation's two reads: its write is accepted and a push is gone from the manifest. |
| CheckpointRuns.UnsplitReadsMatch | crates/gitcask-wal/src/checkpoint.rs:200-201 | In every run, if no sync of the instance falls between the reads of manifest and version, the write that follows is built on the stored head whenever it is accepted. |
| CheckpointRuns.UnsplitEditMatches | crates/gitcask-wal/src/publish.rs:1322-1323 | In every run, the same for an annotation or a compaction, if no sync and no checkpoint commit of the instance falls between its reads. |
| CheckpointSafety.CompactionSupersedesItself | crates/gitcask-wal/src/publish.rs:1078-1268 | A compaction that supersedes its own pack: the manifest lists it and replay drops it. |
| CheckpointSafety.PublishedPacksAgree | crates/gitcask-wal/src/publish.rs:572-598 | The live pack list a publisher writes is the set replay computes, for every stretch of entries. |
| CheckpointSafety.CompactionAgreesIff | crates/gitcask-wal/src/publish.rs:1078-1268 | A compaction's manifest agrees with replay if and only if the compaction does not supersede its own pack. |
| LogReader.ReadLog | crates/gitcask-wal/src/log_reader.rs:11-61 | The loop returns the sorted entries of the overlapping segments that lie in the range, or fails if a needed object is missing. |
| LogReader.ReadLogExact | crates/gitcask-wal/src/log_reader.rs:32-61 | On a covered log, what it returns is the part of the log after the checkpoint that lies in the range. |
| LogReader.ReadLogMeans | crates/gitcask-wal/src/log_reader.rs:32-61 | The same in numbers: the result rises, and an entry is in it if and only if it was committed after the checkpoint and lies between the two bounds and not past the head. |
| LogReader.ReadFailsIff | crates/gitcask-wal/src/log_reader.rs:32-61 | A read fails if and only if the object of a segment that overlaps the range is missing. |
| LogReader.ReadLogCompleteIff | crates/gitcask-wal/src/log_reader.rs:20-61 | It returns every committed entry of the range if and only if none of them is folded into the checkpoint of the manifest the read itself fetched. |
| Rewind.RetainedCheckpoint | crates/gitcask-cli/src/wal_cmd.rs:322-348 | The manifest's checkpoint if it is old enough, else the newest listed one that is. |
| Rewind.ProbeLog | crates/gitcask-cli/src/wal_cmd.rs:227-243 | The probing loop follows each object to the number after its last entry, an empty one to the next number, and stops at a missing one. |
| Rewind.FoldPacks | crates/gitcask-cli/src/wal_cmd.rs:252-260 | The pack list after replaying the entries of the range. |
| Rewind.FoldRefs | crates/gitcask-cli/src/wal_cmd.rs:300-308 | The refs after replaying the entries of the range. |
| Rewind.Materialize | crates/gitcask-cli/src/wal_cmd.rs:167-320 | The whole rewind: retained checkpoint, probed and listed entries, replay of packs and refs, and each error it can end in. |
| Rewind.RebuildFailsIff | crates/gitcask-cli/src/wal_cmd.rs:192-260 | Which error a rewind ends in: an object of the retained checkpoint is gone, the probe meets a number without an object, or a listed segment is gone. |
| Rewind.ProbeExactIff | crates/gitcask-cli/src/wal_cmd.rs:227-243 | Probing recovers the committed entries if and only if no number of the range is burned and no object of it has been collected. |
| Rewind.RecoversIff | crates/gitcask-cli/src/wal_cmd.rs:227-250 | The same for the entries after a given checkpoint in a whole log. |
| Rewind.GatherExactIff | crates/gitcask-cli/src/wal_cmd.rs:223-260 | The entries a rewind replays are exactly the committed ones between its checkpoint and its target if and only if no probed number is burned or collected and nothing of a listed range is folded. |
| Rewind.RewindIsFaithful | crates/gitcask-cli/src/wal_cmd.rs:192-308 | Where the range is rewindable, the rebuilt packs are those of replaying the log from the beginning to the requested sequence, and the rebuilt refs are if and only if each ref and HEAD is rewritten by the replay or has its value of that moment in the stored snapshot. |
| Rewind.RewindInEveryRun | crates/gitcask-cli/src/wal_cmd.rs:192-308 | The same in every reachable state of the checkpoint protocol and for every retained checkpoint; the refs are right whenever the log is quiet from the target to the head, and whenever the snapshot was not taken after the target. |
| Rewind.BurnedNumberStopsRewind | crates/gitcask-cli/src/wal_cmd.rs:239-241 | A burned number makes a rewind report garbage collection though nothing was collected. |
| Rewind.BurnedNumberRevivesOrphan | crates/gitcask-cli/src/wal_cmd.rs:233-238 | With a crashed writer's leftover in place, a rewind replays a push that was never committed. |
| RewindRuns.LateSnapshotMisleadsRewind | crates/gitcask-wal/src/checkpoint.rs:117-196 | A run of two pushes and one checkpoint, with no number burned and no manifest write: rewinding to the first push gives the second one too, because the refs of the checkpoint were read after it landed locally. |
| Names.Search | crates/gitcask-git/src/refs.rs:37-42 | Binary search by name returns the position of the name, or where it belongs. |
| Names.LessIff | crates/gitcask-git/src/refs.rs:37-42 | The order of names is byte order: at the first difference the lesser has the lesser byte or ends. |
| Names.PutIsUpdate | crates/gitcask-git/src/refs.rs:445-453 | Replacing or inserting at the searched position is a map update. |
| Names.RemoveIsDelete | crates/gitcask-git/src/refs.rs:424-429 | Removing at the searched position is a map deletion. |
| RefsCache.RefView.constructor | crates/gitcask-git/src/refs.rs:22-29 | A new view stands for its snapshot. |
| RefsCache.RefView.Get | crates/gitcask-git/src/refs.rs:31-43 | Every lookup, HEAD included, agrees with the plain map the view stands for. |
| RefsCache.RefView.HeadOid | crates/gitcask-git/src/refs.rs:56-63 | HEAD resolves through its target in that map. |
| RefsCache.RefView.SetHeadTarget | crates/gitcask-git/src/refs.rs:50-55 | Retargets HEAD and nothing else. |
| RefsCache.RefView.Set | crates/gitcask-git/src/refs.rs:64-70 | Sets one ref, or detaches HEAD, and nothing else. |
| RefsCache.RefView.Remove | crates/gitcask-git/src/refs.rs:71-73 | Removes one ref; removing HEAD only hides it from `Get`. |
| RefsCache.RefView.Track | crates/gitcask-git/src/refs.rs:204-218 | One pending update changes the view as replay changes the refs, except that a deletion of HEAD only hides it. |
| RefsCache.PatchSnapshot | crates/gitcask-git/src/refs.rs:401-462 | Patching the sorted vector keeps it sorted and is replay of the transactions on the map. |
| RefsCache.LocalRepo.constructor | crates/gitcask-git/src/local.rs:52-63 | A repository starts without a cache. |
| RefsCache.LocalRepo.RefsArc | crates/gitcask-git/src/refs.rs:132-172 | The shared snapshot is sorted and equals the refs on disk; a current cache costs no parse. |
| RefsCache.LocalRepo.View | crates/gitcask-git/src/refs.rs:186-220 | The overlay view shows exactly the refs on disk, without materializing a current cache, apart from HEAD when its last pending update deletes it, and only then: it is hidden from lookups and still resolves as before. |
| RefsCache.LocalRepo.ApplyRefTxn | crates/gitcask-git/src/refs.rs:229-396 | For every transaction: succeeds exactly when the updates are valid, old values match the disk and git accepts; a wrong old value (another id of the same length, one where there is none, none where there is one) is a conflict; on success the disk has every update applied in order, otherwise it is unchanged; the cache never lies and stays current. |
| RefsCache.LocalRepo.LoadRefSnapshot | crates/gitcask-git/src/refs.rs:466-506 | Replaces every ref and a HEAD that is present; an invalid detached HEAD is noticed only after the refs are replaced. |
| RefsCache.LocalRepo.ApplyRefTxnsOffline | crates/gitcask-git/src/refs.rs:518-581 | Merges any list of transactions into the refs in one rewrite; nothing changes if one update is invalid, and an invalid detached HEAD is noticed only after the refs are replaced. |
| RefsCache.CheckOldValues | crates/gitcask-git/src/refs.rs:264-290 | Reports the first update whose old value is not the current one with zeros in front or off, and nothing otherwise. |
| RefsCache.SameIdIff | crates/gitcask-git/src/refs.rs:271-287 | Comparing ids after their leading zeros are dropped is the same as asking that one is the other with zeros in front. |
| RefsCache.SameLengthSameId | crates/gitcask-git/src/refs.rs:271-287 | Ids of one length match only if they are equal. |
| RefsCache.NamesRefused | crates/gitcask-git/src/error.rs:35-59 | Every name with a forbidden character or part anywhere, a forbidden end, or no `refs/` in front is refused. |
| RefsCache.NamesAccepted | crates/gitcask-git/src/error.rs:35-59 | HEAD and every name under `refs/` made of plain words with single slashes between is accepted. |
| RefsCache.OidsAcceptedIff | crates/gitcask-git/src/error.rs:62-73 | An id is accepted if and only if it is all zeros, or 40 or 64 hexadecimal digits. |
| RefsCache.ShownOldIff | crates/gitcask-git/src/refs.rs:264-290 | Comparing old values against the view gives the verdict the disk would give, even after HEAD was deleted. |
| RefsCache.RefsThenHead | crates/gitcask-git/src/refs.rs:300-378 | Writing refs in one git command and HEAD afterwards is the same as the updates in order. |
| RefsCache.HeadDeletionSplitsTheCaches | crates/gitcask-git/src/refs.rs:56-73 | After a transaction that deletes a detached HEAD the view reports none, resolves the old one, and the disk has none. |
| Connectivity.PeelTip | crates/gitcask-git/src/connectivity.rs:286-313 | Follows tags to the object they end at; reports a missing link, and too many tags exactly when there are 64 in a row. |
| Connectivity.WalkTree | crates/gitcask-git/src/connectivity.rs:322-362 | The breadth-first walk leaves every tree it saw with all its entries seen, although shared subtrees are not descended twice; a missing object it reports is missing and reachable. |
| Connectivity.RevWalk | crates/gitcask-git/src/connectivity.rs:129-146 | Every parent of a walked commit is walked or hidden; a failed walk met a missing object. |
| Connectivity.PeelTips | crates/gitcask-git/src/connectivity.rs:57-88 | After peeling every tip, all that was seen is present and followed. |
| Connectivity.CheckConnectivity | crates/gitcask-git/src/connectivity.rs:21-184 | The check passes if and only if nothing reachable from the tips is missing and no tip is behind 64 tags in a row; a missing object it names is missing and reachable. |
| Connectivity.ConnectedIff | crates/gitcask-git/src/connectivity.rs:21-184 | Nothing reachable is missing if and only if the tips lie in a set of present objects that has the tree and parents of each commit, the trees and blobs of each tree and the target of each tag. |
| Connectivity.CheckTagged | crates/gitcask-git/src/connectivity.rs:286-313 | A tip behind a run of tags on a complete object passes with up to 63 tags and is refused with 64. |
| Gc.ScanLog | crates/gitcask-server/src/gc.rs:285-311 | One log object: kept if live or if any entry is retained, with the references and supersession times of its entries added. |
| Gc.MakePlan | crates/gitcask-server/src/gc.rs:225-405 | The plan contains exactly the listed objects at least as old as the retention that nothing holds: log objects no segment names and all of whose entries are old; directories of old checkpoints other than the current one; packs that some dated compaction superseded, all of them long ago, that are not live and that no young or undated entry mentions and no checkpoint that stays lists; caches by their own retention. |
| Gc.WindowIsSpared | crates/gitcask-server/src/gc.rs:225-405 | With timestamps non-decreasing, no pack of the head or of any moment whose next entry is undated or younger than the retention is collectable. |
| Gc.PlanSparesThePresent | crates/gitcask-server/src/gc.rs:225-405 | No planned deletion touches a live log object, one with a young or undated entry, the current checkpoint, or a pack of the head or of the rewind window. |
| Gc.RetainedStayListed | crates/gitcask-server/src/gc.rs:285-311 | Every entry that is undated or younger than the retention at any later time is in a log object the plan leaves alone, so later collections can still rely on it. |
| Gc.DeleteListed | crates/gitcask-server/src/gc.rs:437-453 | With other clients writing in between and the network losing, refusing or garbling any delete, each one removes exactly the listed object or nothing; success means each object was gone right after its delete, and a failure has a fault or a changed object behind it. |
| Gc.CollectUnderLease | crates/gitcask-server/src/gc.rs:153-211 | With objects read one after the other and deletes under faults, nothing is deleted unless, after planning, the manifest was still the very object the plan was made from; every deletion was planned, and success means all that was planned is gone. Nothing is done if and only if no higher-tier pack and no checkpoint came since the last collection. |
| Gc.CollectionSparesTheNeeded | crates/gitcask-server/src/gc.rs:153-211 | No deletion of a collection changes the manifest it was checked against, a live log object of it or one with a young entry, its checkpoint or a young one, or a pack of its head or of the rewind window. |
| Gc.LaterManifestIsSparedIff | crates/gitcask-server/src/gc.rs:153-211 | No deletion of the collection can remove a pack file of a manifest stored after the second look if and only if that manifest lists no planned checksum. |
| Gc.RepublishedPackIsLost | crates/gitcask-server/src/gc.rs:153-211 | A planned pack that is published again after the second look keeps its listed version, and its deletion goes through. |
| PendingQueue.NoLostWakeUp | crates/gitcask-server/src/maintain.rs:329-400 | In every run, whatever was committed when a marker write was applied still has a marker at least as new, or some maintainer was idle on a manifest whose head was at or past it. |
| PendingQueue.WakesUpIff | crates/gitcask-server/src/maintain.rs:329-400 | In every run, a committed push with no marker, nobody at work and nobody idle past it has a marker or was served at a later moment if and only if a marker write was applied in between. |
| PendingQueue.HistoryIsKept | crates/gitcask-server/src/maintain.rs:424-438 | Idle decisions are about heads that existed, and no completed push is forgotten. |
| PendingQueue.UndisturbedVisit | crates/gitcask-server/src/maintain.rs:329-400 | A visit that nothing disturbs serves the head and removes the marker. |
| PendingQueue.MarkerRemovedIff | crates/gitcask-server/src/maintain.rs:424-438 | A delete removes the marker if and only if it reaches the store and the marker is still the one that was listed. |
| PendingQueue.LostMarkerLosesTheWakeUp | crates/gitcask-wal/src/publish.rs:466-481 | A marker write that does not reach the store leaves a committed push without a wake-up. |
| Maintenance.UnitMakesProgress | crates/gitcask-server/src/maintain.rs:181-278 | For every pack list that can be marked, and for every list where the instance has no compaction role, every unit the planner picks decreases (fold due, missing reverse indexes, checkpoint due, audit due, collection due) lexicographically. |
| Maintenance.NextUnitIff | crates/gitcask-server/src/maintain.rs:181-278 | Which unit comes next, in numbers and in order of priority: entries, bytes or time since the checkpoint; the number and size of tier-zero packs; a missing reverse index; an audit behind a compaction or behind the log; anything new since the last collection; nothing. |
| Maintenance.OldestIsLeast | crates/gitcask-server/src/maintain.rs:221-237 | The pack picked for a reverse index has the least number among those without one that have at least 250000 objects. |
| Maintenance.RunMarker | crates/gitcask-server/src/maintain.rs:352-400 | The unit loop runs the planner's units up to the first moment when nothing is left and removes the marker; it yields if and only if the first unit is a checkpoint and what follows is at most an audit or a collection. |
| Maintenance.VisitUntilRemoved | crates/gitcask-server/src/maintain.rs:352-400 | The marker is gone after one visit, or after two if the first one yields, with nothing left to do. |
| Maintenance.ConvergesIff | crates/gitcask-server/src/maintain.rs:221-237 | Once reverse indexes are next, some number of units reaches idle, or any unit that is no reverse index, if and only if no pack that needs one is listed behind an earlier pack of the same checksum. |
| Maintenance.ReachesIdle | crates/gitcask-server/src/maintain.rs:352-400 | From every repository without such a pack, or without the compaction role, some number of the planner's units reaches idle. |
| Maintenance.MarkStandsStillIff | crates/gitcask-wal/src/publish.rs:1320-1342 | One reverse-index unit changes nothing if and only if the first pack of that checksum already has one. |
| Maintenance.DuplicatePackNeverConverges | crates/gitcask-server/src/maintain.rs:221-237 | With the same pack listed twice, with or without an index on the first copy, the planner picks its reverse index again after any number of units. |
| Bridge.DeliveryNeverSkips | crates/gitcask-server/src/bridge.rs:100-178 | In every run with any number of bridges, sink failures, folding and lost cursor writes, each committed number at or below the stored cursor reached every sink, was reported in a gap, or was folded before the first cursor. |
| Bridge.FetchIsCompleteIff | crates/gitcask-server/src/bridge.rs:110-144 | A fetch misses nothing if and only if the checkpoint of the manifest it reads is not past what the bridge counts as published. |
| Bridge.ReadsExactly | crates/gitcask-wal/src/log_reader.rs:20-61 | The log reader returns exactly the entries the protocol assumes. |
| Bridge.OverrunSkipsAnEntry | crates/gitcask-server/src/bridge.rs:100-178 | A run in which an entry is folded between sync and read: nothing is sent or reported and the cursor moves past it. |
| Bridge.CursorGoesBackIff | crates/gitcask-server/src/bridge.rs:153-171 | In every run, the stored cursor goes back exactly when an accepted write comes from a bridge whose head was already behind the cursor it loaded. |
| Bridge.CursorGoesBack | crates/gitcask-server/src/bridge.rs:153-171 | A run, in a build without overflow checks, in which two bridges move the cursor from 2 back to 1. |
| Bridge.GapIff | crates/gitcask-server/src/bridge.rs:122-132 | In every run, even one that skips entries, a gap is reported exactly for the committed numbers past the cursor that the bridge saw folded, and only for folded ones. |
| Bridge.UndisturbedReport | crates/gitcask-server/src/bridge.rs:103-132 | A bridge that syncs and at once loads a cursor reports exactly what is folded past it. |
| Bridge.BatchIff | crates/gitcask-server/src/bridge.rs:143-146 | What a bridge sends is exactly the committed numbers up to its head that are past its cursor and not folded. |
| Bridge.UndisturbedPut | crates/gitcask-server/src/bridge.rs:153-171 | A cursor write that nothing disturbs moves the cursor to the head the bridge synced. |
| Events.EventFor | crates/gitcask-server/src/events.rs:127-154 | An update makes no event if and only if it is symbolic or changes nothing; otherwise the event carries both values, an absent one as zeros of full length, and the action says which side is absent. |
| Events.RefsFromEntries | crates/gitcask-server/src/events.rs:115-157 | The loop emits the events of push and ref-update entries in order. |
| Events.EventsIff | crates/gitcask-server/src/events.rs:115-157 | An event is sent if and only if an update of some push or ref-update entry, with or without a pack, makes it under the number of that entry. |
| Events.EventsAreFaithful | crates/gitcask-server/src/events.rs:115-157 | For every log whose updates carry true old values, applying the events to the refs before gives exactly the refs after. |
| Events.RedeliveryIsHarmless | crates/gitcask-server/src/bridge.rs:143-171 | A consumer that saw events up to any point and is sent everything from any earlier point again ends where a single delivery would. |
| Events.WrongOldHidesAnUpdate | crates/gitcask-server/src/events.rs:40-48 | An update with a wrong old value, which the publisher refuses, can hide a change. |
| Events.EventsAreFaithfulIff | crates/gitcask-server/src/events.rs:115-157 | Whatever old values a log carries, applying its events to the refs before gives the refs after if and only if, for each name, its last update is announced or has the value that the announced ones before it, or the start, left there. |
| Events.AcceptedIsTrue | crates/gitcask-wal/src/publish.rs:315-349 | Old values that were compared with the refs before the transaction are true ones if no ref is named twice in it. |
| Events.PublishedLogIsFaithful | crates/gitcask-wal/src/publish.rs:315-349 | The events of every log whose transactions were so compared and name no ref twice are faithful. |
| Events.RepeatedNameHidesAnUpdate | crates/gitcask-wal/src/publish.rs:315-349 | A transaction the publisher accepts that names a ref twice: the only event says 2, the refs end at 1. |
| Events.FalseOldMayBeHeard | crates/gitcask-server/src/events.rs:127-154 | A false old value whose change is announced all the same. |
| Glob.GlobMatch | crates/gitcask-cli/src/import.rs:48-72 | Returns true exactly when the string splits into the literal parts with any text for each star. |
| Glob.GlobMatches | crates/gitcask-server/src/auth.rs:135-168 | The same for the scope matcher. |
| Glob.BothMatchers | crates/gitcask-cli/src/import.rs:48-72 | The two matchers agree on every pattern and string. |
| Glob.LeftmostSuffices | crates/gitcask-cli/src/import.rs:64-68 | If the parts fit with the first one anywhere, they fit with it at its leftmost place. |
| Glob.Keep | crates/gitcask-cli/src/import.rs:36-45 | A ref is kept if it is HEAD's target, a branch or tag without globs, or matches one of them. |
| LsRefs.RangeOf | crates/gitcask-git/src/advertise.rs:63-74 | The binary-searched range is exactly the names that start with the prefix. |
| LsRefs.MergeRanges | crates/gitcask-git/src/advertise.rs:75-85 | Merging sorted ranges yields each covered position once and in order. |
| LsRefs.Select | crates/gitcask-git/src/advertise.rs:57-86 | For any prefixes the fast selection is the simple filter. |
| LsRefs.ListRefs | crates/gitcask-git/src/advertise.rs:36-124 | The answer is the selected refs and the HEAD line the protocol asks for. |
| LsRefs.AnswerIs | crates/gitcask-git/src/advertise.rs:57-101 | A line is in the answer if and only if it is a ref other than HEAD that some prefix asks for, with its object; each is there once, in order of names. |
| LsRefs.HeadLineIs | crates/gitcask-git/src/advertise.rs:102-124 | The HEAD line in every case: not asked for, detached, symbolic with its target there, unborn, absent. |
| Frame.EncodeEntries | crates/gitcask-proto/src/lib.rs:102-115 | The encoder writes one length-prefixed frame for each entry. |
| Frame.DecodeEntries | crates/gitcask-proto/src/lib.rs:119-135 | The decoder reads every complete frame and reports where the last one ends. |
| Frame.TruncationKeepsWholeFrames | crates/gitcask-proto/src/lib.rs:119-135 | For every entry list and every cut, decoding returns exactly the entries whose whole frames fit and the offset of the last. |
| Frame.FitsIsLargest | crates/gitcask-proto/src/lib.rs:119-135 | That count is the largest number of whole frames within the cut. |
| Frame.AppendedObjectsDecode | crates/gitcask-proto/src/lib.rs:119-135 | Decoding a concatenation of encodings gives the concatenated lists. |
| Frame.VarintRoundTrip | crates/gitcask-proto/src/lib.rs:102-107 | A 64-bit length reads back, whatever follows it. |
| Frame.VarintDigits | crates/gitcask-proto/src/lib.rs:102-107 | A length is written in base 128, least digit first, the top bit set on every byte but the last, with no useless byte. |
| Frame.SixtyFourBits | crates/gitcask-proto/src/lib.rs:102-107 | The lengths that read back are those below two to the sixty-fourth. |
| PktLine.Reader.ReadPktLine | crates/gitcask-git/src/pkt.rs:72-126 | The next line, or exactly one of the four errors, and the bytes after it. |
| PktLine.ErrorsIff | crates/gitcask-git/src/pkt.rs:72-126 | Each error in terms of the bytes: fewer than four, a character that is no hexadecimal digit, a length of three, a length past the end. |
| PktLine.DataReadsBackIff | crates/gitcask-git/src/pkt.rs:384-394 | A data line reads back if and only if its length fits sixteen bits. |
| PktLine.LongLineReadsAsFlush | crates/gitcask-git/src/pkt.rs:384-394 | A line of 65532 bytes is read as a flush, with its data left over. |
| PktLine.WritePktLine | crates/gitcask-git/src/pkt.rs:133-152 | Data of any length is written in lines of 65516 bytes and one with the rest, so that up to 65516 bytes are one line; a reader gets it back up to the flush. |
| PktLine.WriteChannel | crates/gitcask-git/src/pkt.rs:203-231 | The same with a channel byte in front of each line of at most 65515 bytes: removing side-band framing gives the data back and stops right after the flush. |
| PktLine.FramesReadBack | crates/gitcask-git/src/pkt.rs:72-97 | A section of lines reads back up to its flush, leaving the rest. |
| Receive.Parse | crates/gitcask-git/src/receive.rs:79-203 | The parser reads shallow lines, commands and options in its loops and leaves the reader at the first pack byte. |
| Receive.CommandsRefused | crates/gitcask-git/src/receive.rs:79-203 | A command with fewer than three fields, or whose name or ids are not good, is refused; any other is read. |
| Receive.LateShallow | crates/gitcask-git/src/receive.rs:79-203 | A shallow line is also read among the commands, without the white space around its id. |
| Receive.ApplyCaps | crates/gitcask-git/src/receive.rs:205-226 | Capabilities are the fold of the words of the capability string. |
| Receive.CapsAreTheirWords | crates/gitcask-git/src/receive.rs:205-226 | For every list of words, each flag is set if and only if its word is in the list, and the last agent and the last object format win. |
| Receive.PushReadsBack | crates/gitcask-git/src/receive.rs:79-203 | Every command, shallow id, capability and option of an encoded push is recovered, whatever pack bytes follow, and the reader stops exactly there. |
| Receive.ReportStatus | crates/gitcask-git/src/receive.rs:233-297 | Removing side-band and then pkt-line framing recovers the unpack line and one status line for each ref. |
| Receive.ReportReadsBack | crates/gitcask-git/src/receive.rs:233-297 | From the lines of a report a client recovers the verdict on the pack and on every ref. |
| Receive.StatusReadsBackIff | crates/gitcask-git/src/receive.rs:253-271 | A status line reads back if and only if a refused name has no space in it. |
| Receive.ReportSplitsIff | crates/gitcask-git/src/receive.rs:279-283 | The lines a client sees are the report's own if and only if no name or reason contains a newline. |
| Receive.NewlineSplitsAStatusLine | crates/gitcask-git/src/receive.rs:251-283 | A newline in a reason gives the client a third line. |
| Fetch.BuildFetchRequest | crates/gitcask-git/src/advertise.rs:265-323 | The printer writes the preamble and one line for each part of the request. |
| Fetch.WireWords | crates/gitcask-git/src/advertise.rs:265-323 | Each part of a request is one line with its word of the protocol. |
| Fetch.WireFlags | crates/gitcask-git/src/advertise.rs:265-323 | Each flag is one line with its word of the protocol. |
| Fetch.ReadCommand | crates/gitcask-git/src/pkt.rs:265-297 | The preamble reader collects the command, its capabilities and bare words up to the delimiter. |
| Fetch.HeaderLineMeans | crates/gitcask-git/src/pkt.rs:265-297 | A line of the preamble names the command, gives a capability its value, or is an argument that without spaces also counts as a capability. |
| Fetch.ParseFetchRequest | crates/gitcask-server/src/smart.rs:1099-1170 | The parser folds the lines of the body into a request. |
| Fetch.NumbersReadBackIff | crates/gitcask-server/src/smart.rs:1099-1170 | Depths read back if and only if they have 32 bits, times if and only if they have 64 bits with a sign. |
| Fetch.OidsReadIff | crates/gitcask-server/src/smart.rs:1099-1170 | An object id is read if and only if it is 40 or 64 hexadecimal digits in either case, and then in lower case. |
| Fetch.FetchReadsBack | crates/gitcask-server/src/smart.rs:1099-1170 | Reading the preamble and the body of a printed request gives the request back up to trailing newlines, with list orders, numbers and flags. |
| Fetch.SurvivesIff | crates/gitcask-server/src/smart.rs:1099-1170 | A request survives unchanged if and only if none of its strings ends in a newline. |
| Fetch.NewlineIsLost | crates/gitcask-server/src/smart.rs:1099-1170 | A wanted ref name that ends in a newline arrives without it. |
| FetchRelay.RelayedIff | crates/gitcask-server/src/smart.rs:376-387 | A request parsed from any lines, printed for the local git and parsed again, is the same request if and only if each of its strings leaves room in a line for its keyword and a newline. |
| FetchRelay.FullLineIsLost | crates/gitcask-server/src/smart.rs:376-387 | A wanted ref in a line as long as a line can be, without a newline, is lost in the request the server prints. |

## Left out

- Real time, retry sleeps, jitter, metering, tracing and the S3 backend: replaced by abstract clocks and by faults on each mutation.
- git subprocesses and gix: `update-ref`, repack, fsck, index-pack and the commit walk appear only through the effect their callers rely on.
- HTTP routing, streaming, configuration, command-line dispatch, LFS, tokens and keys: transport or shallow code.
- Protobuf field encoding of log entries, manifests and checkpoints: an entry codec is a parameter of `Frame`, elsewhere objects are values.
- Object keys as strings: garbage collection names keys by what they stand for, so prefix and suffix parsing of keys is not covered; its lists are not sorted.
- Peeled tag values in snapshots and updates.
- UTF-8: bytes on the wire are characters, so lossy decoding is not covered; only ASCII white space is trimmed.
- Partial reads from a socket: a reader holds the bytes still to come.
- Parallelism inside one operation: concurrent gets and deletes of the collector are taken one after the other with other clients in between; the refs cache is sequential.
- Changes to the local repository by other programs, which the cache notices by file times; an input/output error while writing HEAD after the refs were written, which leaves a current cache behind.
- Draining and failing units in the maintenance loop, malformed markers and repositories that disappeared.
- The wait loop of `acquire`, the heartbeat task, and the drop of a guard outside the protocol model, where it is a step.
- What a push, a compaction or an annotation installs in its own instance when it lands, which here comes with the next sync. A sync and a commit install manifest and version in one step.
- VersionedStore.MemoryStore.Get: does not model range reads and their invalid-argument error.
- VersionedStore.MemoryStore.PutThrough: does not model a call that never returns; in the protocols that is a client that takes no further step.
- VersionedStore.MemoryStore.DeleteThrough: the same.
- CheckpointSafety.SyncIsExact: does not model the publisher's local commit (`crates/gitcask-wal/src/publish.rs:781-783`), which can install an older manifest than a sync before it did; instances never move back.
- Wal.LateSnapshotRewind: is about a snapshot taken whole; `Wal.RewindIff` and `Wal.BlendRewindsIff` cover those that runs store.
- Rewind.RewindIsFaithful: requires a rewindable range, because replaying other entries can give the same refs; `Rewind.GatherExactIff` states when the entries are the right ones.
- Rewind.ProbeLog: requires that no log object's last entry is numbered below its key, because publishers number upward from it; the loop would not end.
- Rewind.Materialize: requires the same of log objects.
- RefsCache.RefView.Set: requires a non-empty value for HEAD, because every caller sets a non-null object id.
- RefsCache.PatchSnapshot: does not model peeled tag values.
- RefsCache.LocalRepo.RefsArc: does not model changes that are noticed by file times.
- RefsCache.LocalRepo.ApplyRefTxn: requires, where old values are compared, that HEAD does not point at itself; the lookup in `crates/gitcask-git/src/refs.rs:31-63` would not return.
- LsRefs.ListRefs: does not model peeled tag values.
- PktLine.Reader.ReadPktLine: does not say which bytes are left after an error.
- PendingQueue.NoLostWakeUp: does not model manifest reads that the freshness time-to-live skips.
- Connectivity.RevWalk: does not model the order in which commits are visited, only which ones.
- Gc.MakePlan: does not sort its result.
- Gc.CollectionSparesTheNeeded: is about the manifest that was looked at twice; `Gc.LaterManifestIsSparedIff` states when a later one is safe.
- Bridge.CursorGoesBack: does not model overflow checks; where they are on, the lag gauge (`crates/gitcask-server/src/bridge.rs:134`), an unsigned subtraction, panics before the cursor is written.
- Events.EventsAreFaithful: states a sufficient condition; `Events.EventsAreFaithfulIff` states the exact one.

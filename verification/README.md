# Verification model of the evidence store and the replay inspector

This project models the parts of the repository that keep or interpret state, and proves what they promise.

**Artifact store** (`Artifact*.dfy`, `CopyTree.dfy`). Evidence bundles move staging → bundles → trash by atomic
renames. `ArtifactDisk` describes one identity's directories and the durable steps on them, `ArtifactProtocol` every
locked section as a plan of such steps, `ArtifactRecovery` what opening the store does with whatever lies on disk, and
`ArtifactWorld` runs: any interleaving of locked sections, lease and writer handles, unlocked deletion steps, writes by
outside processes, I/O errors and power losses between any two durable steps, and recoveries that may be cut again.
The classes `ArtifactStore.Store` and `ArtifactRestart.Restart` are the code's own form: maps updated in place, one
durable step at a time, each step free to fail, to fail after taking effect, or to lose the power. Every public method
is proved to be an event (or a list of events) of a run, so what holds of all runs holds of the class; and in a calm
environment, one in which nothing fails, what is not refused is done. `ArtifactEffects` spells out, field by field, what
each section, each failed section, each handle event and each recovery comes to, and `ArtifactHistory` what runs keep of
an attempt: its origin, the outputs it owes, the time of its publication, its pin. `ArtifactUsage` adds the byte accounts
and the retention policy, `ArtifactListing` the pages of `list`, and `CopyTree` the bounded import of a directory against
the inventory that publication will take of it, whose limits `TreePaths` restates path by path.

**Command interpretation** (`Descriptor*.dfy`, `Draw*.dfy`, `FrameHistory.dfy`, `PoolDemand.dfy`). `DescriptorState` and
`DrawState.Recorder` keep slots and maps up to date command by command. `DrawReading` and the first half of
`DescriptorState` say, without any state, what a whole command history means at a draw; the main results say that the
incremental state reports exactly that. `DrawScenarios` tells what follows for binds and setters from the commands alone,
`DescriptorOffsets` which descriptor takes which dynamic offset. `DrawExecutions` reads a frame of submissions, and
`FrameHistory` says what its executions are without the recursions that compute them; `DescriptorPools` and `PoolDemand`
do the same for the capacity of descriptor pools. The disturbance rule is the code's reading of section 14.2.2 (Pipeline
Layouts) of the Vulkan 1.3 specification.

**Generated source** (`Lexemes.dfy`, `Brackets.dfy`, `Documents.dfy`, `Arguments.dfy`, `Integers.dfy`,
`SourcePrinter.dfy`, `SourceNesting.dfy`). A grammar that cuts a text into lexemes, and the one-pass `Document` class that
must agree with it; bracket partners, enclosing braces and lines; the argument splitter; integer literals; and a printer
of tokens, with which the grammar is confirmed from outside: what is written is read back, and every balanced text is
accepted.

**Algorithms**. `Sha256` (streaming hasher against FIPS 180-4, and the descriptor read loop, with the two published
examples in `Sha256Example` and `Sha256TwoBlocks`), `ProfileMarkers` (indentation to hierarchy), `Supervisor` (the loop
that supervises a child process group), `ChildList` (the scanner of the kernel's child list, and closing of descriptors),
`Timing` (wrapping timestamps), `Ppm` (printer and parser) and `PpmGrammar` (which files the parser accepts).

The loops of the modelled functions are loops here with their invariants, proved against a specification function or
predicate; the lemmas about that specification are the results. Two walks are only summarised: `tree_bytes` by given
sizes, and the name check of `prepare_locked` by one flag of the directory. `Prelude` holds options, decimals, ordered
key sequences and sums.

Where the code falls short of what one would expect, the code's behaviour is proved instead:
- The child-list scanner refuses some process numbers that would still fit the type, though no kernel hands such numbers
  out: `ChildList.ChildrenRoundTrip` says for which lists it does.
- A candidate of retention that was renamed although the following directory sync failed has left the entries and is
  listed as expired all the same (`ArtifactStore.Store.Claim`, `ArtifactStore.Store.Prune`).
- A failed `begin` leaves a row without a writer and without quarantine. `ArtifactWorld.AbandonedIff` says exactly when
  a row is in that state: its `begin` failed after making the row, and the store has not been restarted since.
  `ArtifactWorld.AbandonedIsReachable` exhibits it, and `ArtifactWorld.CrashSafety` covers the restart.
- A `begin` that makes its directory but cannot open it leaves the directory in staging without any row, uncharged, until
  the next restart quarantines it. `ArtifactWorld.OrphanIff` says exactly when a directory is in that state,
  `ArtifactWorld.OrphanIsReachable` exhibits it, and `ArtifactUsage.OrphanIsUncharged` says that it is not charged.
- Lower-numbered descriptor binds disturb higher slots by the layout a slot was last touched under, which is stricter
  than the latest bind alone (`DescriptorState.DrawSeesHistory` states the exact condition).

## Model

| member | source | states |
|---|---|---|
| `ArtifactWorld.CrashSafety` | src/artifacts/Artifacts.cpp:873-987 | After any run from an initialised root, cut by power losses and I/O errors at any durable step, recovery is never refused and leaves every identity published, quarantined and pinned in staging, expired, or unknown |
| `ArtifactWorld.QuarantineIsFinal` | src/artifacts/Artifacts.cpp:689-738 | Once a quarantine call has returned, no continuation of the run (restarts, resumed writers, publications) shows the identity as complete on disk or in memory; while staged it is failed, quarantined and pinned |
| `ArtifactWorld.TaintIsForever` | src/artifacts/Artifacts.cpp:962-970 | The invariant behind it: a tainted identity stays tainted under every event, partial recoveries included |
| `ArtifactWorld.QuarantineTaints` | src/artifacts/Artifacts.cpp:689-705 | A finished quarantine, or the close of an unpublished writer, taints its identity |
| `ArtifactWorld.PublicationIsDurable` | src/artifacts/Artifacts.cpp:753-779 | A bundle that lies in bundles keeps its manifest through every run that does not claim it for deletion, crashes included |
| `ArtifactWorld.PublishHolds` | src/artifacts/Artifacts.cpp:753-779 | A publication that finished has its final manifest, with the inventory found at that moment, in bundles |
| `ArtifactWorld.OnlyUnprotectedAreDeleted` | src/artifacts/Artifacts.cpp:1026-1068 | A published bundle that is gone was claimed by retention at a moment when it was neither staged nor pinned, had no active writer, and no lease or writer handle on it was live |
| `ArtifactHistory.CompleteHasOutputs` | src/artifacts/Artifacts.cpp:394-404 | In every run from a fresh store, a complete bundle in bundles has every output its begin required, and none of them is empty |
| `ArtifactHistory.OriginIsKept` | src/artifacts/Artifacts.cpp:660-672 | Wherever a run shows an attempt (row, staged or published manifest, expiration, record), its creation time and required outputs are those of its begin, and its provenance is that of begin or one given since |
| `ArtifactHistory.ProvenanceIsLatest` | src/artifacts/Artifacts.cpp:1205-1220 | After an update of the provenance that is kept, only a later update changes it |
| `ArtifactHistory.PublishedWasAsked` | src/artifacts/Artifacts.cpp:726-737 | A published manifest was asked for by a publication of the run: status, reason, files and completion time are those of the call, the last never before the creation |
| `ArtifactHistory.AgedClaimIsOld` | src/artifacts/Artifacts.cpp:1034-1037 | A bundle claimed as too old was published at least the age limit before, whenever its attempt began |
| `ArtifactHistory.PinProtects` | src/artifacts/Artifacts.cpp:1026-1033 | From the moment an identity is pinned on disk and in memory until somebody asks to unpin it, every run keeps it pinned and retention never claims it |
| `ArtifactHistory.PinsPin` | src/artifacts/Artifacts.cpp:1320-1338 | A finished pin, a begin as pinned and a quarantine leave the identity pinned in this sense |
| `ArtifactWorld.AccountsAgree` | src/artifacts/Artifacts.cpp:780-805 | In every interleaving the lease counter is the number of live lease handles, a live writer handle means an active row, trash and deletion accounts hold expired identities only, and the two identity maps are disjoint |
| `ArtifactWorld.AbandonedIff` | src/artifacts/Artifacts.cpp:1192-1202 | In every run an identity is staged without active writer and without quarantine exactly if its begin failed after making the row and the store has been up ever since |
| `ArtifactWorld.AbandonedStep` | src/artifacts/Artifacts.cpp:1192-1202 | One event leads into that state exactly if it is such a failed begin, and only a loss of power or a restart leads out |
| `ArtifactWorld.AbandonedIsReachable` | src/artifacts/Artifacts.cpp:1192-1202 | A fresh store reaches the state with its first begin |
| `ArtifactWorld.OrphanIff` | src/artifacts/Artifacts.cpp:1186-1192 | In every run a directory lies in staging without a row exactly if a begin made it without opening it and the store has been up ever since |
| `ArtifactWorld.OrphanStep` | src/artifacts/Artifacts.cpp:1186-1192 | One event leads into that state exactly if it is such a begin, and only a loss of power or a restart leads out |
| `ArtifactWorld.OrphanIsReachable` | src/artifacts/Artifacts.cpp:1186-1192 | A fresh store reaches the state with its first begin |
| `ArtifactWorld.RunKeeps` | src/artifacts/Artifacts.cpp:562-579 | The invariant linking disk, memory and handles holds in every world of every run |
| `ArtifactWorld.NextKeeps` | src/artifacts/Artifacts.cpp:562-579 | Each event keeps it: finished, failed and cut locked sections, handle changes, outside writes, power loss, recovery |
| `ArtifactProtocol.PlanIsSafe` | src/artifacts/Artifacts.cpp:223-246 | Each durable step of each locked section is accepted by the file system where it is taken and keeps the cell recoverable |
| `ArtifactProtocol.CutKeeps` | src/artifacts/Artifacts.cpp:223-246 | A cut after any number of steps of any locked section leaves a recoverable cell |
| `ArtifactProtocol.OpKeeps` | src/artifacts/Artifacts.cpp:753-779 | A locked section that ends, or fails after any of its steps, leaves memory and disk in agreement |
| `ArtifactEffects.SectionEffects` | src/artifacts/Artifacts.cpp:689-779 | The row and the directory after each finished section, field by field |
| `ArtifactEffects.FailureEffects` | src/artifacts/Artifacts.cpp:753-805 | The row after a section that an I/O error ended at any step: as it was, or protective, or as after success once the rename was made |
| `ArtifactEffects.TouchEffects` | src/artifacts/Artifacts.cpp:780-805 | The row, the handles and the directory after each event without durable steps |
| `ArtifactEffects.RecoveryEffects` | src/artifacts/Artifacts.cpp:902-987 | The row and the directories of one identity after recovery, field by field: published as it was, publication finished, quarantined under its old or the given reason with its files, or expired with its deletion done or still charged |
| `ArtifactProtocol.QuarantineResult` | src/artifacts/Artifacts.cpp:689-705 | Quarantine cut anywhere loses neither the pin file nor the manifest nor the partitions, and complete it is pinned and failed |
| `ArtifactProtocol.PublishResult` | src/artifacts/Artifacts.cpp:753-779 | The exact cell after each step of a publication: only the rename makes it published |
| `ArtifactProtocol.ClaimResult` | src/artifacts/Artifacts.cpp:1046-1061 | The exact cell after each step of a claim: the expiration record precedes the move to trash |
| `ArtifactEffects.AcceptedIff` | src/artifacts/Artifacts.cpp:873-987 | From whatever lies on disk, recovery takes an identity exactly if it is in one place, its expiration has a proper reason and stands beside everything in trash, and what is or is about to be published has a sound manifest, its pin and exactly the inventory the manifest names |
| `ArtifactDisk.SafePlan` | src/artifacts/Artifacts.cpp:223-246 | A plan whose steps are safe where they are taken can be cut at every step |
| `ArtifactDisk.PlanAt` | src/artifacts/Artifacts.cpp:562-579 | A plan for one identity runs in that identity's directories and leaves all others alone |
| `ArtifactRecovery.NeverRefuses` | src/artifacts/Artifacts.cpp:873-987 | No state that a crash can leave is refused as corrupt |
| `ArtifactRecovery.RecoveryCut` | src/artifacts/Artifacts.cpp:873-987 | A crash inside recovery is recoverable again |
| `ArtifactRecovery.RecoveryKeeps` | src/artifacts/Artifacts.cpp:873-987 | A finished recovery establishes the invariant and classifies the identity |
| `ArtifactRecovery.PublishRecovery` | src/artifacts/Artifacts.cpp:952-961 | A staged bundle whose final manifest is installed keeps its directory unchanged up to the rename that publishes it |
| `ArtifactRecovery.QuarantineRecovery` | src/artifacts/Artifacts.cpp:920-971 | Any other staged directory can be cut at every step and ends with both partitions, pinned and quarantined as failed |
| `ArtifactRecovery.TrashRecovery` | src/artifacts/Artifacts.cpp:972-987 | The deletion of a claimed bundle shrinks it name by name, to nothing or to where an error stops it, its record kept |
| `ArtifactRecovery.AllSettled` | src/artifacts/Artifacts.cpp:873-987 | Visiting the names found in bundles, staging and trash is visiting every identity |
| `ArtifactRestart.Restart.Recover` | src/artifacts/Artifacts.cpp:873-987 | The loops over the four directories open the store exactly when no identity is refused, and then leave the recovered disk and rows; cut, they leave a disk with some identities at the end and some in the middle of their plans |
| `ArtifactRestart.Restart.RecoverOne` | src/artifacts/Artifacts.cpp:902-985 | One identity's visit completes its cell and rows and leaves all others as they were; cut, it leaves the disk somewhere in this identity's plan |
| `ArtifactRestart.Restart.ReadRecords` | src/artifacts/Artifacts.cpp:873-901 | Expiration records become rows and temporaries are swept; a rejection names a refused identity |
| `ArtifactRestart.Restart.RecoverBundles` | src/artifacts/Artifacts.cpp:902-919 | Every published identity is settled, and its receipt of an uncommitted claim withdrawn |
| `ArtifactRestart.Restart.RecoverStaging` | src/artifacts/Artifacts.cpp:920-971 | Every staged identity is settled as published or quarantined |
| `ArtifactRestart.Restart.RecoverTrash` | src/artifacts/Artifacts.cpp:972-987 | Every claimed identity is settled as expired; exactly the deletions that failed stay charged in the deletion account |
| `ArtifactStore.Store.constructor` | src/artifacts/Artifacts.cpp:811-871 | A new store on an initialised empty root starts a run |
| `ArtifactStore.Store.Reopen` | src/artifacts/Artifacts.cpp:811-871 | Opening after a power loss goes on with the same run: it can be cut again but is never refused, and what it leaves is classified |
| `ArtifactStore.Store.Begin` | src/artifacts/Artifacts.cpp:1171-1204 | Retention runs first; an attempt starts only within the budget. A refusal for the budget means that the budget is exceeded, and then without a retention error no unprotected published bundle is left; any other refusal means that the attempt is not admitted |
| `ArtifactStore.Store.BeginLocked` | src/artifacts/Artifacts.cpp:1180-1204 | The locked part is exactly the protocol's begin, however it ends, or leaves a directory that could not be opened, without a row; refused exactly for more than 128 or repeated outputs and for an identity in use; in a calm environment it is refused or done |
| `ArtifactStore.Store.UpdateProvenance` | src/artifacts/Artifacts.cpp:1205-1220 | The manifest on disk and then the one in memory are replaced; refused exactly if the bundle is not staged |
| `ArtifactStore.Store.Quarantine` | src/artifacts/Artifacts.cpp:1221-1228 | The protocol's quarantine: memory first, then pin, then manifest; refused exactly for a published bundle or a reason that is not 1 to 4096 characters long |
| `ArtifactStore.Store.QuarantineLocked` | src/artifacts/Artifacts.cpp:689-705 | The protective memory change stands even if a durable step fails |
| `ArtifactStore.Store.CloseWriter` | src/artifacts/Artifacts.cpp:787-805 | A writer that goes away unpublished quarantines its attempt; it never fails to the caller |
| `ArtifactStore.Store.DropWriter` | src/artifacts/Artifacts.cpp:787-805 | If the clock fails the error is swallowed and the row stays active |
| `ArtifactStore.Store.Resume` | src/artifacts/Artifacts.cpp:1229-1237 | Granted exactly for a staged, quarantined attempt without active writer; otherwise busy, expired or not found |
| `ArtifactStore.Store.Lease` | src/artifacts/Artifacts.cpp:1339-1347 | Granted exactly for a published bundle, otherwise busy, expired or not found; the counter grows with the handle |
| `ArtifactStore.Store.ReleaseLease` | src/artifacts/Artifacts.cpp:780-786 | The handle and one count go together |
| `ArtifactStore.Store.Pin` | src/artifacts/Artifacts.cpp:1320-1338 | Refused exactly for unknown identities (expired or not found) and for unpinning a quarantined attempt (busy); a directory that cannot be opened changes nothing, and after a later error memory is protective |
| `ArtifactStore.Store.PreCheck` | src/artifacts/Artifacts.cpp:706-718 | A refusal before any write means that the publication is not admitted, and is one for its arguments, never for the budget |
| `ArtifactStore.Store.SweepTemps` | src/artifacts/Artifacts.cpp:719-720 | Leftover temporaries go before the files are listed |
| `ArtifactStore.Store.Commit` | src/artifacts/Artifacts.cpp:769-778 | Manifest, then rename: done, the row is published with the requested status; an error after the rename still counts as published |
| `ArtifactStore.Store.Finalize` | src/artifacts/Artifacts.cpp:753-779 | A sweep followed by the commit, or a refusal for its true reason: for the budget only a publication of success that nothing else forbids and whose bundle would not fit, otherwise only what is not admitted. A refusal for the budget leaves the attempt publishable as a failure, and an admitted publication of failure is never refused; a success leaves the total within a nonzero budget; what is refused for its arguments has something beside the partitions, an inventory beyond the limits, a quarantine, a required output missing or empty, or no proper reason, and nothing of the kind is ever published |
| `ArtifactStore.Store.PublishSuccess` | src/artifacts/Artifacts.cpp:1238-1259 | Success means the bundle lies in bundles as complete with the manifest that memory holds, and the total is within a nonzero budget. A refusal means: not publishable at the first look; or no room for the growth, and then without a retention error no unprotected published bundle is left; or refused by the last section for its true reason. After a refusal for the budget the writer is still live and may publish a failure (include/ngm/Artifacts.hpp:157) |
| `ArtifactStore.Store.PrepareSuccess` | src/artifacts/Artifacts.cpp:1242-1248 | The first look touches no row. It goes on exactly if the publication is admitted, and `growth` is what publishing will then add to the total |
| `ArtifactStore.Store.UsageLocked` | src/artifacts/Artifacts.cpp:628-659 | The loops over the maps compute the declared total |
| `ArtifactStore.Store.Claim` | src/artifacts/Artifacts.cpp:1026-1066 | A candidate is claimed exactly if nothing protects it and it is too old or the budget is exceeded at that moment; otherwise nothing changes |
| `ArtifactStore.Store.Consider` | src/artifacts/Artifacts.cpp:1026-1069 | One candidate: kept with nothing changed exactly if not wanted, gone from entries and from the deletion accounts, or an error on the way |
| `ArtifactStore.Store.DeleteClaimed` | src/artifacts/Artifacts.cpp:1005-1014 | Deletion step by step outside the lock; the account is closed only once the directory is gone |
| `ArtifactStore.Store.RetryDeletions` | src/artifacts/Artifacts.cpp:1015-1025 | Earlier claims are deleted first without touching entries; without an error no account is left |
| `ArtifactStore.Store.Prune` | src/artifacts/Artifacts.cpp:989-1075 | Without failures exactly a prefix of the unprotected published bundles in (completion time, identity) order is expired, the next one is neither aged nor is the budget exceeded, and if the budget is still exceeded no unprotected published bundle is left; in every case the entries lost are the listed ones and every claim was justified when made |
| `ArtifactStore.StagedStays` | src/artifacts/Artifacts.cpp:989-1075 | Retention, cut or failing anywhere, leaves row, handles and directory of every staged attempt exactly as they were |
| `ArtifactStore.SweepAdmits` | src/artifacts/Artifacts.cpp:719-720 | The sweep of temporaries does not change whether a publication is admitted |
| `ArtifactStore.Store.Outage` | src/artifacts/Artifacts.cpp:989-1075 | A power loss between two locked sections of retention is again an event of the run |
| `ArtifactStore.Store.List` | src/artifacts/Artifacts.cpp:1276-1300 | A page of the union of the two maps behind the cursor, refused exactly for a limit outside 1 to 100 |
| `ArtifactStore.ScriptRuns` | src/artifacts/Artifacts.cpp:223-246 | In every reachable state each step of an admitted section finds the file system ready for it |
| `ArtifactUsage.PublishUsage` | src/artifacts/Artifacts.cpp:739-768 | Publishing changes the total by the difference of the two manifests and by nothing else |
| `ArtifactUsage.OrphanIsUncharged` | src/artifacts/Artifacts.cpp:628-640 | What lies in a staging directory without a row does not count |
| `ArtifactUsage.StagedUntouched` | src/artifacts/Artifacts.cpp:1005-1068 | One event of retention leaves every staged attempt as it is |
| `ArtifactUsage.UsageShift` | src/artifacts/Artifacts.cpp:628-659 | Changing one bundle's directory shifts the total by exactly its difference |
| `ArtifactUsage.ClaimUsage` | src/artifacts/Artifacts.cpp:1046-1061 | A claim moves what the directory was charged to the deletion account, at the size in the record; besides, only the record is added |
| `ArtifactUsage.RecordedClaim` | src/artifacts/Artifacts.cpp:1039-1057 | The record of a claim by the policy has the times of the bundle and the true reason, and the claim changes the total by the record itself and nothing else |
| `ArtifactUsage.ForgetUsage` | src/artifacts/Artifacts.cpp:642-645 | Closing a deletion account lowers the total by exactly that account |
| `ArtifactUsage.FreshUsage` | src/artifacts/Artifacts.cpp:628-659 | An empty store is charged for its root only |
| `ArtifactUsage.ExceedsMeans` | src/artifacts/Artifacts.cpp:749-752 | The guarded comparison is the plain one: there is a budget and the sum is more |
| `ArtifactUsage.AgedMeans` | src/artifacts/Artifacts.cpp:1034-1036 | Too old means that the limit in seconds has passed since the completion in milliseconds |
| `ArtifactUsage.GrowthIs` | src/artifacts/Artifacts.cpp:739-748 | What publishing adds to the total is the difference of the manifest sizes, or nothing |
| `ArtifactUsage.ExceededMeansNoneLeft` | src/artifacts/Artifacts.cpp:1001-1037 | A budget still exceeded after retention leaves no unprotected published bundle |
| `ArtifactUsage.CollectCandidates` | src/artifacts/Artifacts.cpp:992-1001 | The candidates are all published bundles, in order of completion time and identity |
| `ArtifactUsage.PrunedOldest` | src/artifacts/Artifacts.cpp:992-1037 | After retention without errors, whatever went was completed before whatever could have gone and stayed, the smaller identity first in one millisecond, and what stayed is neither too old nor is there need for room |
| `ArtifactUsage.GoneStep` | src/artifacts/Artifacts.cpp:1026-1068 | A candidate that is still taken comes right behind those already gone: the expired ones stay a prefix |
| `ArtifactListing.FollowListsAll` | src/artifacts/Artifacts.cpp:1276-1300 | Following the cursor from the start ends and shows every identity exactly once in increasing order, for any page size |
| `ArtifactListing.List` | src/artifacts/Artifacts.cpp:1276-1300 | The two-iterator merge gives the page of the ordered union |
| `ArtifactListing.Merge` | src/artifacts/Artifacts.cpp:1284-1295 | Each turn takes the smaller head: the items are a stretch of the ordered union |
| `CopyTree.ImportTree` | src/artifacts/Artifacts.cpp:497-559 | Wherever the copy stops, the partial destination is within the publication limits and the budget; in a calm environment it finishes exactly when the source fits, and a finished copy is identical |
| `CopyTree.ImportThenInventory` | src/artifacts/Artifacts.cpp:1515-1533 | An import, finished or cut short, always passes the inventory of the bundle, so its evidence can be published as a failure |
| `CopyTree.InventoryTree` | src/artifacts/Artifacts.cpp:347-393 | The walk accepts exactly the trees within the entry, file, depth and path limits, and counts them |
| `CopyTree.CopyFile` | src/artifacts/Artifacts.cpp:522-558 | Chunks are written only within the budget; a failed write may leave any part of its chunk; a finished copy has the whole file; in a calm environment nothing but the quota stops it |
| `CopyTree.WithinPrefix` | src/artifacts/Artifacts.cpp:497-515 | One entry that does not fit keeps every tree that contains it from fitting |
| `TreePaths.ShapedIff` | src/artifacts/Artifacts.cpp:347-375 | A tree passes exactly if every path in it is a plain file or a directory, has legal components, fits the length limit and, for a directory, the depth limit |
| `TreePaths.TotalCounts` | src/artifacts/Artifacts.cpp:347-375 | The counts of the walk are the number of nodes, the number of files and the sum of their bytes |
| `DescriptorState.DrawSeesHistory` | src/inspection/DescriptorState.cpp:210-359 | A draw sees a set in slot n exactly when the last bind of slot n bound it under a layout compatible with the draw's up to n, no later bind of a higher slot was incompatible up to n, and no later bind of a lower slot m replaced a slot last touched under a layout incompatible up to m |
| `DescriptorState.Compatible` | src/inspection/DescriptorState.cpp:210-213 | Compatible up to a set number means: equal push ranges, both lists reach that far, and the same layout for every set up to it |
| `DescriptorState.DrawMissesHistory` | src/inspection/DescriptorState.cpp:300-317 | A slot is reported as incompatible exactly if a bind still stands for it under a layout that differs from the draw's up to it |
| `DescriptorState.CompatibleChain` | src/inspection/DescriptorState.cpp:210-213 | Compatibility up to a set number is symmetric and transitive |
| `DescriptorState.Governor` | src/inspection/DescriptorState.cpp:264-283 | A touched slot holds the layout of its last governing bind or one compatible with it |
| `DescriptorState.DescriptorState.BindSlot` | src/inspection/DescriptorState.cpp:262-284 | One elementary bind in place: the slots become those of the history with that bind appended |
| `DescriptorState.DescriptorState.Record` | src/inspection/DescriptorState.cpp:214-288 | A command is applied to all its slots or refused as a whole; a refusal is permanent and leaves the first reason that applies |
| `DescriptorState.DescriptorState.AtDraw` | src/inspection/DescriptorState.cpp:289-359 | Per set of the draw's layout: recorded with this binding exactly if a bind still stands for the slot with equal push ranges and set layouts up to it, incompatible exactly if one stands with others, never bound or not applicable exactly if there was none; complete exactly if every row is recorded or not applicable |
| `DescriptorState.Resolve` | src/inspection/DescriptorState.cpp:217-261 | A command is accepted exactly within the qualified bounds, with each dynamic offset used once and in order; otherwise the reason names its first defect |
| `DescriptorState.ReadOffsets` | src/inspection/DescriptorState.cpp:236-261 | Each set takes as many dynamic offsets as its layout has dynamic descriptors |
| `DescriptorOffsets.EachTakesOne` | src/inspection/DescriptorState.cpp:236-248 | Each element of a dynamic binding has its own place among the offsets, after those of earlier bindings and elements |
| `DescriptorOffsets.EachIsTaken` | src/inspection/DescriptorState.cpp:236-248 | ... and each place belongs to such an element |
| `DescriptorOffsets.AllAreUsed` | src/inspection/DescriptorState.cpp:236-261 | The sets of an accepted command take the listed offsets one by one, in order, and use all of them |
| `DescriptorPools.Allocate` | src/inspection/DescriptorState.cpp:137-208 | Allocations are accepted exactly when, for every pool, their number and their descriptors of each type fit what it declares, and the accounts end up as those totals |
| `DescriptorPools.VerdictIgnoresOrder` | src/inspection/DescriptorState.cpp:175-206 | The verdict is the same for every order of the allocations |
| `DescriptorPools.DemandIgnoresOrder` | src/inspection/DescriptorState.cpp:175-206 | So are the totals demanded of each pool and type |
| `DescriptorPools.AllocateOne` | src/inspection/DescriptorState.cpp:175-206 | One more allocation is accepted exactly when all so far still respect every pool |
| `DescriptorPools.Consume` | src/inspection/DescriptorState.cpp:190-198 | Charging binding by binding amounts to the total per type |
| `DescriptorPools.Declare` | src/inspection/DescriptorState.cpp:161-171 | Sizes of one type add up within 32 bits; any overflow is refused |
| `PoolDemand.VerdictIsCount` | src/inspection/DescriptorState.cpp:161-206 | The verdict counted thing by thing: per pool no more sets than declared, and per type no more single descriptors than declared |
| `PoolDemand.TotalIsUnits` | src/inspection/DescriptorState.cpp:161-171 | The capacity of a type is the number of its single descriptors |
| `PoolDemand.DemandIsUnits` | src/inspection/DescriptorState.cpp:187-198 | What is demanded of a pool and a type is the number of single descriptors of the allocated sets |
| `DrawState.RecordingDraws` | src/inspection/DrawState.cpp:384-657 | A recording is accepted exactly when it is legal, and each draw reports for each field what the whole command history says: the latest setter since the last clearing bind, and per viewport or scissor index the latest write since the last reset |
| `DrawState.Recorder.Bind` | src/inspection/DrawState.cpp:479-502 | A pipeline bind keeps exactly the settings the new pipeline leaves in force |
| `DrawState.Recorder.WriteScalar` | src/inspection/DrawState.cpp:531-550 | A setter becomes the setting in force |
| `DrawState.Recorder.WriteArray` | src/inspection/DrawState.cpp:551-569 | A write covers its range; a change of method or a count form resets the rest |
| `DrawState.Recorder.RowAt` | src/inspection/DrawState.cpp:586-626 | The reported row of a field is the one the history determines |
| `DrawState.Recorder.ArrayAt` | src/inspection/DrawState.cpp:597-612 | An array is available exactly if every index below the count is written by the matching method |
| `DrawState.Recorder.Labels` | src/inspection/DrawState.cpp:401-416 | The label stack in place is the nesting of label commands, at most 16 deep |
| `DrawState.Recorder.Bindings` | src/inspection/DrawState.cpp:450-530 | Pass, pipeline and index buffer in force are those of the history |
| `DrawState.Recorder.Step` | src/inspection/DrawState.cpp:384-655 | One command is refused exactly if it is not allowed after the ones before it, else it is applied to everything it concerns |
| `DrawReading.DrawsLieInPasses` | src/inspection/DrawState.cpp:450-478 | In a legal recording every draw lies between the begin and the end of one pass, with no other pass command in between |
| `DrawReading.PassIsOpen` | src/inspection/DrawState.cpp:456-478 | The pass in force is that of the latest pass command, if it was a begin |
| `DrawReading.PipelineIsLatest` | src/inspection/DrawState.cpp:479-502 | The pipeline in force is that of the latest bind; a bind of an unqualified pipeline leaves none, and none is in force before the first bind |
| `DrawScenarios.StaticField` | src/inspection/DrawState.cpp:613-622 | A static field is reported as set too late exactly if a command sets it after the bind in force, and otherwise with its static value |
| `DrawScenarios.ClearedIsMissing` | src/inspection/DrawState.cpp:484-499 | A dynamic field that was never set, or not since a bind that makes it static or binds nothing known, is missing |
| `DrawScenarios.LatestScalar` | src/inspection/DrawState.cpp:531-550 | A dynamic scalar is reported with the latest setter, unless a later bind voids it |
| `DrawScenarios.RegularVoidsCounts` | src/inspection/DrawState.cpp:488-494 | Binding the regular form of an array voids what a WithCount setter wrote |
| `DrawScenarios.CountSetterIsWhole` | src/inspection/DrawState.cpp:551-569 | A WithCount setter replaces the whole array: exactly its values are reported, and only to a pipeline of that form |
| `DrawScenarios.RegularNeedsRegular` | src/inspection/DrawState.cpp:597-601 | A write of the regular form is not reported to a pipeline of the WithCount form |
| `DrawScenarios.RegularTakesItsCount` | src/inspection/DrawState.cpp:597-612 | A pipeline of the regular form reports as many elements of the latest write as it declares, and nothing if it declares none |
| `DrawScenarios.LegalShape` | src/inspection/DrawState.cpp:389-478 | A legal recording is one begin and one end with qualified commands between, its labels and passes ended, indexed draws behind an index buffer, readbacks outside of passes |
| `DrawReading.DrawEventsDistinct` | src/inspection/DrawState.cpp:384-388 | Draws of one recording carry distinct events |
| `DrawReading.ScalarUnique` | src/inspection/DrawState.cpp:531-550 | At most one setter is in force |
| `DrawReading.IndexUnique` | src/inspection/DrawState.cpp:551-569 | ... and at most one write per array index |
| `DrawReading.LabelBegins` | src/inspection/DrawState.cpp:401-416 | Declarative label nesting after a begin |
| `DrawReading.LabelEnds` | src/inspection/DrawState.cpp:401-416 | ... and after an end |
| `DrawExecutions.InspectDrawExecutions` | src/inspection/DrawState.cpp:666-818 | A frame is accepted exactly when it is legal; then the executions are the in-order flattening of calls, submit infos, buffers and draws, each with the latest recording since the last reset; a refused frame has none |
| `DrawInspection.Inspect` | src/inspection/DrawState.cpp:666-818 | The whole inspection: each recording is read for its draws or reported; every execution is a draw of the named recording with the state that its own commands give; no two executions have the same selection key |
| `DrawInspection.ReadRecordings` | src/inspection/DrawState.cpp:676-684 | Exactly the legal recordings have draws, the others are reported |
| `DrawInspection.ReadDrawsAreDistinct` | src/inspection/DrawState.cpp:384-388 | Draws read this way carry distinct events per recording |
| `DrawExecutions.ExecutionsUseLatest` | src/inspection/DrawState.cpp:694-707 | Each execution is a draw of the recording its buffer held at the submission: recorded by an earlier call, with no recording or reset of the buffer in between |
| `DrawExecutions.ActiveIff` | src/inspection/DrawState.cpp:694-707 | A buffer holds a recording exactly if that is its latest since its last reset |
| `DrawExecutions.LegalIff` | src/inspection/DrawState.cpp:692-809 | The incremental tables exist exactly for legal frames, one-time recordings submitted at most once per generation included |
| `DrawExecutions.TablesAre` | src/inspection/DrawState.cpp:685-796 | Active recordings, generations and queue labels are what the frame's history says |
| `DrawExecutions.TallyIs` | src/inspection/DrawState.cpp:734-778 | The accounts of a list of submitted buffers are its flattening and the two sets |
| `DrawExecutions.SelectionsUnique` | src/inspection/DrawState.cpp:759-777 | No two executions of a frame have the same selection key |
| `DrawExecutions.SlotsAre` | src/inspection/DrawState.cpp:726-780 | Submission, info and buffer indices enumerate the submitted buffers in order |
| `FrameHistory.ExecutionIs` | src/inspection/DrawState.cpp:734-777 | Every execution of an accepted frame, field by field: the number of its submission, its place there, the buffer, the recording put into it last, the draw, and the labels then open on the queue |
| `FrameHistory.EachDrawExecutes` | src/inspection/DrawState.cpp:758-777 | Every draw of every submitted recording is executed, at its place |
| `FrameHistory.InSubmissionOrder` | src/inspection/DrawState.cpp:726-780 | Executions come in the order of submissions, infos, buffers and draws |
| `FrameHistory.SubmittedIsQualified` | src/inspection/DrawState.cpp:735-757 | Every buffer submitted in an accepted frame is a primary one and holds a begun recording of an earlier call |
| `FrameHistory.RerecordedBetween` | src/inspection/DrawState.cpp:742-747 | Between two submissions of a one-time buffer lies a new recording of it |
| `FrameHistory.SameGeneration` | src/inspection/DrawState.cpp:703-703 | A buffer has the same generation at two points exactly if it was not recorded between them |
| `FrameHistory.LabelsAreOpen` | src/inspection/DrawState.cpp:708-725 | The labels of a queue are those begun on it and not yet ended, outermost first |
| `FrameHistory.SubmissionsAreCounted` | src/inspection/DrawState.cpp:780-780 | The number of a submission is the number of submissions before it |
| `DrawExecutions.FrameReader.ReadFrame` | src/inspection/DrawState.cpp:692-796 | The loop stops at the first call that is out of order, and not before |
| `DrawExecutions.FrameReader.SubmitBuffer` | src/inspection/DrawState.cpp:735-778 | One buffer: refused without a recording or when a one-time generation repeats, else its draws are appended |
| `DrawExecutions.FrameReader.SubmitCall` | src/inspection/DrawState.cpp:726-780 | One submission in nested loops extends the tables as the history does |
| `DrawExecutions.FrameReader.Bookkeep` | src/inspection/DrawState.cpp:694-725 | Recordings, resets and queue labels |
| `Documents.Parse` | src/inspection/CppEvidence.cpp:50-158 | A text is accepted exactly when it falls into lexemes and its tokens are balanced within the limits, and then the tokens are those that the text determines |
| `Documents.SplicedIff` | src/inspection/CppEvidence.cpp:57-58 | A text counts as spliced exactly if it contains a backslash before a line break of either form |
| `Documents.TokensAreSlices` | src/inspection/CppEvidence.cpp:65-137 | Every token is a nonempty slice whose line is one plus the line breaks before its start; tokens are ordered and disjoint |
| `Documents.TokenIsLexeme` | src/inspection/CppEvidence.cpp:65-137 | A token is the grammar's lexeme at its place, and the bracket structure sees its first character |
| `Documents.Covered` | src/inspection/CppEvidence.cpp:65-137 | Every character lies in one token, in white space or in a comment |
| `Documents.PairsNest` | src/inspection/CppEvidence.cpp:138-156 | `pair` is an involution on bracket tokens, partners are opposite brackets of one kind, and spans nest |
| `Documents.BracketsArePaired` | src/inspection/CppEvidence.cpp:138-157 | Exactly the bracket tokens have partners |
| `Documents.BraceIsInnermost` | src/inspection/CppEvidence.cpp:142-154 | `brace` is the innermost open brace around the token |
| `Documents.Document.Read` | src/inspection/CppEvidence.cpp:65-158 | The loop ends with the state of the whole text, or the text has none |
| `Documents.Document.Cut` | src/inspection/CppEvidence.cpp:66-134 | The lexeme at the cursor is the grammar's |
| `Documents.Document.Quoted` | src/inspection/CppEvidence.cpp:106-122 | Quoted literals end at the first unescaped quote, lines counted across escapes |
| `Documents.Document.BlockComment` | src/inspection/CppEvidence.cpp:76-83 | Comments end at their first terminator |
| `Documents.Document.PushDirective` | src/inspection/CppEvidence.cpp:84-105 | A directive is refused exactly when the conditions cannot take it |
| `Documents.Document.Push` | src/inspection/CppEvidence.cpp:135-155 | A token is refused exactly when the bracket structure cannot take it |
| `Lexemes.LexingUnique` | src/inspection/CppEvidence.cpp:65-137 | There is only one way to cut a text into lexemes |
| `Lexemes.LexemeAt` | src/inspection/CppEvidence.cpp:66-134 | The lexeme at a place starts there, ends later and within the text |
| `Lexemes.CommentEnd` | src/inspection/CppEvidence.cpp:76-83 | The first terminator, and None exactly without one |
| `Lexemes.QuoteEndsLiteral` | src/inspection/CppEvidence.cpp:106-122 | A literal ends behind the first quote of its kind that is not behind an odd row of backslashes, unless an unescaped line break or the end of the text comes first; then it has no end |
| `Lexemes.QuoteRoundTrips` | src/inspection/CppEvidence.cpp:106-122 | Any text without line breaks, written with a backslash before each quote and backslash, is read as one literal to its end |
| `SourcePrinter.AtomIsLexed` | src/inspection/CppEvidence.cpp:65-137 | A written word, literal, mark, comment or directive is read as what it is, up to its end, wherever it stands |
| `SourcePrinter.DirectiveIsRead` | src/inspection/CppEvidence.cpp:86-103 | A directive is read by its keyword, whatever blanks precede it and whatever follows |
| `SourcePrinter.WrittenIsRead` | src/inspection/CppEvidence.cpp:65-137 | A text written token by token has exactly these tokens |
| `SourceNesting.NestsPass` | src/inspection/CppEvidence.cpp:138-156 | A nested group of brackets leaves the bracket stack as it found it |
| `SourceNesting.ConditionsAreCounted` | src/inspection/CppEvidence.cpp:94-103 | Preprocessor conditions are accepted exactly while they are counted in balance, and the count is the balance |
| `SourceNesting.WrittenIsAccepted` | src/inspection/CppEvidence.cpp:50-158 | Every text written with nested brackets and balanced conditions within the limits is accepted |
| `Brackets.CloseToken` | src/inspection/CppEvidence.cpp:144-155 | Closing with the right kind keeps the matching and the enclosing braces |
| `Brackets.AddToken` | src/inspection/CppEvidence.cpp:136-143 | Any other token keeps them |
| `Brackets.OpenOutside` | src/inspection/CppEvidence.cpp:138-156 | No matched pair reaches around an open bracket |
| `Arguments.Arguments` | src/inspection/CppEvidence.cpp:180-198 | The splitter succeeds exactly when no argument before a comma is empty and there are at most 64, and cuts at exactly the top-level commas |
| `Arguments.DocumentArguments` | src/inspection/CppEvidence.cpp:180-198 | At any token of a parsed document: an opening bracket is split as above, a closing one has no arguments, any other token or place is refused |
| `Arguments.OpeningIsPaired` | src/inspection/CppEvidence.cpp:181-183 | In a parsed document a paired token is an opening bracket exactly if its partner lies behind it |
| `Arguments.HeadIsToken` | src/inspection/CppEvidence.cpp:187-191 | A token that starts with a bracket or a comma is just that character |
| `Arguments.RangesInOrder` | src/inspection/CppEvidence.cpp:180-198 | Ranges are nonempty, ordered, inside the bracket, with one comma between neighbours |
| `Arguments.Rebuilds` | src/inspection/CppEvidence.cpp:180-198 | Every inner token is a separator or lies in a range, never both: joined by commas the ranges rebuild the interior |
| `Arguments.BracketsStayWhole` | src/inspection/CppEvidence.cpp:191-192 | Every inner bracket lies with its partner in one range, so the skip misses no separator |
| `Arguments.SkipBracket` | src/inspection/CppEvidence.cpp:191-192 | The skip lands inside the bracket and passes no top-level comma |
| `Integers.IntegerReadsPrinted` | src/inspection/CppEvidence.cpp:202-217 | A literal is read as n exactly when it is the printed form of a 64-bit n with one of the accepted suffixes |
| `Integers.SymbolIsNumbered` | src/inspection/CppEvidence.cpp:218-225 | Object symbols are exactly a kind's name with a printed 64-bit number |
| `Integers.CanonicalIsPrinted` | src/inspection/CppEvidence.cpp:211-215 | A canonical decimal is the printed form of its value |
| `Sha256.Hasher.Finish` | src/core/Hash.cpp:33-59 | The result is the FIPS 180-4 digest of everything fed, in lower-case hexadecimal |
| `Sha256.Hasher.Update` | src/core/Hash.cpp:19-31 | Feeding appends to the hashed message, in any chunking; refused exactly if the bit length would not fit 64 bits |
| `Sha256.Hasher.Transform` | src/core/Hash.cpp:62-106 | The state becomes the standard's compression of the block |
| `Sha256.Hasher.Words` | src/core/Hash.cpp:73-85 | The in-place schedule is the standard's |
| `Sha256.Hasher.PutLength` | src/core/Hash.cpp:45-48 | The bit length in the last eight bytes, most significant first |
| `Sha256.Padded` | src/core/Hash.cpp:33-44 | Zeros written in one or in two stretches are the padding of section 5.1.1 |
| `Sha256.PadIsInjective` | src/core/Hash.cpp:33-49 | Two messages of representable length with the same padding are the same |
| `Sha256.PadEndsWithLength` | src/core/Hash.cpp:45-48 | A padded message begins with the message and ends with its length in bits |
| `Sha256.LengthRoundTrips` | src/core/Hash.cpp:45-48 | A length that fits is encoded without loss |
| `Sha256.ChainPrefix` | src/core/Hash.cpp:24-30 | Blocks already absorbed do not depend on what follows |
| `Sha256.FullBlock` | src/core/Hash.cpp:24-30 | A full buffer absorbed is the message one block further |
| `Sha256.ZeroBytes` | src/core/Hash.cpp:33-44 | Padding completes the block |
| `Sha256.HashDescriptor` | src/core/Hash.cpp:159-194 | Whatever the short and interrupted reads, a digest is that of the whole file, each byte once and in order; a failed read, a stop before or after the last read, or a changed file gives none |
| `Sha256Example.DigestOfAbc` | tests/HashCheck.cpp:15-16 | The digest of "abc" is the published one, computed from the definitions |
| `Sha256TwoBlocks.DigestOfTwoBlocks` | tests/HashCheck.cpp:17-19 | So is that of the message whose padding crosses a block |
| `ProfileMarkers.ForestRoundTrips` | src/inspection/ProfileMarkers.cpp:36-69 | Reading the printed outline of any forest of legal names gives each node its exact root path |
| `ProfileMarkers.OutlineFollows` | src/inspection/ProfileMarkers.cpp:44-55 | Indentation determines the hierarchy |
| `ProfileMarkers.ParsePrints` | src/inspection/ProfileMarkers.cpp:44-53 | Printing and reading one marker |
| `ProfileMarkers.PrintParses` | src/inspection/ProfileMarkers.cpp:44-53 | ... and only printed markers are read |
| `ProfileMarkers.JoinInjective` | src/inspection/ProfileMarkers.cpp:56-63 | Joining legal names with slashes loses nothing |
| `ProfileMarkers.Correlate` | src/inspection/ProfileMarkers.cpp:9-96 | Available exactly when both exports are well formed and every event path occurs among the regimes; each row then carries its path, the numbers of event and regime rows with that path, and a regime row only if both are one |
| `ProfileMarkers.RegimeRowsDistinct` | src/inspection/ProfileMarkers.cpp:80-94 | Associated event rows never share a regime row and carry its path |
| `ProfileMarkers.ParentRow` | src/inspection/ProfileMarkers.cpp:44-55 | The path of an accepted row is that of its parent, the latest row one level higher with no higher row in between, and its own name |
| `ProfileMarkers.NextRow` | src/inspection/ProfileMarkers.cpp:39-63 | A row is refused exactly if it is the printed form of no legal marker at most one level below the row before it, or if its path is too long |
| `ProfileMarkers.RowsAreCounted` | src/inspection/ProfileMarkers.cpp:64-80 | Both counts are numbers of rows with that path |
| `ProfileMarkers.ReadHierarchy` | src/inspection/ProfileMarkers.cpp:36-69 | The stack loop computes the path of every row or refuses at the first illegal one |
| `ProfileMarkers.IndexRegimes` | src/inspection/ProfileMarkers.cpp:26-35 | Count and first row of every regime path, no earlier row having it |
| `ProfileMarkers.Flatten` | src/inspection/ProfileMarkers.cpp:56-63 | The joined path, refused exactly above the byte limit |
| `Supervisor.Supervise` | src/core/Process.cpp:336-422 | For every environment whose clock never goes back and passes every time, standing still between turns included, the loop ends within timeout, grace and kill budget; signals only while the target is held, at most one TERM then at most one KILL; never both timed out and cancelled, each only for its cause; an exit is reported exactly if it was seen; without a reported failure the program was started, every sweep since cleaning began was clean and every signal arrived; cleanup is confirmed only with no child left, and otherwise the budget is over |
| `Supervisor.Supervision.Turn` | src/core/Process.cpp:336-422 | One turn keeps the signal log, the clock and the report in order |
| `Supervisor.Supervision.Look` | src/core/Process.cpp:338-363 | Losing the target counts as reaped; a launch that failed, unreadable word of it or a broken pipe is a failure in the report, the first failure stays; the pipe stays open only while nothing was read from it |
| `Supervisor.Supervision.Decide` | src/core/Process.cpp:364-381 | Cleaning starts on exit or failure, else on a request, else on timeout |
| `Supervisor.Supervision.Signal` | src/core/Process.cpp:383-391 | A held target gets TERM before the grace period is over and KILL after it, each once; no signal goes to a reaped target, and a signal that fails is reported |
| `Supervisor.Supervision.Clean` | src/core/Process.cpp:392-417 | The target is reaped only after a clean sweep with nothing alive; confirmation needs the kernel's answer that no child is left; the budget ends the loop; failures are reported in the order of the code |
| `ChildList.ScanChildren` | src/core/Process.cpp:238-281 | The sweep is valid exactly if no read fails, the whole text is a list wherever the reads cut it, and no child's sweep fails; then all listed children are swept, and otherwise only listed ones |
| `ChildList.ChildrenRoundTrip` | src/core/Process.cpp:260-278 | The printed list of any process numbers that fit the type is read back exactly if none exceeds the guard, and is an error otherwise |
| `ChildList.WrittenIsListed` | src/core/Process.cpp:260-278 | Numbers written with any spaces and line breaks between them and any leading zeros are the list |
| `ChildList.StrangeIsRefused` | src/core/Process.cpp:270-275 | Any other character makes the list an error |
| `ChildList.CloseExcept` | src/core/Process.cpp:118-128 | Exactly the descriptors from 3 on that are not kept are closed, unless a call fails, which is reported; kept ones lie above the standard ones, as src/core/Process.cpp:470-480 arranges |
| `Timing.CollectTiming` | src/fixture/Fixture.cpp:2107-2147 | Accepted exactly when draws lie in order inside the scene; each duration is the difference of its scene offsets |
| `Timing.AcceptedIsScene` | src/fixture/Fixture.cpp:2107-2147 | Readings are accepted exactly if they are what the counter shows of some scene shorter than one turn, with its draws one after the other inside it |
| `Timing.OffsetsAreTrue` | src/fixture/Fixture.cpp:2119-2131 | The offsets and durations computed from the readings of a scene are the true ones, however the counter wrapped |
| `Timing.TicksAddUp` | src/fixture/Fixture.cpp:2127-2146 | Draws do not overlap; their ticks and the gaps between them add up to the last offset, so the ticks come to at most the scene's |
| `Timing.WrapIsHarmless` | src/fixture/Fixture.cpp:2115-2134 | For every width, two readings less than one turn apart differ by the elapsed time |
| `Timing.MaskedIsModulo` | src/fixture/Fixture.cpp:2115-2134 | 64-bit subtraction and masking is subtraction modulo the counter's range |
| `Timing.OffsetsSubtract` | src/fixture/Fixture.cpp:2129-2134 | Two offsets from one start determine the time between them |
| `Ppm.RoundTrip` | src/core/Image.cpp:123-147 | Decoding a printed image gives its dimensions and pixels back, whatever bytes the pixels are |
| `Ppm.WriteThenRead` | src/fixture/Fixture.cpp:2281-2299 | Writing an RGBA or BGRA readback and decoding the file gives its size, and for every pixel its red, green and blue |
| `Ppm.WriteImage` | src/fixture/Fixture.cpp:2281-2299 | The nested loops print the header and every pixel's colours in row order |
| `Ppm.ColoursAre` | src/fixture/Fixture.cpp:2288-2295 | Each printed colour is the red, green and blue of its pixel, taken in the order of the format |
| `Ppm.DecodePpm` | src/core/Image.cpp:123-147 | The stream reader computes the decoding of the bytes |
| `PpmGrammar.DecodeIs` | src/core/Image.cpp:123-147 | A file is decoded to an image exactly if four words P6, width, height and 255 stand behind gaps of white space and whole comments within the limits, followed by one white space and the pixels |
| `PpmGrammar.TokenIs` | src/core/Image.cpp:15-50 | The next token is the one word behind the longest gap, within the three limits |
| `PpmGrammar.SkipIs` | src/core/Image.cpp:22-39 | Skipping ends behind the longest gap of white space and whole comments |
| `PpmGrammar.DimensionIs` | src/core/Image.cpp:52-59 | A dimension is a number from 1 to 4096 in decimal, with any leading zeros |
| `Ppm.DecodedShape` | src/core/Image.cpp:139-146 | Nothing but the announced number of pixel bytes is accepted, and exactly those are returned |
| `Ppm.ReadToken` | src/core/Image.cpp:15-50 | Comments and white space are skipped, a token read, within the three limits |
| `Ppm.ReadDimension` | src/core/Image.cpp:52-59 | A decimal between 1 and 4096 |
| `Ppm.WordIsToken` | src/core/Image.cpp:15-50 | A word between white spaces is the token from its leading white space on |

## Left out

- Store locking: `deletion_mutex` and `mutex` appear as the granularity of events; one call of a class method runs its
  sections without a concurrent call in between, interleavings are those of `ArtifactWorld`.
- Whether the environment is calm, so that nothing fails and nothing is cut, is fixed for the life of a store object or of
  one import; an environment that is calm for a while is not modelled.
- Creation of the store marker: runs start from an initialised root. A crash while the first marker is written leaves a
  temporary that the next opening refuses (src/artifacts/Artifacts.cpp:818-851).
- Unchecked corruption: a disk that no run produces may be refused by recovery; which partial cleanup such a refused
  recovery has already done is not modelled.
- The order in which recovery visits identities is free in `ArtifactWorld`; `ArtifactRestart` fixes it per directory.
- Writers are taken not to change files once a publication has installed its final manifest
  (include/ngm/Artifacts.hpp:155-156). Before that, outside writes may replace the files at any time.
- Metadata temporaries: a failed atomic write keeps its temporary, where the code also tries to unlink it.
- ArtifactStore.Store.UsageLocked: only the total, not its split into staged, completed, pinned and leased bytes; sizes
  are given functions of what lies in a directory, that of temporaries of their number; byte accounts are unbounded, so
  the overflow check of `add_bytes` never fires. The 4 MiB metadata limit is absent.
- ArtifactStore.Store.constructor: the marker, the lock and the four directories are taken to exist.
- The name under which recovery retains an unreadable manifest is fixed instead of unique.
- Identities are numbers: fixed-length lower-case hexadecimal sorts like its value. Times are not negative.
- A manifest that is staging, quarantined and has no reason passes the manifest check and would then stop recovery; no
  run writes one.
- Reading files, fingerprints, snapshots and `inspect` of the store.
- Within a bundle directory the verdict of the walk is one flag; the walk itself is modelled in `CopyTree`. Path
  components are checked for length and emptiness only; symbolic links, hard links and races with the source tree are
  failures of an operation.
- ArtifactStore.Store.Dispose: retention's next step after a claim (src/artifacts/Artifacts.cpp:1049-1068). Whether the
  record of a claim whose rename failed is withdrawn is left open, because the same failure code stands for a failed
  rename and for a failed sync before it.
- Decoding of Vulkan operands, pipelines and layouts: commands, pipelines and layouts are already decoded records.
- DrawState.RecordingDraws: the 16 MiB bound on the printed draws (src/inspection/DrawState.cpp:649-651).
- DrawExecutions.InspectDrawExecutions: the 16 MiB bounds on the printed executions (src/inspection/DrawState.cpp:773-776
  and 815-816), and the evidence that comes with them.
- DrawInspection.Inspect: the same bounds; parsing of the sources, which gives the recordings and the frame.
- Push constants, value descriptors, shader reflection and evidence strings.
- Descriptor writes and their execution-time contents.
- Documents.Parse: the checks of the source path and of UTF-8, and the content hash (src/inspection/CppEvidence.cpp:52-61).
- `replay_value` and the lists of known names.
- SHA-256 of a whole file by path. The file's status before and after hashing is one flag.
- Marker durations: finiteness is a flag per row, header shape a flag per table.
- ChildList.ScanChildren: what the sweep of one child does is an answer of the environment, as are the sweep's results in
  the supervisor; forking, executing, descriptor setup and the parent's loop are absent.
- Durations in nanoseconds: floating point. The period check before reading the timestamps is absent.
- BMP decoding, previews and image comparison; stream errors while an image is written or read.

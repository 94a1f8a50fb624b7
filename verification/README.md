# Verified model of the mirror operator

A Dafny model of the parts of the operator that decide what is mirrored, what is
advertised and what is deleted, with proofs of what those parts keep in every
interleaving. `dafny verify dfyconfig.toml` checks the whole project.

## What is modelled

**The manager** (`Manager.dfy`, `Resolve.dfy`, `ResolveSteps.dfy`,
`MirrorManager.dfy`). The working set of the mirror manager is a record
`Memory`. Every region that the code carries out under its lock is a function on it: applying worker reports,
cleaning up finished pods, applying a drift check, force-resync, recollect, the
end of a resolve, the tick that sweeps orphans and retries failures, dispatch,
dropping ImageSets, flushing and loading. The class `MirrorManager` carries the
same regions out in place, with the loops over maps in arbitrary order, and each
method is proved to do what the function says. `Runs.dfy` puts the regions
together into runs in which worker reports and drift results land anywhere,
including inside a resolve that has released the lock.

What each region does to an entry, both ways and field by field, is in
`EntryOutcomes.dfy`. What the runs keep is in `Lifecycle.dfy`, `Ownership.dfy`,
`Earned.dfy`, `RunProperties.dfy`, `FlagHonesty.dfy` and `Persistence.dfy`;
`Batches.dfy` is about dispatch. `ReAdd.dfy` and `EarlyRestart.dfy`, with the building blocks in
`SingleImage.dfy`, hold runs that show where a natural claim stops being true.

**The catalog filter** (`Channels.dfy`, `RepairedHeads.dfy`, `CatalogFilter.dfy`,
`FilterOrder.dfy`, `VersionRange.dfy`, `Requirements.dfy`, `Selection.dfy`).
Choosing channel heads, repairing the upgrade graph over dropped entries, merging
heads, the breadth-first dependency closure and the filtered catalog; and, stated
on the catalogs alone, which packages, entries and bundles it has and why.

**The controllers** (`CatalogGate.dfy`, `CatalogSafety.dfy`,
`AdvertisedCatalog.dfy`, `FullCatalog.dfy`, `Cleanup.dfy`). The gate in front of
catalog builds and the theorem that spans manager, ConfigMaps, gate and filter;
the partition of images into those a cleanup Job may delete, the Job, and the
registry it works on.

**Smaller algorithms** (`ShortestPath.dfy`, `ChartRefs.dfy`). Breadth-first
shortest upgrade path on arrays; printing and parsing chart references.

Six claims that read as if they were true are not, and are settled exactly:

- The orphan sweep leaves the fast-path flag of a destination set. `ReAdd`
  builds a run in which a destination becomes Mirrored although nothing earned
  it; `FlagHonesty.HonestIff` says exactly which runs keep the flags honest, and
  `Earned.RunEarnedIff` exactly in which everything Mirrored is earned.
- Annotations are patched before the entries they describe are stored.
  `EarlyRestart` builds a run with a restart in between, after which the gate
  opens for a catalog with an image that was never mirrored;
  `CatalogSafety.RunAgreesIff` says exactly which runs stay in agreement.
- A catalog with `full` set is resolved by its package list but built without
  it. `FullCatalog` builds a run in which the job advertises an image that was
  never mirrored; `AdvertisedCatalog.JobWithinResolveIff` is the exact condition.
- A Pending Job can be deleted: in a rebuild round with a catalog listed twice,
  the later entry deletes the Job just created for the earlier one.
  `CatalogGate.DuplicateCatalogDeletesPending` is such a round,
  `CatalogGate.ReconcileDeletesActiveIff` the exact condition.
- Filtering by version range can leave several heads.
  `VersionRange.RangeLeavesTwoHeads` gives catalogs and a range,
  `VersionRange.RangeSingleHeadIff` the exact condition.
- The live check in front of a deletion overlooks references that carry a tag
  and a digest. `Cleanup.TaggedDigestTakesLive` gives the references,
  `Cleanup.DeleteKeepsIff` and `Cleanup.CleanupKeepsLiveIff` the exact condition.

The code and its comments disagree in these places, and the model follows the
code: `highestVersionBundle` breaks ties between equal versions by list order
and uses the name only if no version parses; the State that
`mergeIntoStateWithSig` chooses is discarded for a destination that is already
live; `ParseHelmChartSource` accepts references that `HelmChartSource` never
produces (`ChartRefs.ReprintsIff`).

## Model

| member | source | states |
|---|---|---|
| `AdvertisedCatalog.ReconcileCatalogs` | internal/controller/imageset_controller.go:225-453 | After any run of manager, spec edits, flushes and safe restarts, every image that a job created by this reconcile filters out of the catalog it pulls is an entry of the ConfigMap that was read, Mirrored or permanently failed, unless Full overrides a package list that leaves out images |
| `AdvertisedCatalog.CreatedIsSafe` | internal/controller/imageset_controller.go:394-440 | The same for one created job and one advertised image |
| `AdvertisedCatalog.AdvertisedImages` | pkg/mirror/catalog/resolver.go:1367-1388 | Filtering then extracting gives the same set of images whatever order packages and maps are visited in, and fails exactly when a bundle picked by name is missing |
| `AdvertisedCatalog.JobWithinResolveIff` | internal/controller/imageset_controller.go:366-372 | The job advertises only what the resolver collected exactly if Full is unset, or there is no package list, or every image of a bundle the list leaves out is also used by a bundle it keeps |
| `AdvertisedCatalog.AdvertisedIff` | pkg/mirror/catalog/resolver.go:1277-1282 | A filtered catalog advertises exactly the images that an allowed bundle of the unfiltered one uses |
| `FullCatalog.FullRunAdvertisesUnmirrored` | internal/controller/imageset_controller.go:366-372 | There are runs without any restart in which the gate opens for an entry with Full and a package list, and the job advertises an image the state does not hold |
| `FullCatalog.FullAdvertisesMore` | internal/controller/imageset_controller.go:366-372 | The catalog of that run: the list yields one image, Full the other one as well |
| `AdvertisedCatalog.NotAdvertised` | pkg/mirror/catalog/resolver.go:1080-1213 | An image that no selected bundle of some closed set of packages uses is not advertised |
| `CatalogSafety.CatalogNeverAdvertisesUnmirrored` | internal/controller/imageset_controller.go:494-551 | In every state of every run whose restarts are safe, if the stored ConfigMap lets the gate open, everything the catalog at the stored digest yields for an operator entry is stored and settled |
| `CatalogSafety.RunAgreesIff` | pkg/mirror/manager/manager_resolve.go:268-283 | Memory, annotations and ConfigMaps agree in all states of a run exactly if every restart in it loads ConfigMaps that are whole at the digests the annotations record |
| `CatalogSafety.RestartKeepsIff` | pkg/mirror/manager/manager_resolve.go:1410-1456 | The same for a single restart |
| `CatalogSafety.FlushedRestartSafe` | pkg/mirror/manager/manager.go:1684-1726 | A restart is safe if every ConfigMap was written since its annotations were last patched |
| `EarlyRestart.RestartAdvertisesUnmirrored` | pkg/mirror/manager/manager_resolve.go:268-283 | There are runs in which a restart falls between patch and flush, the next resolve hits at the new digest, and the gate opens although a new image of that digest is not in the state |
| `CatalogSafety.RoundKeepsWhole` | pkg/mirror/manager/manager_resolve.go:671-779 | A resolve round with any mixture of hits, failed probes and fresh catalogs keeps this: an operator entry with any image has every image its recorded digest yields |
| `CatalogSafety.HitKeepsWholeIff` | pkg/mirror/manager/manager_resolve.go:697-751 | A cache hit or failed probe neither repairs nor breaks the agreement of entries and annotation |
| `CatalogSafety.WorldStep` | pkg/mirror/manager/manager.go:1329-1376 | Every region, round, partial flush and safe restart keeps memory, annotations and stored ConfigMaps in agreement for every ImageSet, also when spec entries were edited |
| `CatalogSafety.AnnotationOf` | pkg/mirror/manager/manager_resolve.go:955-979 | After a round, the annotation of a spec entry is its fresh digest if it was resolved, and its old one otherwise |
| `CatalogGate.CacheRoundTrip` | pkg/mirror/manager/manager_resolve.go:945-953 | Reading a cache token gives back the digest that was written, and only tokens that print back are read |
| `CatalogGate.LoadMirrorSnapshot` | internal/controller/imageset_controller.go:494-551 | The state counts as complete exactly if nothing is unfinished, the spec is observed and every operator entry of the spec was seen (or a legacy entry without signature) |
| `CatalogGate.ScanEntries` | internal/controller/imageset_controller.go:512-530 | The scan counts the unfinished entries and collects the signatures seen, in any order |
| `CatalogGate.CatalogJobs.Reconcile` | internal/controller/imageset_controller.go:225-453 | Nothing is created or deleted from incomplete state; where nothing stands in the way exactly the due jobs are created; a job pulls the digest recorded with the entries; terminal jobs are deleted in rebuild rounds only; an active job is deleted exactly if its catalog, terminal before, is listed again in a rebuild round |
| `CatalogGate.CatalogJobs.RunJobs` | internal/controller/imageset_controller.go:361-428 | The loop over the operators does what the function the properties are about says, deletions included |
| `CatalogGate.ReconcileDeletesActiveIff` | internal/controller/imageset_controller.go:377-385 | Exactly when a reconcile deletes a Pending or Running job; never if no catalog is listed twice |
| `CatalogGate.LoopDeletesActiveIff` | internal/controller/imageset_controller.go:361-428 | The same for the loop of a rebuild round |
| `CatalogGate.DuplicateCatalogDeletesPending` | internal/controller/imageset_controller.go:377-385 | Two entries for one catalog with a terminal job: a recollect makes the second delete the job just created for the first |
| `CatalogGate.RoundClosesTrigger` | internal/controller/imageset_controller.go:275-352 | Every rebuild round closes a trigger and no reconcile opens one |
| `CatalogGate.RebuildsBounded` | internal/controller/imageset_controller.go:275-352 | With the inputs fixed, any run of reconciles starts at most two rebuild rounds |
| `CatalogGate.ReconcileBuilds` | internal/controller/imageset_controller.go:361-428 | With complete state, no listed job at work, all digests recorded and something to do, jobs are created for exactly the listed catalogs that had none, or for all of them if something changed, and every listed catalog has a job |
| `CatalogGate.RoundStartsIff` | internal/controller/imageset_controller.go:275-352 | A rebuild round starts exactly if a recollect was honoured, inputs or content differ or the poll is due, the state is complete, no listed job is at work and the records can be written |
| `CatalogGate.RoundRecords` | internal/controller/imageset_controller.go:332-352 | What a round records, after which only a poll can still be due |
| `FlagHonesty.HonestIff` | pkg/mirror/manager/manager.go:1423-1451 | The fast-path flags agree with the entries throughout a run exactly if no step brings back a destination whose flag was left set |
| `FlagHonesty.StepHonestIff` | pkg/mirror/manager/manager_resolve.go:1365-1400 | The same for one step: only a merge or a load can break the flags |
| `FlagHonesty.EarnedUnlessBroughtBack` | pkg/mirror/manager/manager.go:615-651 | In such a run, whatever is Mirrored was loaded so, reported so or seen in the registry since it last was not Mirrored |
| `Earned.StepUnearnedIff` | pkg/mirror/manager/manager.go:1438-1451 | In any reachable state, a step makes something Mirrored unearned exactly if it is a tick that meets an owned, flagged entry that is not Mirrored |
| `Earned.RunEarnedIff` | pkg/mirror/manager/manager.go:1438-1451 | In a run, whatever becomes Mirrored is earned exactly if no tick meets such an entry |
| `Earned.EarnedSince` | pkg/mirror/manager/manager.go:615-651 | In such a run every Mirrored destination has the step that earned it, after which it stayed Mirrored |
| `Runs.MirroredIsEarned` | pkg/mirror/manager/manager.go:996-1100 | The same for runs in which nothing the orphan sweep took comes back |
| `Runs.DefensiveSyncNeverFires` | pkg/mirror/manager/manager.go:1442-1451 | In such runs a set flag of a live destination implies State Mirrored |
| `Runs.RunKeeps` | pkg/mirror/manager/manager.go:1246-1575 | Flags, ownership and the view of a resolve under way stay consistent in every state of such a run |
| `ReAdd.UnearnedMirrored` | pkg/mirror/manager/manager.go:1430-1436 | There is a run in which a destination turns Mirrored without anything that earns it |
| `ReAdd.DefensiveSyncFires` | pkg/mirror/manager/manager.go:1442-1451 | The defensive sync turns a re-added Pending destination Mirrored |
| `Lifecycle.MergeKeepsFlagsIff` | pkg/mirror/manager/manager_resolve.go:1365-1400 | A merge keeps flags honest exactly if no destination it adds still carries a flag |
| `Lifecycle.ReportKeepsFlags` | pkg/mirror/manager/manager.go:615-651 | A report touches its own destination only, keeps flags honest, and makes Mirrored only what it reports as a success |
| `Lifecycle.DriftKeepsFlags` | pkg/mirror/manager/manager.go:996-1100 | A drift result keeps flags honest whatever happened since its snapshot, and makes Mirrored only what it saw |
| `Lifecycle.ResyncKeepsFlags` | pkg/mirror/manager/manager_resolve.go:1221-1242 | Force-resync keeps flags honest and makes nothing Mirrored |
| `Lifecycle.RecollectKeepsFlags` | pkg/mirror/manager/manager_resolve.go:1254-1270 | Recollect keeps flags honest and makes nothing Mirrored |
| `Lifecycle.TickKeepsFlags` | pkg/mirror/manager/manager.go:1423-1475 | The tick keeps flags honest and leaves stale flags only for what it sweeps |
| `Lifecycle.DropKeepsFlags` | pkg/mirror/manager/manager.go:1577-1607 | Dropping ImageSets keeps flags honest and leaves no stale flag |
| `RunProperties.ReportsAppliedOnceInOrder` | pkg/mirror/manager/manager.go:552-611 | In every run, the acknowledged reports are exactly those applied so far followed by those queued, in arrival order |
| `RunProperties.ReportedNotTracked` | pkg/mirror/manager/manager.go:615-651 | A destination whose report was acknowledged is queued or no longer tracked for that pod |
| `RunProperties.CleanupNeverUndoesReport` | pkg/mirror/manager/manager.go:737-837 | Cleanup does what it would do if the pod whose report was acknowledged were not among the finished ones for that destination |
| `RunProperties.PermanentFailureIsSticky` | pkg/mirror/manager/manager.go:1663-1671 | PermanentlyFailed is never cleared while the destination stays live |
| `RunProperties.RetryBudget` | pkg/mirror/manager/manager.go:1453-1475 | From a retry count of zero the tick returns an entry from Failed to Pending at most maxRetries - 1 times until a reset, in every run that loads no uncounted failure |
| `RunProperties.RetriesLeft` | pkg/mirror/manager/manager.go:1453-1475 | From any count and state, in every run, the number of such retries is bounded by what the count leaves |
| `RunProperties.RunCounted` | pkg/mirror/manager/manager.go:1663-1671 | A Failed entry has a positive retry count, if that holds of what is loaded |
| `RunProperties.RedeliveredFailureIgnored` | pkg/mirror/manager/manager.go:1612-1635 | A failure delivered again at any time while the entry is still Failed with that error changes no entry and no flag |
| `RunProperties.DuplicateFailureCountsOnce` | pkg/mirror/manager/manager.go:1612-1635 | In particular a second delivery right after the first |
| `EntryOutcomes.TickOnFailure` | pkg/mirror/manager/manager.go:1453-1475 | The tick returns an owned, unflagged failure to Pending exactly if its count is below the limit and its deadline absent or over; else it stays Failed and at the limit becomes permanent; nothing else of it changes |
| `EntryOutcomes.TickOnOthers` | pkg/mirror/manager/manager.go:1438-1451 | Mirrored gets its flag, a flag makes Mirrored, Pending waits |
| `EntryOutcomes.TickSweeps` | pkg/mirror/manager/manager.go:1430-1436 | Exactly what nobody owns leaves the working set and is handed on as it was |
| `EntryOutcomes.ReadyIff` | pkg/mirror/manager/manager.go:1477-1490 | Dispatch gets exactly what was Pending before the tick, is after it, and no pod works on |
| `EntryOutcomes.SuccessOutcome` | pkg/mirror/manager/manager.go:615-651 | A success makes a live destination Mirrored, flagged and untracked, and records the digest of an additional image |
| `EntryOutcomes.FailureOutcome` | pkg/mirror/manager/manager.go:1612-1671 | A failure that is news is counted, gets a deadline, and is permanent once the count reaches the limit |
| `EntryOutcomes.StrayReport` | pkg/mirror/manager/manager.go:615-651 | A report for a destination that is not live only ends its tracking |
| `EntryOutcomes.FinishedOutcome` | pkg/mirror/manager/manager.go:791-837 | A finished pod is untracked; if it failed, its destination is Pending again with its count |
| `EntryOutcomes.DriftOnMirrored` | pkg/mirror/manager/manager.go:1069-1100 | A Mirrored entry stays so, and flagged, exactly if the check failed, or the image is there, has not moved and has no invalid signature; gone or moved it starts anew, an invalid signature counts as a failure |
| `EntryOutcomes.DriftOnPermanentFailure` | pkg/mirror/manager/manager.go:1045-1067 | A permanent failure becomes Mirrored exactly if the image was seen and Pending exactly if it was seen missing, and keeps its mark |
| `EntryOutcomes.DriftTooLate` | pkg/mirror/manager/manager.go:1040-1043 | A result for an entry that moved on changes nothing |
| `EntryOutcomes.ResyncOutcome` | pkg/mirror/manager/manager_resolve.go:1221-1242 | Every destination the ImageSet owns and no pod works on starts anew, unflagged; nothing else changes |
| `EntryOutcomes.RecollectOutcome` | pkg/mirror/manager/manager_resolve.go:1254-1270 | Every failure the ImageSet owns and no pod works on gets a fresh retry cycle, its permanent mark kept; nothing else changes |
| `EntryOutcomes.DropOutcome` | pkg/mirror/manager/manager.go:1577-1607 | A destination is forgotten exactly if it had owners and none remains |
| `EntryOutcomes.MergeOutcome` | pkg/mirror/manager/manager_resolve.go:1365-1400 | A live entry gets the resolved source, and the resolved metadata exactly if no other ImageSet owns it; a new one enters as resolved; what was not resolved stays |
| `EntryOutcomes.FreshOutcome` | pkg/mirror/manager/manager_resolve.go:809-853 | A fresh image is Pending unless it was Mirrored from the same kind of spec entry and, for a chart, with the same content |
| `EntryOutcomes.CarryOutcome` | pkg/mirror/manager/manager_resolve.go:894-922 | A hit carries exactly the entries of its kind with its signature or none, their lifecycle unchanged |
| `EntryOutcomes.CarryHelmOutcome` | pkg/mirror/manager/manager_resolve.go:864-881 | A chart that fails to resolve carries exactly its entries and those without a reference |
| `RunProperties.RunOwnersLive` | pkg/mirror/manager/manager_resolve.go:1294-1343 | In every state of every run, owned destinations are live and no owner is listed twice |
| `RunProperties.CacheHitsNeverOrphan` | pkg/mirror/manager/manager_resolve.go:894-922 | Over any number of rounds in which its spec entry is a hit or an error, an unblocked release or operator destination stays owned with its signature, whatever other ImageSets resolve meanwhile |
| `Ownership.MergeKeepsLifecycle` | pkg/mirror/manager/manager_resolve.go:1365-1400 | Merging a resolve changes no lifecycle field of a live destination, no flag and no tracking |
| `Ownership.MergeOwns` | pkg/mirror/manager/owner_meta.go:58-73 | After the merge the ImageSet owns exactly what it resolved, with the resolved metadata |
| `Ownership.MergeDoesNotInterfere` | pkg/mirror/manager/manager_resolve.go:1365-1400 | Every other ImageSet's owned set and view stay the same except for Source |
| `Ownership.WorkerUpdatesRedundant` | pkg/mirror/manager/manager_resolve.go:1090-1110 | Copying worker updates into the resolved state makes no difference to the merge |
| `Ownership.EndResolveIsCore` | pkg/mirror/manager/manager.go:1344-1376 | The region after a resolve is the merge followed by the recollect reset, up to dirty marks and digests |
| `Ownership.DropOwned` | pkg/mirror/manager/manager.go:1577-1607 | A removed ImageSet owns nothing, a remaining one owns what it did |
| `Ownership.TickOwned` | pkg/mirror/manager/manager.go:1423-1451 | The orphan sweep takes nothing an ImageSet owns |
| `ResolveSteps.ResolveImageSet` | pkg/mirror/manager/manager_resolve.go:180-283 | The sections in order, then the block list, give the state the properties below are about |
| `ResolveSteps.MergeIntoStateWithSig` | pkg/mirror/manager/manager_resolve.go:809-853 | The loop over freshly resolved images; a later image of the same destination wins |
| `ResolveSteps.CarryOverByOriginAndSig` | pkg/mirror/manager/manager_resolve.go:894-922 | In any map order, carries exactly the entries of that origin and signature that are not in the new state yet |
| `ResolveSteps.CarryOverHelmEntries` | pkg/mirror/manager/manager_resolve.go:864-881 | In any map order, carries exactly the Helm entries of that reference |
| `ResolveSteps.FilterBlockedImages` | pkg/mirror/manager/manager_resolve.go:927-942 | In any map order, removes exactly the blocked sources |
| `Resolve.ResolvedNewPending` | pkg/mirror/manager/manager_resolve.go:809-853 | What a resolve adds that was not in its view is Pending |
| `Resolve.ResolvedCarries` | pkg/mirror/manager/manager_resolve.go:894-922 | A hit carries its entries over with at most display metadata filled in |
| `Resolve.ResolvedProvenance` | pkg/mirror/manager/manager_resolve.go:180-283 | Everything in the result of a resolve comes from a fresh section, a carry-over or the unowned rest |
| `Resolve.FreshStays` | pkg/mirror/manager/manager_resolve.go:809-853 | A destination one section produces keeps that section's signature in the result |
| `Persistence.FlushLoadRoundTrip` | pkg/mirror/manager/manager.go:1684-1726 | After a complete flush, loading restores every ImageSet's view: ownership, lifecycle and its own metadata |
| `Persistence.FlushLoadDigests` | pkg/mirror/manager/manager_resolve.go:1410-1456 | It also restores the catalog digests the entries were resolved from; only entries without any adopt the annotations |
| `Persistence.LoadAfterPartialFlush` | pkg/mirror/manager/manager_resolve.go:1410-1478 | From any mixture of old and new ConfigMaps each ImageSet loads its own last-written ownership and metadata, and a destination any copy shows Mirrored loads Mirrored |
| `Persistence.FlushedIndexExact` | pkg/mirror/imagestate/imagestate.go:134-164 | The shared index holds exactly the destinations with more than one owner |
| `Persistence.SummaryRefinesRecomputation` | internal/controller/mirrortarget_controller.go:1531-1580 | The stored counts equal what merging all ConfigMaps and counting gives, whatever the sharing |
| `ImageState.Count` | pkg/mirror/imagestate/imagestate.go:204-217 | Mirrored, permanently failed and the rest, each counted once, adding up to the total |
| `MirrorManagerObject.MirrorManager.EnqueueStatus` | pkg/mirror/manager/manager.go:582-586 | A report joins the end of the queue and nothing else changes |
| `MirrorManagerObject.MirrorManager.QueuedSuccess` | pkg/mirror/manager/manager.go:590-599 | Whether a success for the destination is queued |
| `MirrorManagerObject.MirrorManager.DrainStatusQueue` | pkg/mirror/manager/manager.go:603-611 | The queued reports are applied in order and the queue is empty |
| `MirrorManagerObject.MirrorManager.ApplyStatus` | pkg/mirror/manager/manager.go:615-651 | The region on a report: state, failure count, flag, source digest, tracking, dirty marks |
| `MirrorManagerObject.MirrorManager.SetImageState` | pkg/mirror/manager/manager.go:1612-1635 | An identical state and error change nothing; a failure counts and may become permanent |
| `MirrorManagerObject.MirrorManager.FinishedWorkers` | pkg/mirror/manager/manager.go:737-790 | The finished workers are the tracked ones whose pod is gone, terminal or stuck, with its outcome |
| `MirrorManagerObject.MirrorManager.CleanupFinished` | pkg/mirror/manager/manager.go:791-837 | Drains first, then untracks each finished pod that is still the tracked one, resetting failures |
| `MirrorManagerObject.MirrorManager.DriftSnapshot` | pkg/mirror/manager/manager.go:996-1020 | Which destinations are checked, and the entry the check is made for |
| `MirrorManagerObject.MirrorManager.ApplyDrift` | pkg/mirror/manager/manager.go:1040-1100 | The result is dropped if the entry moved on; otherwise recovery, reset or confirmation |
| `MirrorManagerObject.MirrorManager.ApplySignatureResult` | pkg/mirror/manager/manager.go:1229-1244 | A valid signature is recorded, an invalid one fails the entry and clears the flag |
| `MirrorManagerObject.MirrorManager.ResetImageSetToPending` | pkg/mirror/manager/manager_resolve.go:1221-1242 | Force-resync in place, in any map order, resets exactly the owned destinations that are not busy |
| `MirrorManagerObject.MirrorManager.ResetFailedForRecollect` | pkg/mirror/manager/manager_resolve.go:1254-1270 | Recollect in place resets exactly the owned failures that are not busy |
| `MirrorManagerObject.MirrorManager.MergeResolvedIntoConsolidated` | pkg/mirror/manager/manager_resolve.go:1365-1400 | The two loops of the merge in place, in any map order |
| `MirrorManagerObject.MirrorManager.RecordOwnerMetaOf` | pkg/mirror/manager/owner_meta.go:58-73 | Recording and pruning metadata in place, in any map order |
| `MirrorManagerObject.MirrorManager.FinishResolve` | pkg/mirror/manager/manager.go:1340-1376 | The whole region after a resolve |
| `MirrorManagerObject.MirrorManager.ProcessEntries` | pkg/mirror/manager/manager.go:1423-1500 | The tick in any map order: orphans out, entries advanced, and the pending list holds exactly what is ready for a worker, once, bundle images first |
| `MirrorManagerObject.MirrorManager.StartBatches` | pkg/mirror/manager/manager.go:1502-1526 | The loop tracks exactly the batches that were started while the limit was not reached, each for its pod, and new pods never push the number of active pods above the limit |
| `Batches.StartTracks` | pkg/mirror/manager/manager.go:1512-1523 | Every destination of a started batch ends up tracked for that pod |
| `Batches.StartKeeps` | pkg/mirror/manager/manager.go:1507-1526 | A destination that is not pending keeps its tracking |
| `Batches.StartBounded` | pkg/mirror/manager/manager.go:1503-1507 | The bound on the number of active pods |
| `Batches.BatchIsDispatch` | pkg/mirror/manager/manager.go:1519-1523 | Tracking one batch is what runs take as the start of a batch |
| `MirrorManagerObject.MirrorManager.DropRemovedImageSets` | pkg/mirror/manager/manager.go:1577-1607 | Dropping owners in place, in any map order, forgets exactly what nobody owns any more |
| `MirrorManagerObject.MirrorManager.FlushPartitionedState` | pkg/mirror/manager/manager.go:1684-1726 | Writes the view and digests of every ImageSet, the shared index and the counts as far as each write succeeds, and is clean only if all did |
| `MirrorManagerObject.MirrorManager.LoadPartitionedState` | pkg/mirror/manager/manager_resolve.go:1410-1456 | Loading in place, in any map order |
| `Channels.UpgradesPreserved` | pkg/mirror/catalog/resolver.go:786-830 | With unique names, a kept entry reaches another by Replaces after the repair exactly if it did before |
| `Channels.RepairEntry` | pkg/mirror/catalog/resolver.go:793-828 | The walk ends also on cyclic input; Replaces becomes the nearest kept ancestor, and exactly the dropped names passed join Skips |
| `Channels.RepairChannelGraph` | pkg/mirror/catalog/resolver.go:786-830 | The same for every kept entry, in channel order |
| `Channels.HighestVersionIs` | pkg/mirror/catalog/resolver.go:875-890 | The pick is the first of the highest parseable versions, or the least name if none parses |
| `Channels.HighestVersionBundle` | pkg/mirror/catalog/resolver.go:875-890 | The loop computes that pick |
| `Channels.ChannelHeadPlusN` | pkg/mirror/catalog/resolver.go:706-764 | The head and up to N entries back along Replaces, in channel order |
| `Channels.HeadPlusNSingleHead` | pkg/mirror/catalog/resolver.go:706-764 | Head-plus-N then repair leaves exactly one head, the chosen candidate, in every channel with an unsuperseded entry |
| `Channels.MergeChannelHeads` | pkg/mirror/catalog/resolver.go:836-870 | The loops let the highest head skip the other heads |
| `Channels.MergedHead` | pkg/mirror/catalog/resolver.go:836-870 | After merging, that candidate is the only head |
| `Channels.MergeSingleHead` | pkg/mirror/catalog/resolver.go:1240-1247 | Selection by name, repair and merge turn an acyclic channel with a selected entry into an acyclic one with exactly one head |
| `Channels.RepairedRanked` | pkg/mirror/catalog/resolver.go:786-830 | Repair brings no cycle |
| `RepairedHeads.RepairedHeadIff` | pkg/mirror/catalog/resolver.go:786-830 | The heads after repair are the kept names that no kept entry skips or has as nearest kept ancestor |
| `RepairedHeads.SingleHeadIff` | pkg/mirror/catalog/resolver.go:786-830 | A repaired channel has exactly one head exactly if the kept entries lead past all kept names but one |
| `RepairedHeads.NewHeadIff` | pkg/mirror/catalog/resolver.go:786-830 | Repair brings up no head the channel did not have exactly if some kept entry leads past every kept superseded name |
| `VersionRange.RangeSingleHeadIff` | pkg/mirror/catalog/resolver.go:1142-1160 | In the filtered catalog, a channel of a package requested by version range has exactly one head exactly if its entries in the range lead past all names in the range but one |
| `VersionRange.RangeLeavesTwoHeads` | pkg/mirror/catalog/resolver.go:1142-1160 | Asking up to a version below a newest bundle that replaces one entry and skips another leaves two heads where there was one |
| `RepairedHeads.RepairedUnique` | pkg/mirror/catalog/resolver.go:786-830 | The contract of the repair determines its result up to the order of Skips |
| `CatalogFilter.ResolveDependencies` | pkg/mirror/catalog/resolver.go:1083-1213 | The search ends, and keeps exactly the least set of packages that contains the requests and is closed under what selected bundles require |
| `CatalogFilter.DiscoverRequirements` | pkg/mirror/catalog/resolver.go:1183-1212 | Queues exactly the unknown packages, or providers of kinds, that the bundles require and the catalog has |
| `CatalogFilter.LeastClosureUnique` | pkg/mirror/catalog/resolver.go:1083-1213 | There is only one such set |
| `Requirements.RequirementsKept` | pkg/mirror/catalog/resolver.go:1183-1212 | Whatever a bundle of the filtered catalog asks for is kept: a package it requires by name, and every package with a bundle that provides a kind it requires |
| `Requirements.KeptForAReason` | pkg/mirror/catalog/resolver.go:1083-1213 | Every kept package is requested, or a bundle of the filtered catalog asks for it |
| `Requirements.KeptIsLeast` | pkg/mirror/catalog/resolver.go:1083-1213 | Every set of packages with the requested ones and what bundles of the filtered catalog from its packages ask for has all kept ones |
| `Requirements.MissingIff` | pkg/mirror/catalog/resolver.go:1021-1032 | The filter fails exactly if a request picks a bundle its package does not have, and names such a bundle |
| `Selection.BundleKeptIff` | pkg/mirror/catalog/resolver.go:1101-1181 | The bundles of the filtered catalog are exactly those of kept packages that are listed by name, among the newest of some channel, in range in some wanted channel, or, without a request or channel entries, all |
| `Selection.EntryKeptIff` | pkg/mirror/catalog/resolver.go:1227-1255 | A channel of a kept package keeps exactly the entries its request keeps |
| `Selection.RangeIff` | pkg/mirror/catalog/resolver.go:648-694 | Each bound is the channel's own if it sets one and else the package's; a bundle without a version always passes |
| `Selection.NewestIff` | pkg/mirror/catalog/resolver.go:735-763 | Head plus N is exactly the entries of the channel within N replaces steps of the head |
| `Selection.NewestCount` | pkg/mirror/catalog/resolver.go:735-763 | On a chain that is long enough these are exactly N + 1 names |
| `Selection.ChosenHead` | pkg/mirror/catalog/resolver.go:706-734 | The head is the highest of the entries nothing supersedes, and only if there is none the last entry |
| `Selection.VersionsAre` | pkg/mirror/catalog/resolver.go:895-909 | Versions are those of the bundles |
| `CatalogFilter.SelectChannel` | pkg/mirror/catalog/resolver.go:1101-1181 | The entries selected in one channel, by name, as heads, by version range or in full |
| `CatalogFilter.TrimChannel` | pkg/mirror/catalog/resolver.go:1227-1255 | A channel survives exactly if a selected entry is left, and is then repaired and, for selection by name, merged |
| `CatalogFilter.ChoosePackages` | pkg/mirror/catalog/resolver.go:1257-1276 | A default channel that did not survive is replaced by the least surviving name |
| `CatalogFilter.FilterFBC` | pkg/mirror/catalog/resolver.go:922-1283 | No request: unchanged. A missing named bundle: that error. Otherwise the filtered catalog of the least closure |
| `CatalogFilter.FilteredSelfContained` | pkg/mirror/catalog/resolver.go:1215-1282 | On closed input with unique names: no empty channel, every entry's bundle present, every Replaces inside the channel, every default channel alive |
| `CatalogFilter.FilteredHeadsOnlySingleHead` | pkg/mirror/catalog/resolver.go:1132-1141 | Channels of heads-only packages come out with exactly one head |
| `CatalogFilter.FilteredByNameSingleHead` | pkg/mirror/catalog/resolver.go:1240-1247 | Channels of packages selected by name come out acyclic with exactly one head |
| `CatalogFilter.ExtractImages` | pkg/mirror/catalog/resolver.go:1311-1349 | Exactly the nonempty bundle and related images, and which of them are bundle images |
| `FilterOrder.FilteredDetermined` | pkg/mirror/catalog/resolver.go:1076-1282 | Any two results for the same input keep the same packages, defaults, bundles and upgrade graphs |
| `FilterOrder.RequestInForce` | pkg/mirror/catalog/resolver.go:935-959 | The request in force for a package is its first one; an unrequested package has one only as a companion, heads-only |
| `FilterOrder.CompanionBrought` | pkg/mirror/catalog/resolver.go:945-959 | A request with a package in the catalog that is named as its companion ends up with one of its companions included |
| `ShortestPath.ShortestPathNodes` | pkg/mirror/release/release.go:630-702 | For every graph, malformed edges included: nodes from one version to the other along listed edges, none twice, as few as possible; or the error for a missing version or no path |
| `ShortestPath.Search` | pkg/mirror/release/release.go:660-690 | The search finds a tree whose path to the target no walk beats, or proves that there is no walk |
| `ShortestPath.Reconstruct` | pkg/mirror/release/release.go:691-702 | Following the predecessors back gives that path |
| `Cleanup.CleanUpOrphans` | internal/controller/mirrortarget_controller.go:777-848 | From the states of the ImageSets to the registry after the Job: a live destination named by its digest that resolved still resolves exactly if no deleted orphan takes its manifest, so always if no orphan has both a tag and a digest; and a mirrored orphan whose deletion works and that no live destination names does not resolve any more |
| `Cleanup.CleanUpRemoved` | internal/controller/mirrortarget_controller.go:933-1004 | The same for the exclusive images of a removed ImageSet |
| `Cleanup.CleanupKeepsLiveIff` | pkg/mirror/cleanup/cleanup.go:47-93 | Deleting any sequence of images that are not needed leaves a live image named by its digest resolvable exactly if none of them takes its manifest |
| `Cleanup.CleanupKeepsLive` | pkg/mirror/cleanup/cleanup.go:47-93 | None does that does not carry both a tag and a digest |
| `Cleanup.DeleteKeepsIff` | pkg/mirror/client/client.go:481-513 | A permitted deletion takes a live image exactly if it is a digest reference to the same manifest, and then it carries a tag too |
| `Cleanup.TaggedDigestTakesLive` | internal/controller/mirrortarget_controller.go:1019-1042 | Deleting repo:tag@sha256:x is permitted although repo:sha256-x is live, and takes it away |
| `Cleanup.NeedsIff` | internal/controller/mirrortarget_controller.go:1019-1042 | A destination without a digest is needed exactly if it is live; repo@sha256:x exactly if it is live or a live destination of that repository is named by x |
| `Cleanup.DeletedStaysGone` | pkg/mirror/cleanup/cleanup.go:47-93 | What the Job deleted does not resolve afterwards |
| `Cleanup.DeleteTakes` | pkg/mirror/client/client.go:481-513 | A tag reference takes one tag, a digest reference the manifest and every tag of it, and nothing else |
| `Cleanup.LiveDestinations` | internal/controller/mirrortarget_controller.go:1047-1065 | The live set is everything any remaining ImageSet holds |
| `Cleanup.SnapshotOrphans` | internal/controller/mirrortarget_controller.go:777-848 | The snapshot is the orphans that are not needed again |
| `Cleanup.PartitionRemoved` | internal/controller/mirrortarget_controller.go:933-1004 | Exclusive is exactly what is neither shared nor needed, shared is the rest |
| `Cleanup.RunJob` | pkg/mirror/cleanup/cleanup.go:47-93 | Deletes each Mirrored image of the snapshot once, counts deleted, skipped and failed, keeps the ConfigMap exactly after a failure |
| `Cleanup.DigestName` | internal/controller/mirrortarget_controller.go:1034-1042 | A digest reference is read as its repository and digest |
| `Cleanup.TagName` | internal/controller/mirrortarget_controller.go:1034-1042 | A digest-derived tag is read as its repository and the digest it stands for |
| `ChartRefs.ParseChartDestination` | pkg/mirror/chartmirror/pusher.go:48-71 | Returns a chart exactly if the destination is the printed form of that chart and repository, name and version can be told apart |
| `ChartRefs.DestinationInjective` | pkg/mirror/chartmirror/pusher.go:39-41 | Different charts of that kind have different destinations |
| `ChartRefs.HelmSourceRoundTrip` | pkg/mirror/helm_source.go:26-57 | Parsing inverts printing, up to one trailing slash, exactly if no part is empty and the URL has no version mark |
| `ChartRefs.ReprintsIff` | pkg/mirror/helm_source.go:33-57 | An accepted source prints back exactly if name and version are canonically percent-encoded |
| `ChartRefs.UnescapeEscape` | pkg/mirror/helm_source.go:26-28 | Percent-encoding (section 2.1 of RFC 3986) is undone by decoding and leaves no separator |

## Left out

- Kubernetes API plumbing, RBAC, Deployments, NetworkPolicies, Routes, the console plugin, metrics, the REST server and the user interface.
- Registry transport, gzip, tar, JSON and YAML. A ConfigMap is a record of entries and digests written in one update.
- Signature hashes: an entry signature is an abstract string; that it identifies the spec entry is a hypothesis where it is needed (`SignaturesHonest`, `WellFormed`).
- Semantic-version parsing: a version is a rank, so only its order matters (section 11 of Semantic Versioning 2.0.0).
- GPG and cosign verification: only the outcome, as an input.
- Wall-clock time, jitter, backoff and timeouts: the retry deadline and the current time are inputs.
- Helm rendering, the graph image, layer building, generated resources, `PlanMirrorOrder` and the migration of legacy state: no further hard property.
- Nil entries of the state map, and State values other than Pending, Mirrored and Failed.
- Condition messages, and the label text of extracted images.
- The fingerprint text of catalog digests: the gate sees it as a string that changes with the digests.
- CatalogNeverAdvertisesUnmirrored: assumes that a resolve contributes what filtering and extraction yield at its digest, that annotation patches succeed, that restarts are safe (`EarlyRestart` shows why), that the entries of one spec produce disjoint destinations, that nothing is blocked and that no operator entry predates signatures.
- ReconcileCatalogs: the same assumptions, and for the job that Full overrides no package list that leaves out images (`FullCatalog` shows why).
- Reconcile: creating and deleting Jobs succeeds; errors of the API are plumbing.
- CleanupNeverUndoesReport: assumes that a pod whose report was acknowledged is not given the same destination again.
- MirroredIsEarned: assumes that nothing the orphan sweep took comes back; `EarnedUnlessBroughtBack` needs the exact condition only.
- CleanUpOrphans: assumes that tags of the form sha256-x name sha256:x; references are read by their separators, without the client library's default registry and library prefix.
- CleanUpRemoved: the same assumption as `CleanUpOrphans`.
- RepairEntry: the order of the added Skips is not part of the contract.
- SelectChannel: the entries selected per channel are computed again for the trimming instead of being kept in a map between the two passes.
- HelmSourceRoundTrip: stripping user information is left to the URL library; the URL is the one after stripping.
- StartBatches: which batches can be started, and as which pods, is an input.

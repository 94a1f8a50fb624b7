/** The manager object: each method is one lock-held region of the code, carried
    out in place and in any map iteration order, and proved to do exactly what
    the corresponding function of ManagerModel says. */
module MirrorManagerObject {
  import opened Options
  import opened ImageState
  import opened ManagerModel
  import opened Persistence
  import opened RegionSteps
  import opened Batches

  datatype PodPhase = Active | StuckPending | Succeeded | PodFailed

  class MirrorManager {
    var imageState: EntryMap
    var owners: map<Dest, seq<Name>>
    var ownerMeta: map<Dest, map<Name, SpecMeta>>
    var mirrored: set<Dest>
    var inProgress: map<Dest, Pod>
    var statusQueue: seq<Report>
    var catalogDigests: map<Name, map<string, string>>
    var maxRetries: int
    var stateDirty: bool
    var statusDirty: bool

    function Mem(): Memory
      reads this
    {
      Memory(imageState, owners, ownerMeta, mirrored, inProgress, statusQueue, catalogDigests, maxRetries,
             stateDirty, statusDirty)
    }

    constructor ()
      ensures Mem() == FRESH
    {
      imageState, owners, ownerMeta, mirrored := map[], map[], map[], {};
      inProgress, statusQueue, catalogDigests := map[], [], map[];
      maxRetries, stateDirty, statusDirty := 0, false, false;
    }

    // ------------------------------------------------------- worker reports

    method EnqueueStatus(r: Report)
      modifies this`statusQueue
      ensures Mem() == old(Mem()).(queue := old(statusQueue) + [r])
    {
      statusQueue := statusQueue + [r];
    }

    method QueuedSuccess(d: Dest) returns (found: bool)
      ensures found <==> exists i :: 0 <= i < |statusQueue| && statusQueue[i].dest == d && statusQueue[i].error == ""
    {
      for i := 0 to |statusQueue|
        invariant forall k :: 0 <= k < i ==> !(statusQueue[k].dest == d && statusQueue[k].error == "")
      {
        if statusQueue[i].dest == d && statusQueue[i].error == "" {
          return true;
        }
      }
      return false;
    }

    method SetImageState(d: Dest, st: State, err: string, retryAt: int)
      modifies this
      ensures Mem() == ManagerModel.SetImageState(old(Mem()), d, st, err, retryAt)
    {
      if d !in imageState {
        return;
      }
      var entry := imageState[d];
      if entry.state == st && entry.lastError == err {
        assert imageState[d := entry] == imageState;
        return;
      }
      entry := entry.(state := st, lastError := err);
      if st != Mirrored {
        mirrored := mirrored - {d};
      }
      stateDirty, statusDirty := true, true;
      if st == Failed {
        entry := entry.(retryCount := entry.retryCount + 1, nextRetryAt := Some(retryAt));
        if entry.retryCount >= EffectiveMaxRetries(maxRetries) && !entry.permanentlyFailed {
          entry := entry.(permanentlyFailed := true);
        }
      } else {
        entry := entry.(nextRetryAt := None);
      }
      imageState := imageState[d := entry];
    }

    method ApplyStatus(r: Report)
      modifies this
      ensures Mem() == ManagerModel.ApplyStatus(old(Mem()), r)
    {
      if r.error != "" {
        SetImageState(r.dest, Failed, r.error, r.retryAt);
      } else if r.dest in imageState {
        RecordSuccess(r);
      }
      inProgress := inProgress - {r.dest};
      statusDirty := true;
    }

    /** The success branch, on a live destination. */
    method RecordSuccess(r: Report)
      requires r.error == "" && r.dest in imageState
      modifies this
      ensures Mem() == Put(old(Mem()), r.dest,
        ReportChange(old(imageState)[r.dest], r, EffectiveMaxRetries(old(maxRetries))))
    {
      mirrored := mirrored + {r.dest};
      SetImageState(r.dest, Mirrored, "", r.retryAt);
      if imageState[r.dest].meta.origin == OriginAdditional && r.digest != "" {
        imageState := imageState[r.dest := imageState[r.dest].(sourceDigest := r.digest)];
        stateDirty := true;
      }
    }

    method DrainStatusQueue()
      modifies this
      ensures Mem() == Drain(old(Mem()))
    {
      var queued := statusQueue;
      statusQueue := [];
      ghost var start := Mem();
      for i := 0 to |queued|
        invariant Mem() == ApplyAll(start, queued[..i])
      {
        ApplyStatus(queued[i]);
        assert queued[..i + 1][..i] == queued[..i];
      }
      assert queued[..|queued|] == queued;
    }

    // ---------------------------------------------------------- pod cleanup

    /** Classifies the tracked pods against the listed ones. */
    method FinishedWorkers(snapshot: map<Dest, Pod>, pods: map<Pod, PodPhase>) returns (done: seq<Finished>)
      ensures forall f :: f in done <==>
        && f.dest in snapshot && snapshot[f.dest] == f.pod
        && (f.pod in pods ==> pods[f.pod] != Active)
        && (f.failed <==> f.pod in pods && (pods[f.pod] == PodFailed || pods[f.pod] == StuckPending))
    {
      done := [];
      var todo := snapshot.Keys;
      while todo != {}
        invariant todo <= snapshot.Keys
        invariant forall f :: f in done <==>
          && f.dest in snapshot.Keys - todo && snapshot[f.dest] == f.pod
          && (f.pod in pods ==> pods[f.pod] != Active)
          && (f.failed <==> f.pod in pods && (pods[f.pod] == PodFailed || pods[f.pod] == StuckPending))
      {
        var d :| d in todo;
        var pod := snapshot[d];
        if pod !in pods {
          done := done + [Finished(d, pod, false)];
        } else if pods[pod] == StuckPending {
          done := done + [Finished(d, pod, true)];
        } else if pods[pod] != Active {
          done := done + [Finished(d, pod, pods[pod] == PodFailed)];
        }
        todo := todo - {d};
      }
    }

    method CleanupFinished(done: seq<Finished>)
      modifies this
      ensures Mem() == Cleanup(old(Mem()), done)
    {
      if done == [] {
        return;
      }
      DrainStatusQueue();
      ghost var start := Mem();
      for i := 0 to |done|
        invariant Mem() == CleanupAll(start, done[..i])
      {
        var f := done[i];
        assert done[..i + 1][..i] == done[..i];
        if f.dest in inProgress && inProgress[f.dest] == f.pod {
          inProgress := inProgress - {f.dest};
          if f.failed {
            SetImageState(f.dest, Pending, "", 0);
          }
        }
      }
      assert done[..|done|] == done;
    }

    // ---------------------------------------------------------- drift check

    method DriftSnapshot(d: Dest) returns (snap: Option<Entry>)
      ensures snap.Some? <==> DriftWanted(Mem(), d)
      ensures snap.Some? <==>
        (d in imageState && d in owners && owners[d] != [] &&
         (imageState[d].state == Mirrored || (imageState[d].state == Failed && imageState[d].permanentlyFailed)))
      ensures snap.Some? ==> snap.value == imageState[d]
    {
      if d !in imageState || d !in owners || owners[d] == [] {
        return None;
      }
      var entry := imageState[d];
      if entry.state != Mirrored && !(entry.state == Failed && entry.permanentlyFailed) {
        return None;
      }
      return Some(entry);
    }

    method ApplyDrift(d: Dest, snap: Entry, p: Probe)
      modifies this
      ensures Mem() == DriftApply(old(Mem()), d, snap, p)
    {
      if d !in imageState {
        return;
      }
      var entry := imageState[d];
      if entry.state != snap.state || entry.permanentlyFailed != snap.permanentlyFailed || entry.source != snap.source {
        assert imageState[d := entry] == imageState;
        return;
      }
      if snap.state == Failed && snap.permanentlyFailed {
        ApplyRecovery(d, p);
      } else {
        ApplyConfirmation(d, p);
      }
    }

    /** The outcome for a permanently failed entry. */
    method ApplyRecovery(d: Dest, p: Probe)
      requires d in imageState
      modifies this
      ensures Mem() == Put(old(Mem()), d, RecoveryChange(old(imageState)[d], p))
    {
      var entry := imageState[d];
      if p.failed {
        assert imageState[d := entry] == imageState;
      } else if p.present {
        mirrored := mirrored + {d};
        imageState := imageState[d := entry.(state := Mirrored, lastError := "")];
        stateDirty := true;
      } else {
        ResetToPending(d, entry);
      }
    }

    /** The outcome for a Mirrored entry. */
    method ApplyConfirmation(d: Dest, p: Probe)
      requires d in imageState
      modifies this
      ensures Mem() == Put(old(Mem()), d, ConfirmChange(old(imageState)[d], p, EffectiveMaxRetries(old(maxRetries))))
    {
      var entry := imageState[d];
      if p.failed {
        mirrored := mirrored + {d};
        assert imageState[d := entry] == imageState;
        return;
      }
      if !p.present {
        ResetToPending(d, entry.(lastError := ""));
        return;
      }
      if p.digest.Some? {
        var drifted := entry.sourceDigest != "" && entry.sourceDigest != p.digest.value;
        if entry.sourceDigest != p.digest.value {
          entry := entry.(sourceDigest := p.digest.value);
          stateDirty := true;
        }
        if drifted {
          ResetToPending(d, entry.(lastError := ""));
          return;
        }
      }
      ConfirmMirrored(d, entry, p);
    }

    method ConfirmMirrored(d: Dest, entry: Entry, p: Probe)
      modifies this
      ensures Mem() == Put(old(Mem()), d,
        if p.signature.Some? && !entry.signatureVerified
        then SignatureChange(entry, p, EffectiveMaxRetries(old(maxRetries)))
        else Change(entry, Some(true), false, false))
    {
      mirrored := mirrored + {d};
      imageState := imageState[d := entry];
      if p.signature.Some? && !entry.signatureVerified {
        ApplySignatureResult(d, p.signature.value, p.retryAt);
      }
    }

    method ResetToPending(d: Dest, entry: Entry)
      modifies this
      ensures Mem() == Put(old(Mem()), d, BackToPending(ResetPending(entry)))
    {
      imageState := imageState[d := entry.(state := Pending, retryCount := 0, nextRetryAt := None)];
      mirrored := mirrored - {d};
      stateDirty, statusDirty := true, true;
    }

    method ApplySignatureResult(d: Dest, valid: bool, retryAt: int)
      requires d in imageState
      modifies this
      ensures Mem() == Put(old(Mem()), d,
        SignatureChange(old(imageState)[d], Probe(false, true, None, Some(valid), retryAt),
                        EffectiveMaxRetries(maxRetries)).(flag := if valid then None else Some(false)))
    {
      var entry := imageState[d];
      if valid {
        imageState := imageState[d := entry.(signatureVerified := true)];
        stateDirty := true;
        return;
      }
      entry := entry.(state := Failed, lastError := "signature check failed", signatureVerified := false);
      imageState := imageState[d := RecordFailure(entry, EffectiveMaxRetries(maxRetries), retryAt)];
      mirrored := mirrored - {d};
      stateDirty, statusDirty := true, true;
    }

    // --------------------------------------------------------------- resets

    method ResetImageSetToPending(name: Name)
      modifies this
      ensures Mem() == Resync(old(Mem()), name)
    {
      ghost var m := Mem();
      ghost var done: set<Dest> := {};
      var todo, changed := imageState.Keys, false;
      ResyncNone(m, name);
      while todo != {}
        invariant todo !! done && todo + done == m.imageState.Keys
        invariant Mem() == ResyncOn(m, name, done)
        invariant changed <==> ResyncSet(m, name, done) != {}
      {
        var d :| d in todo;
        ResyncMore(m, name, done, d);
        var hit := ResyncEntry(d, name);
        changed := changed || hit;
        todo, done := todo - {d}, done + {d};
      }
      assert done == m.imageState.Keys;
      if changed {
        stateDirty, statusDirty := true, true;
      }
    }

    method ResyncEntry(d: Dest, name: Name) returns (hit: bool)
      requires d in imageState
      modifies this
      ensures hit == ResyncHits(old(Mem()), name, d)
      ensures !hit ==> Mem() == old(Mem())
      ensures hit ==> Mem() == old(Mem()).(imageState := old(imageState)[d := Resynced(old(imageState)[d])],
                                          mirrored := old(mirrored) - {d})
    {
      var e := imageState[d];
      if !HasOwner(owners, d, name) || (d in inProgress && inProgress[d] != "") {
        return false;
      }
      if e.state == Pending && e.retryCount == 0 && e.lastError == "" && !e.signatureVerified {
        return false;
      }
      imageState := imageState[d :=
        e.(state := Pending, retryCount := 0, nextRetryAt := None, lastError := "", signatureVerified := false)];
      mirrored := mirrored - {d};
      return true;
    }

    method ResetFailedForRecollect(name: Name)
      modifies this
      ensures Mem() == RecollectReset(old(Mem()), name)
    {
      ghost var m := Mem();
      ghost var done: set<Dest> := {};
      var todo, changed := imageState.Keys, false;
      RecollectNone(m, name);
      while todo != {}
        invariant todo !! done && todo + done == m.imageState.Keys
        invariant Mem() == RecollectOn(m, name, done)
        invariant changed <==> RecollectSet(m, name, done) != {}
      {
        var d :| d in todo;
        RecollectMore(m, name, done, d);
        var hit := RecollectEntry(d, name);
        changed := changed || hit;
        todo, done := todo - {d}, done + {d};
      }
      assert done == m.imageState.Keys;
      if changed {
        stateDirty, statusDirty := true, true;
      }
    }

    method RecollectEntry(d: Dest, name: Name) returns (hit: bool)
      requires d in imageState
      modifies this
      ensures hit == RecollectHits(old(Mem()), name, d)
      ensures !hit ==> Mem() == old(Mem())
      ensures hit ==> Mem() == old(Mem()).(
        imageState := old(imageState)[d := ResetPending(old(imageState)[d]).(lastError := "")])
    {
      var e := imageState[d];
      if e.state != Failed || !HasOwner(owners, d, name) || (d in inProgress && inProgress[d] != "") {
        return false;
      }
      imageState := imageState[d := e.(state := Pending, retryCount := 0, nextRetryAt := None, lastError := "")];
      return true;
    }

    // -------------------------------------------------------- resolve merge

    method MergeResolvedIntoConsolidated(resolved: EntryMap, name: Name)
      modifies this
      ensures Mem() == MergeResolved(old(Mem()), resolved, name)
    {
      ghost var m := Mem();
      UpsertResolved(resolved, name);
      RemoveStaleOwnership(resolved, name);
      MergeSteps(m, resolved, name);
    }

    /** Step 1: adds or refreshes every resolved destination. */
    method UpsertResolved(resolved: EntryMap, name: Name)
      modifies this
      ensures Mem() == AddOn(old(Mem()), resolved, name, resolved.Keys)
    {
      ghost var m := Mem();
      ghost var done: set<Dest> := {};
      var todo := resolved.Keys;
      AddNone(m, resolved, name);
      while todo != {}
        invariant todo !! done && todo + done == resolved.Keys
        invariant Mem() == AddOn(m, resolved, name, done)
      {
        var d :| d in todo;
        AddMore(m, resolved, name, done, d);
        UpsertEntry(d, resolved[d], name);
        todo, done := todo - {d}, done + {d};
      }
      assert done == resolved.Keys;
    }

    /** Step 2: gives up every live destination that was not resolved. */
    method RemoveStaleOwnership(resolved: EntryMap, name: Name)
      modifies this`owners
      ensures owners == RemoveOn(old(owners), name, imageState.Keys - resolved.Keys)
    {
      ghost var done: set<Dest> := {};
      var stale := imageState.Keys - resolved.Keys;
      var todo := stale;
      RemoveNone(owners, name);
      while todo != {}
        invariant todo !! done && todo + done == stale
        invariant owners == RemoveOn(old(owners), name, done)
      {
        var d :| d in todo;
        RemoveMore(old(owners), name, done, d);
        RemoveOwnerOf(d, name);
        todo, done := todo - {d}, done + {d};
      }
      assert done == stale;
    }

    method UpsertEntry(d: Dest, entry: Entry, name: Name)
      modifies this
      ensures
        var m := old(Mem());
        Mem() == m.(imageState := m.imageState[d := MergedEntry(m, map[d := entry], name, d)],
                    owners := m.owners[d := AddOwner(OwnersOf(m.owners, d), name)])
    {
      if d in imageState {
        var e := imageState[d].(source := entry.source);
        if OnlyOwner(owners, d, name) {
          e := e.(meta := entry.meta);
        }
        imageState := imageState[d := e];
      } else {
        imageState := imageState[d := entry];
      }
      owners := owners[d := AddOwner(OwnersOf(owners, d), name)];
    }

    method RemoveOwnerOf(d: Dest, name: Name)
      modifies this`owners
      ensures owners == RemoveOwner(old(owners), d, name)
    {
      if !HasOwner(owners, d, name) {
        return;
      }
      var names: seq<Name> := [];
      for i := 0 to |owners[d]|
        invariant owners == old(owners) && names == Without(owners[d][..i], name)
      {
        assert owners[d][..i + 1][..i] == owners[d][..i];
        if owners[d][i] != name {
          names := names + [owners[d][i]];
        }
      }
      assert owners[d][..|owners[d]|] == owners[d];
      if names == [] {
        owners := owners - {d};
      } else {
        owners := owners[d := names];
      }
    }

    method RecordOwnerMetaOf(name: Name, resolved: EntryMap)
      modifies this`ownerMeta
      ensures Mem() == RecordOwnerMeta(old(Mem()), name, resolved)
    {
      ghost var m := Mem();
      ghost var done: set<Dest> := {};
      var todo := ownerMeta.Keys + resolved.Keys;
      RecordNone(m, name, resolved);
      while todo != {}
        invariant todo !! done && todo + done == m.ownerMeta.Keys + resolved.Keys
        invariant ownerMeta == RecordOn(m, name, resolved, done)
      {
        var d :| d in todo;
        RecordMore(m, name, resolved, done, d);
        RecordMetaOf(d, name, if d in resolved then Some(resolved[d].meta) else None);
        todo, done := todo - {d}, done + {d};
      }
      assert done == m.ownerMeta.Keys + resolved.Keys;
      RecordDone(m, name, resolved);
    }

    /** Sets or removes one ImageSet's metadata of d. */
    method RecordMetaOf(d: Dest, name: Name, meta: Option<SpecMeta>)
      modifies this`ownerMeta
      ensures ownerMeta == PutMeta(old(ownerMeta), d,
        if meta.Some? then MetaOf(old(ownerMeta), d)[name := meta.value] else MetaOf(old(ownerMeta), d) - {name})
    {
      var metas := MetaOf(ownerMeta, d);
      if meta.Some? {
        metas := metas[name := meta.value];
        assert name in metas;
        ownerMeta := ownerMeta[d := metas];
      } else {
        metas := metas - {name};
        if metas == map[] {
          ownerMeta := ownerMeta - {d};
        } else {
          ownerMeta := ownerMeta[d := metas];
        }
      }
    }

    /** The region after a resolve re-acquired the lock. */
    method FinishResolve(name: Name, resolved: EntryMap, merge: bool, recollect: bool, digests: map<string, string>)
      modifies this
      ensures Mem() == EndResolve(old(Mem()), name, resolved, merge, recollect, digests)
    {
      var updated := MergeWorkerUpdates(resolved, imageState);
      if merge {
        MergeResolvedIntoConsolidated(updated, name);
        RecordOwnerMetaOf(name, updated);
        stateDirty := true;
      }
      if recollect {
        ResetFailedForRecollect(name);
      }
      statusDirty := true;
      SetCatalogDigests(name, digests);
    }

    method SetCatalogDigests(name: Name, digests: map<string, string>)
      modifies this`catalogDigests, this`stateDirty
      ensures Mem() == ManagerModel.SetCatalogDigests(old(Mem()), name, digests)
    {
      if !((name in catalogDigests && catalogDigests[name] == digests) || (name !in catalogDigests && digests == map[])) {
        catalogDigests := catalogDigests[name := digests];
        stateDirty := true;
      }
    }

    // -------------------------------------------------------------- Phase D

    /** Sweeps orphans, advances the other entries and lists what is ready for a
        worker, bundle images first. */
    method ProcessEntries(now: int) returns (orphans: EntryMap, pending: seq<Dest>)
      modifies this
      ensures Mem() == Tick(old(Mem()), now)
      ensures orphans == Orphans(old(Mem()))
      ensures forall d :: d in pending <==> ReadyForWorker(old(Mem()), d)
      ensures Distinct(pending) && BundlesFirst(old(Mem()), pending)
    {
      ghost var m := Mem();
      ghost var done: set<Dest> := {};
      var todo := imageState.Keys;
      var bundles: seq<Dest>, others: seq<Dest> := [], [];
      orphans := map[];
      TickNone(m, now);
      while todo != {}
        invariant todo !! done && todo + done == m.imageState.Keys
        invariant Mem() == TickOn(m, now, done)
        invariant orphans == OrphansIn(m, done)
        invariant ListsReady(m, done, bundles, true) && ListsReady(m, done, others, false)
      {
        var d :| d in todo;
        TickUntouched(m, now, done, d);
        OrphansMore(m, done, d);
        var e := imageState[d];
        var orphan, listed := VisitEntry(m, done, d, now);
        if orphan {
          orphans := orphans[d := e];
        } else if listed && e.meta.isBundleImage {
          bundles := bundles + [d];
        } else if listed {
          others := others + [d];
        }
        ListsMore(m, done, d);
        todo, done := todo - {d}, done + {d};
      }
      assert done == m.imageState.Keys;
      BundlesThenOthers(m, bundles, others);
      pending := bundles + others;
    }

    /** One round of the Phase D loop. */
    method VisitEntry(ghost m: Memory, ghost done: set<Dest>, d: Dest, now: int) returns (orphan: bool, listed: bool)
      requires d in m.imageState && d !in done && Mem() == TickOn(m, now, done)
      modifies this
      ensures Mem() == TickOn(m, now, done + {d})
      ensures orphan == Orphaned(m, d) && listed == ReadyForWorker(m, d)
    {
      TickUntouched(m, now, done, d);
      if !(d in owners && owners[d] != []) {
        TickOrphan(m, now, done, d);
        imageState, owners, ownerMeta := imageState - {d}, owners - {d}, ownerMeta - {d};
        stateDirty := true;
        return true, false;
      }
      TickOwnedStep(m, now, done, d);
      listed := AdvanceEntry(d, now);
      orphan := false;
    }

    /** Phase D for one owned entry; listed if it is ready for a worker. */
    method AdvanceEntry(d: Dest, now: int) returns (listed: bool)
      requires d in imageState
      modifies this
      ensures
        var m, e := old(Mem()), old(imageState)[d];
        var e' := TickEntry(e, d in m.mirrored, now, EffectiveMaxRetries(m.maxRetries));
        && Mem() == m.(imageState := m.imageState[d := e'],
                       mirrored := if e.state == Mirrored then m.mirrored + {d} else m.mirrored,
                       stateDirty := m.stateDirty || e' != e)
        && (listed <==> e.state == Pending && d !in m.mirrored && !Busy(m, d))
    {
      var e := imageState[d];
      assert imageState[d := e] == imageState;
      if e.state == Mirrored {
        mirrored := mirrored + {d};
        return false;
      }
      if d in mirrored {
        imageState := imageState[d := e.(state := Mirrored)];
        stateDirty := true;
        return false;
      }
      if e.state == Failed {
        if e.retryCount < EffectiveMaxRetries(maxRetries) {
          if e.nextRetryAt.Some? && now < e.nextRetryAt.value {
            return false;
          }
          imageState := imageState[d := e.(state := Pending, nextRetryAt := None)];
          stateDirty := true;
        } else if !e.permanentlyFailed {
          imageState := imageState[d := e.(permanentlyFailed := true)];
          stateDirty := true;
        }
        return false;
      }
      return !(d in inProgress && inProgress[d] != "");
    }

    // ------------------------------------------------------------- dispatch

    /** Phase E: starts worker pods for consecutive batches of the pending list
        while fewer than `concurrency` pods are active. started has the pod of
        the batch at a position, unless starting it failed. */
    method StartBatches(pending: seq<Dest>, concurrency: int, batchSize: nat, started: map<nat, Pod>)
      requires batchSize > 0
      modifies this`inProgress
      ensures inProgress ==
        StartFrom(old(inProgress), old(inProgress).Values, pending, concurrency, batchSize, started, 0)
      ensures |inProgress.Values| <= concurrency || inProgress.Values <= old(inProgress).Values
    {
      StartBounded(inProgress, inProgress.Values, pending, concurrency, batchSize, started, 0, inProgress.Values);
      var active := inProgress.Values;
      ghost var goal := StartFrom(inProgress, active, pending, concurrency, batchSize, started, 0);
      var i := 0;
      while i < |pending| && |active| < concurrency
        invariant goal == StartFrom(inProgress, active, pending, concurrency, batchSize, started, i)
      {
        StartStep(inProgress, active, pending, concurrency, batchSize, started, i);
        if i in started {
          TrackBatch(pending[i..BatchEnd(pending, batchSize, i)], started[i]);
          active := active + {started[i]};
        }
        i := i + batchSize;
      }
    }

    method TrackBatch(batch: seq<Dest>, pod: Pod)
      modifies this`inProgress
      ensures inProgress == old(inProgress) + Batch(batch, pod)
    {
      for k := 0 to |batch|
        invariant inProgress == old(inProgress) + Batch(batch[..k], pod)
      {
        assert batch[..k + 1] == batch[..k] + [batch[k]];
        inProgress := inProgress[batch[k] := pod];
      }
      assert batch[..|batch|] == batch;
    }

    // ---------------------------------------------------- removed ImageSets

    method DropRemovedImageSets(spec: set<Name>)
      modifies this
      ensures Mem() == DropRemoved(old(Mem()), spec)
    {
      ghost var m := Mem();
      ghost var done: set<Dest> := {};
      var todo := owners.Keys;
      DropNone(m, spec);
      while todo != {}
        invariant todo !! done && todo + done == m.owners.Keys
        invariant Mem() == DropOn(m, spec, done)
      {
        var d :| d in todo;
        DropOwnersOf(m, done, d, spec);
        todo, done := todo - {d}, done + {d};
      }
      assert done == m.owners.Keys;
      catalogDigests := map n | n in catalogDigests && n in spec :: catalogDigests[n];
    }

    method DropOwnersOf(ghost m: Memory, ghost done: set<Dest>, d: Dest, spec: set<Name>)
      requires d in m.owners && d !in done && Mem() == DropOn(m, spec, done)
      modifies this
      ensures Mem() == DropOn(m, spec, done + {d})
    {
      DropUntouched(m, spec, done, d);
      var kept := NamesIn(owners[d], spec);
      KeepNamesFacts(m.owners[d], spec);
      if |kept| == |owners[d]| {
        DropSame(m, spec, done, d);
      } else if kept != [] {
        DropShrink(m, spec, done, d);
        KeepOwners(m, d, kept, spec);
      } else {
        DropLast(m, spec, done, d);
        ForgetDestination(d);
      }
    }

    method ForgetDestination(d: Dest)
      modifies this
      ensures
        var p := old(Mem());
        Mem() == p.(imageState := p.imageState - {d}, owners := p.owners - {d}, ownerMeta := p.ownerMeta - {d},
                    mirrored := p.mirrored - {d}, stateDirty := true)
    {
      owners, ownerMeta, stateDirty := owners - {d}, ownerMeta - {d}, true;
      imageState, mirrored := imageState - {d}, mirrored - {d};
    }

    method KeepOwners(ghost m: Memory, d: Dest, kept: seq<Name>, spec: set<Name>)
      requires d in m.owners && kept == KeepNames(m.owners[d], spec)
      requires MetaOf(ownerMeta, d) == MetaOf(m.ownerMeta, d) && (d in ownerMeta <==> d in m.ownerMeta)
      modifies this
      ensures
        var p := old(Mem());
        Mem() == p.(owners := p.owners[d := kept],
                    ownerMeta := if d in m.ownerMeta then PutMeta(p.ownerMeta, d, PrunedMeta(m, spec, d)) else p.ownerMeta,
                    stateDirty := true)
    {
      owners, stateDirty := owners[d := kept], true;
      if d in ownerMeta {
        PruneOwnerMeta(m, d, spec);
      }
    }

    static method NamesIn(names: seq<Name>, spec: set<Name>) returns (kept: seq<Name>)
      ensures kept == KeepNames(names, spec)
    {
      kept := [];
      for i := 0 to |names|
        invariant kept == KeepNames(names[..i], spec)
      {
        assert names[..i + 1][..i] == names[..i];
        if names[i] in spec {
          kept := kept + [names[i]];
        }
      }
      assert names[..|names|] == names;
    }

    /** Drops the metadata of owners d no longer has. */
    method PruneOwnerMeta(ghost m: Memory, d: Dest, spec: set<Name>)
      requires d in ownerMeta && d in m.ownerMeta && ownerMeta[d] == m.ownerMeta[d]
      requires d in m.owners && OwnersOf(owners, d) == KeepNames(m.owners[d], spec)
      modifies this`ownerMeta
      ensures ownerMeta == PutMeta(old(ownerMeta), d, PrunedMeta(m, spec, d))
    {
      KeepNamesFacts(m.owners[d], spec);
      var metas := map n | n in ownerMeta[d] && HasOwner(owners, d, n) :: ownerMeta[d][n];
      assert metas == PrunedMeta(m, spec, d);
      if metas == map[] {
        ownerMeta := ownerMeta - {d};
      } else {
        ownerMeta := ownerMeta[d := metas];
      }
    }

    // --------------------------------------------------------------- storage

    /** Writes each ImageSet's ConfigMap, the shared index and the summary counts,
        as far as they can be written; clean only if every write succeeded. */
    method FlushPartitionedState(spec: seq<Name>, writable: set<Name>, indexWritable: bool, countsWritable: bool,
                                 store: map<Name, ConfigMap>, index: SharedIndex, counts: Counts)
      returns (store': map<Name, ConfigMap>, index': SharedIndex, counts': Counts)
      modifies this`stateDirty
      ensures store' == Written(old(Mem()), store, (set n | n in spec) * writable)
      ensures index' == if indexWritable then FlushedIndex(old(Mem())) else index
      ensures counts' == if countsWritable then CountsOf(Counted(old(Mem()), spec)) else counts
      ensures stateDirty == (old(stateDirty) && !((set n | n in spec) <= writable && indexWritable && countsWritable))
    {
      index', counts' := index, counts;
      var built := BuildIndex();
      store' := WriteConfigMaps((set n | n in spec) * writable, store);
      if indexWritable {
        index' := built;
      }
      if countsWritable {
        counts' := Count(Counted(Mem(), spec));
      }
      if (set n | n in spec) <= writable && indexWritable && countsWritable {
        stateDirty := false;
      }
    }

    method WriteConfigMaps(names: set<Name>, store: map<Name, ConfigMap>) returns (store': map<Name, ConfigMap>)
      ensures store' == Written(Mem(), store, names)
    {
      ghost var done: set<Name> := {};
      var todo := names;
      store' := store;
      WrittenMore(Mem(), store, {}, "");
      while todo != {}
        invariant todo !! done && todo + done == names
        invariant store' == Written(Mem(), store, done)
      {
        var n :| n in todo;
        WrittenMore(Mem(), store, done, n);
        var entries := BuildConfigMap(n);
        store' := store'[n := ConfigMap(entries, if n in catalogDigests then catalogDigests[n] else map[])];
        todo, done := todo - {n}, done + {n};
      }
      assert done == names;
    }

    method BuildConfigMap(name: Name) returns (entries: EntryMap)
      ensures entries == View(Mem(), name)
    {
      ghost var done: set<Dest> := {};
      var todo := imageState.Keys;
      entries := map[];
      while todo != {}
        invariant todo !! done && todo + done == imageState.Keys
        invariant entries == FlushOn(Mem(), name, done)
      {
        var d :| d in todo;
        FlushMore(Mem(), name, done, d);
        if HasOwner(owners, d, name) {
          entries := entries[d := OwnerView(Mem(), d, name)];
        }
        todo, done := todo - {d}, done + {d};
      }
      assert done == imageState.Keys;
      FlushDone(Mem(), name);
    }

    method BuildIndex() returns (index: SharedIndex)
      ensures index == FlushedIndex(Mem())
    {
      ghost var done: set<Dest> := {};
      var todo := imageState.Keys;
      index := map[];
      while todo != {}
        invariant todo !! done && todo + done == imageState.Keys
        invariant index == IndexOn(Mem(), done)
      {
        var d :| d in todo;
        IndexMore(Mem(), done, d);
        if d in owners && |owners[d]| > 1 {
          index := index[d := owners[d]];
        }
        todo, done := todo - {d}, done + {d};
      }
      assert done == imageState.Keys;
    }

    method LoadPartitionedState(stored: seq<Stored>)
      modifies this
      ensures Mem() == Load(old(Mem()), stored)
    {
      imageState, owners, ownerMeta, catalogDigests := map[], map[], map[], map[];
      LoadConfigMaps(stored);
    }

    method LoadConfigMaps(stored: seq<Stored>)
      modifies this
      ensures Mem() == LoadAll(old(Mem()), stored)
    {
      ghost var start := Mem();
      for i := 0 to |stored|
        invariant Mem() == LoadAll(start, stored[..i])
      {
        LoadConfigMap(stored[i]);
        LoadAllMore(start, stored, i);
      }
      assert stored[..|stored|] == stored;
    }

    method LoadConfigMap(s: Stored)
      modifies this
      ensures Mem() == LoadOne(old(Mem()), s)
    {
      ghost var m := Mem();
      ghost var done: set<Dest> := {};
      var todo := s.cm.entries.Keys;
      LoadNone(m, s);
      while todo != {}
        invariant todo !! done && todo + done == s.cm.entries.Keys
        invariant Mem() == LoadOn(m, s, done)
      {
        var d :| d in todo;
        LoadMore(m, s, done, d);
        LoadEntry(d, s.cm.entries[d], s.name);
        todo, done := todo - {d}, done + {d};
      }
      assert done == s.cm.entries.Keys;
      LoadDone(m, s);
      var digests := s.cm.digests;
      if digests == map[] && s.cm.entries != map[] {
        digests := s.annotations;
      }
      catalogDigests := catalogDigests[s.name := digests];
    }

    method LoadEntry(d: Dest, e: Entry, name: Name)
      modifies this
      ensures
        var p := old(Mem());
        Mem() == p.(imageState := p.imageState[d := if d in p.imageState then MergeLoadedEntry(p.imageState[d], e) else e],
                    owners := p.owners[d := AddOwner(OwnersOf(p.owners, d), name)],
                    ownerMeta := p.ownerMeta[d := MetaOf(p.ownerMeta, d)[name := e.meta]])
    {
      owners := owners[d := AddOwner(OwnersOf(owners, d), name)];
      ownerMeta := ownerMeta[d := MetaOf(ownerMeta, d)[name := e.meta]];
      imageState := imageState[d := if d in imageState then MergeLoadedEntry(imageState[d], e) else e];
    }
  }

  /** list holds, once each, the ready destinations of one kind among done. */
  ghost predicate ListsReady(m: Memory, done: set<Dest>, list: seq<Dest>, bundle: bool)
  {
    && Distinct(list)
    && forall d :: d in list <==> d in done && ReadyForWorker(m, d) && m.imageState[d].meta.isBundleImage == bundle
  }

  lemma ListsMore(m: Memory, done: set<Dest>, d: Dest)
    requires d in m.imageState && d !in done
    ensures forall list, bundle :: ListsReady(m, done, list, bundle) ==>
      if ReadyForWorker(m, d) && m.imageState[d].meta.isBundleImage == bundle
      then ListsReady(m, done + {d}, list + [d], bundle)
      else ListsReady(m, done + {d}, list, bundle)
  {
  }

  /** No bundle image comes after another kind of image. */
  ghost predicate BundlesFirst(m: Memory, list: seq<Dest>)
  {
    forall i, j :: 0 <= i < j < |list| && list[i] in m.imageState && list[j] in m.imageState ==>
      (m.imageState[list[j]].meta.isBundleImage ==> m.imageState[list[i]].meta.isBundleImage)
  }

  lemma BundlesThenOthers(m: Memory, bundles: seq<Dest>, others: seq<Dest>)
    requires ListsReady(m, m.imageState.Keys, bundles, true) && ListsReady(m, m.imageState.Keys, others, false)
    ensures Distinct(bundles + others) && BundlesFirst(m, bundles + others)
    ensures forall d :: d in bundles + others <==> ReadyForWorker(m, d)
  {
    var list := bundles + others;
    forall i | 0 <= i < |list|
      ensures list[i] in m.imageState && (m.imageState[list[i]].meta.isBundleImage <==> i < |bundles|)
    {
      assert i < |bundles| ==> list[i] in bundles;
      assert i >= |bundles| ==> list[i] in others;
    }
    forall i, j | 0 <= i < j < |list| ensures list[i] != list[j]
    {
      if j < |bundles| {
        assert bundles[i] != bundles[j];
      } else if i >= |bundles| {
        assert others[i - |bundles|] != others[j - |bundles|];
      }
    }
  }
}

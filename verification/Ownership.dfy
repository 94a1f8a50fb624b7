/** Ownership and per-owner spec metadata: which regions leave them alone, and
    that merging one ImageSet's resolve does not interfere with the others. */
module Ownership {
  import opened Options
  import opened ImageState
  import opened ManagerModel
  import opened Lifecycle

  /** Ownership is recorded for live destinations only, once per ImageSet. */
  ghost predicate OwnersLive(m: Memory)
  {
    && m.owners.Keys <= m.imageState.Keys
    && m.ownerMeta.Keys <= m.imageState.Keys
    && forall d :: d in m.owners ==> Distinct(m.owners[d])
  }

  /** Same live destinations, owners, sources and spec metadata. */
  ghost predicate SameSpec(m: Memory, m': Memory)
  {
    && m'.imageState.Keys == m.imageState.Keys
    && (forall d :: d in m.imageState ==>
          m'.imageState[d].meta == m.imageState[d].meta && m'.imageState[d].source == m.imageState[d].source)
    && m'.owners == m.owners && m'.ownerMeta == m.ownerMeta
    && m'.catalogDigests == m.catalogDigests
  }

  predicate Owns(m: Memory, name: Name, d: Dest)
  {
    d in m.imageState && HasOwner(m.owners, d, name)
  }

  /** The spec metadata of every destination name owns. */
  function OwnedMeta(m: Memory, name: Name): map<Dest, SpecMeta>
  {
    map d | d in m.imageState && Owns(m, name, d) :: OwnerView(m, d, name).meta
  }

  lemma OwnedMetaSame(m: Memory, m': Memory, name: Name)
    requires forall d :: Owns(m', name, d) <==> Owns(m, name, d)
    requires forall d :: Owns(m, name, d) && Owns(m', name, d) ==>
      OwnerView(m', d, name).meta == OwnerView(m, d, name).meta
    ensures OwnedMeta(m', name) == OwnedMeta(m, name)
  {
  }

  lemma OwnedMetaIs(m: Memory, name: Name, metas: map<Dest, SpecMeta>)
    requires forall d :: Owns(m, name, d) <==> d in metas
    requires forall d :: d in metas && Owns(m, name, d) ==> OwnerView(m, d, name).meta == metas[d]
    ensures OwnedMeta(m, name) == metas
  {
  }

  lemma SameSpecOwned(m: Memory, m': Memory, name: Name)
    requires SameSpec(m, m')
    ensures OwnedMeta(m', name) == OwnedMeta(m, name)
    ensures OwnersLive(m) ==> OwnersLive(m')
  {
  }

  // ------------------------------------------------- lifecycle-only regions

  lemma {:induction false} ReportsSameSpec(m: Memory, rs: seq<Report>)
    ensures SameSpec(m, ApplyAll(m, rs))
    ensures ApplyAll(m, rs).queue == m.queue
    ensures ApplyAll(m, rs).maxRetries == m.maxRetries
  {
    if rs != [] {
      var n := |rs| - 1;
      ReportsSameSpec(m, rs[..n]);
      ReportTouches(ApplyAll(m, rs[..n]), rs[n]);
    }
  }

  lemma CleanupOneSameSpec(m: Memory, f: Finished)
    ensures SameSpec(m, CleanupOne(m, f))
    ensures CleanupOne(m, f).queue == m.queue && CleanupOne(m, f).maxRetries == m.maxRetries
  {
  }

  lemma {:induction false} CleanupAllSameSpec(m: Memory, done: seq<Finished>)
    ensures SameSpec(m, CleanupAll(m, done))
    ensures CleanupAll(m, done).queue == m.queue && CleanupAll(m, done).maxRetries == m.maxRetries
  {
    if done != [] {
      CleanupAllSameSpec(m, done[..|done| - 1]);
      CleanupOneSameSpec(CleanupAll(m, done[..|done| - 1]), done[|done| - 1]);
    }
  }

  lemma CleanupSameSpec(m: Memory, done: seq<Finished>)
    ensures SameSpec(m, Cleanup(m, done))
  {
    ReportsSameSpec(m.(queue := []), m.queue);
    CleanupAllSameSpec(Drain(m), done);
  }

  lemma DriftSameSpec(m: Memory, d: Dest, snap: Entry, p: Probe)
    ensures SameSpec(m, DriftApply(m, d, snap, p))
  {
    DriftTouches(m, d, snap, p);
  }

  lemma ResetsSameSpec(m: Memory, name: Name)
    ensures SameSpec(m, Resync(m, name)) && SameSpec(m, RecollectReset(m, name))
  {
    ResyncSameSpec(m, name);
    RecollectSameSpec(m, name);
  }

  lemma ResyncSameSpec(m: Memory, name: Name)
    ensures SameSpec(m, Resync(m, name))
  {
    forall d | d in m.imageState
      ensures
        var e := Resync(m, name).imageState[d];
        e.meta == m.imageState[d].meta && e.source == m.imageState[d].source
    {
    }
  }

  lemma RecollectSameSpec(m: Memory, name: Name)
    ensures SameSpec(m, RecollectReset(m, name))
  {
    forall d | d in m.imageState
      ensures
        var e := RecollectReset(m, name).imageState[d];
        e.meta == m.imageState[d].meta && e.source == m.imageState[d].source
    {
    }
  }

  // -------------------------------------------------------------------- tick

  lemma TickOwnedAt(m: Memory, now: int, name: Name, d: Dest)
    ensures Owns(Tick(m, now), name, d) <==> Owns(m, name, d)
    ensures Owns(m, name, d) ==> OwnerView(Tick(m, now), d, name).meta == OwnerView(m, d, name).meta
  {
  }

  lemma TickKeepsLive(m: Memory, now: int)
    requires OwnersLive(m)
    ensures OwnersLive(Tick(m, now))
  {
  }

  /** Advancing entries and sweeping orphans takes nothing from any owner. */
  lemma TickOwned(m: Memory, now: int, name: Name)
    ensures OwnedMeta(Tick(m, now), name) == OwnedMeta(m, name)
  {
    forall d
      ensures Owns(Tick(m, now), name, d) <==> Owns(m, name, d)
      ensures Owns(m, name, d) ==> OwnerView(Tick(m, now), d, name).meta == OwnerView(m, d, name).meta
    {
      TickOwnedAt(m, now, name, d);
    }
    OwnedMetaSame(m, Tick(m, now), name);
  }

  lemma DropOwnedAt(m: Memory, spec: set<Name>, name: Name, d: Dest)
    ensures Owns(DropRemoved(m, spec), name, d) <==> Owns(m, name, d) && name in spec
    ensures d in DropRemoved(m, spec).owners && Distinct(OwnersOf(m.owners, d)) ==>
      Distinct(DropRemoved(m, spec).owners[d])
  {
    if d in m.owners {
      KeepNamesFacts(m.owners[d], spec);
    }
  }

  lemma DropKeepsLive(m: Memory, spec: set<Name>)
    requires OwnersLive(m)
    ensures OwnersLive(DropRemoved(m, spec))
  {
    forall d | d in DropRemoved(m, spec).owners ensures Distinct(DropRemoved(m, spec).owners[d])
    {
      DropOwnedAt(m, spec, "", d);
    }
  }

  /** Removing other ImageSets from the target leaves a remaining one alone. */
  lemma DropOwned(m: Memory, spec: set<Name>, name: Name)
    ensures name in spec ==> OwnedMeta(DropRemoved(m, spec), name) == OwnedMeta(m, name)
    ensures name !in spec ==> OwnedMeta(DropRemoved(m, spec), name) == map[]
  {
    forall d ensures Owns(DropRemoved(m, spec), name, d) <==> Owns(m, name, d) && name in spec
    {
      DropOwnedAt(m, spec, name, d);
    }
    if name in spec {
      forall d | Owns(m, name, d)
        ensures OwnerView(DropRemoved(m, spec), d, name).meta == OwnerView(m, d, name).meta
      {
        KeepNamesFacts(m.owners[d], spec);
        DropMeta(m, spec, name, d);
      }
      OwnedMetaSame(m, DropRemoved(m, spec), name);
    }
  }

  lemma DropMeta(m: Memory, spec: set<Name>, name: Name, d: Dest)
    requires d in m.imageState && HasOwner(m.owners, d, name) && name in spec
    requires !Abandoned(m, spec, d)
    ensures
      var metas, metas' := MetaOf(m.ownerMeta, d), MetaOf(DropRemoved(m, spec).ownerMeta, d);
      (name in metas' <==> name in metas) && (name in metas ==> metas'[name] == metas[name])
  {
    if d in m.ownerMeta && name in m.ownerMeta[d] {
      assert name in PrunedMeta(m, spec, d);
    }
  }

  // ------------------------------------------------------------ resolve merge

  lemma WorkerUpdatesMeta(m: Memory, resolved: EntryMap, d: Dest)
    requires d in resolved
    ensures
      var e := MergeWorkerUpdates(resolved, m.imageState)[d];
      && e.meta == resolved[d].meta && e.source == resolved[d].source
      && (d !in m.imageState ==> e == resolved[d])
  {
  }

  /** mergeWorkerUpdates has no effect on the outcome: the lifecycle fields it
      copies are discarded by the merge for every live destination. */
  lemma WorkerUpdatesRedundant(m: Memory, resolved: EntryMap, name: Name)
    ensures MergeResolved(m, MergeWorkerUpdates(resolved, m.imageState), name) == MergeResolved(m, resolved, name)
  {
    var updated := MergeWorkerUpdates(resolved, m.imageState);
    forall d | d in m.imageState.Keys + resolved.Keys
      ensures MergedEntry(m, updated, name, d) == MergedEntry(m, resolved, name, d)
    {
      if d in resolved { WorkerUpdatesMeta(m, resolved, d); }
    }
    MergeResolvedSame(m, updated, resolved, name);
  }

  lemma MergeResolvedSame(m: Memory, a: EntryMap, b: EntryMap, name: Name)
    requires a.Keys == b.Keys
    requires forall d :: d in m.imageState.Keys + b.Keys ==> MergedEntry(m, a, name, d) == MergedEntry(m, b, name, d)
    ensures MergeResolved(m, a, name) == MergeResolved(m, b, name)
  {
    forall d ensures MergedOwners(m, a, name, d) == MergedOwners(m, b, name, d)
    {
    }
    assert MergeResolved(m, a, name).imageState == MergeResolved(m, b, name).imageState;
    assert MergeResolved(m, a, name).owners == MergeResolved(m, b, name).owners;
  }

  lemma WorkerUpdatesRecord(m: Memory, m0: Memory, resolved: EntryMap, name: Name)
    ensures RecordOwnerMeta(m, name, MergeWorkerUpdates(resolved, m0.imageState)) == RecordOwnerMeta(m, name, resolved)
  {
    var updated := MergeWorkerUpdates(resolved, m0.imageState);
    assert updated.Keys == resolved.Keys;
    forall d ensures RecordedMeta(m, name, updated, d) == RecordedMeta(m, name, resolved, d)
    {
      if d in resolved { WorkerUpdatesMeta(m0, resolved, d); }
    }
  }

  /** The merged memory of one resolve. */
  function Merged(m: Memory, resolved: EntryMap, name: Name): Memory
  {
    RecordOwnerMeta(MergeResolved(m, resolved, name), name, resolved)
  }

  lemma MergedOwnersFacts(m: Memory, resolved: EntryMap, name: Name, d: Dest, n: Name)
    requires OwnersLive(m)
    ensures HasOwner(MergeResolved(m, resolved, name).owners, d, n) <==>
      (if n == name then d in resolved else HasOwner(m.owners, d, n))
  {
    WithoutFacts(OwnersOf(m.owners, d), name);
  }

  lemma MergedKeepsLive(m: Memory, resolved: EntryMap, name: Name)
    requires OwnersLive(m)
    ensures OwnersLive(Merged(m, resolved, name))
  {
    var m' := Merged(m, resolved, name);
    forall d | d in m'.owners ensures Distinct(m'.owners[d])
    {
      WithoutFacts(OwnersOf(m.owners, d), name);
      assert Distinct(OwnersOf(m.owners, d));
    }
  }

  /** Whatever the live state is by the time the resolve comes back: its merge
      changes no lifecycle field of an existing destination, ... */
  lemma MergeKeepsLifecycle(m: Memory, resolved: EntryMap, name: Name)
    ensures Merged(m, resolved, name).imageState.Keys == m.imageState.Keys + resolved.Keys
    ensures forall d :: d in m.imageState ==>
      SameLifecycle(m.imageState[d], Merged(m, resolved, name).imageState[d])
    ensures Merged(m, resolved, name).mirrored == m.mirrored
    ensures Merged(m, resolved, name).inProgress == m.inProgress
  {
  }

  lemma MergeOwnsAt(m: Memory, resolved: EntryMap, name: Name, d: Dest)
    requires OwnersLive(m)
    ensures Owns(Merged(m, resolved, name), name, d) <==> d in resolved
    ensures d in resolved ==> OwnerView(Merged(m, resolved, name), d, name).meta == resolved[d].meta
  {
    MergedOwnersFacts(m, resolved, name, d, name);
    if d in resolved {
      assert name in RecordedMeta(MergeResolved(m, resolved, name), name, resolved, d);
    }
  }

  /** ... makes the owned set exactly the resolved one, with the resolved metadata, ... */
  lemma MergeOwns(m: Memory, resolved: EntryMap, name: Name)
    requires OwnersLive(m)
    ensures OwnedMeta(Merged(m, resolved, name), name) == (map d | d in resolved :: resolved[d].meta)
  {
    forall d
      ensures Owns(Merged(m, resolved, name), name, d) <==> d in resolved
      ensures d in resolved ==> OwnerView(Merged(m, resolved, name), d, name).meta == resolved[d].meta
    {
      MergeOwnsAt(m, resolved, name, d);
    }
    OwnedMetaIs(Merged(m, resolved, name), name, map d | d in resolved :: resolved[d].meta);
  }

  /** ... and leaves the owned set and the view of every other ImageSet as they
      were, except that a shared destination gets the refreshed source. */
  lemma MergeDoesNotInterfere(m: Memory, resolved: EntryMap, name: Name, other: Name)
    requires OwnersLive(m) && other != name
    ensures View(Merged(m, resolved, name), other).Keys == View(m, other).Keys
    ensures forall d :: d in View(m, other) ==>
      View(Merged(m, resolved, name), other)[d] ==
        if d in resolved then View(m, other)[d].(source := resolved[d].source) else View(m, other)[d]
  {
    var m' := Merged(m, resolved, name);
    forall d ensures d in View(m', other) <==> d in View(m, other)
    {
      MergedOwnersFacts(m, resolved, name, d, other);
    }
    forall d | d in View(m, other)
      ensures View(m', other)[d] ==
        if d in resolved then View(m, other)[d].(source := resolved[d].source) else View(m, other)[d]
    {
      MergedOtherView(m, resolved, name, other, d);
    }
  }

  lemma MergeOtherOwned(m: Memory, resolved: EntryMap, name: Name, other: Name)
    requires OwnersLive(m) && other != name
    ensures OwnedMeta(Merged(m, resolved, name), other) == OwnedMeta(m, other)
  {
    forall d
      ensures Owns(Merged(m, resolved, name), other, d) <==> Owns(m, other, d)
      ensures Owns(m, other, d) ==>
        OwnerView(Merged(m, resolved, name), d, other).meta == OwnerView(m, d, other).meta
    {
      MergedOwnersFacts(m, resolved, name, d, other);
      if Owns(m, other, d) { MergedOtherView(m, resolved, name, other, d); }
    }
    OwnedMetaSame(m, Merged(m, resolved, name), other);
  }

  lemma MergedOtherView(m: Memory, resolved: EntryMap, name: Name, other: Name, d: Dest)
    requires other != name && d in m.imageState && HasOwner(m.owners, d, other)
    ensures OwnerView(Merged(m, resolved, name), d, other) ==
      if d in resolved then OwnerView(m, d, other).(source := resolved[d].source) else OwnerView(m, d, other)
  {
    assert !OnlyOwner(m.owners, d, name);
    var metas := RecordedMeta(MergeResolved(m, resolved, name), name, resolved, d);
    assert other in metas <==> other in MetaOf(m.ownerMeta, d);
    assert MetaOf(Merged(m, resolved, name).ownerMeta, d) == metas;
  }

  /** The region after a resolve, without its bookkeeping of dirty marks. */
  function ResolveCore(m: Memory, name: Name, resolved: EntryMap, merge: bool, recollect: bool): Memory
  {
    var core := if merge then Merged(m, resolved, name) else m;
    if recollect then RecollectReset(core, name) else core
  }

  /** Equal up to dirty marks and recorded catalog digests. */
  ghost predicate SameData(a: Memory, b: Memory)
  {
    && a.imageState == b.imageState && a.owners == b.owners && a.ownerMeta == b.ownerMeta
    && a.mirrored == b.mirrored && a.inProgress == b.inProgress && a.queue == b.queue
    && a.maxRetries == b.maxRetries
  }

  lemma RecollectSameData(a: Memory, b: Memory, name: Name)
    requires SameData(a, b)
    ensures SameData(RecollectReset(a, name), RecollectReset(b, name))
  {
    assert forall d :: RecollectHits(a, name, d) == RecollectHits(b, name, d);
  }

  lemma MergedWithUpdates(m: Memory, resolved: EntryMap, name: Name)
    ensures
      var updated := MergeWorkerUpdates(resolved, m.imageState);
      RecordOwnerMeta(MergeResolved(m, updated, name), name, updated) == Merged(m, resolved, name)
  {
    WorkerUpdatesRedundant(m, resolved, name);
    WorkerUpdatesRecord(MergeResolved(m, resolved, name), m, resolved, name);
  }

  lemma DigestsSameData(m: Memory, name: Name, digests: map<string, string>)
    ensures SameData(SetCatalogDigests(m.(statusDirty := true), name, digests), m)
  {
  }

  lemma EndResolveIsCore(m: Memory, name: Name, resolved: EntryMap, merge: bool, recollect: bool,
                         digests: map<string, string>)
    ensures SameData(EndResolve(m, name, resolved, merge, recollect, digests),
                     ResolveCore(m, name, resolved, merge, recollect))
  {
    MergedWithUpdates(m, resolved, name);
    FinishIsCore(if merge then Merged(m, resolved, name) else m, merge, name, recollect, digests);
  }

  lemma FinishIsCore(core: Memory, merge: bool, name: Name, recollect: bool, digests: map<string, string>)
    ensures
      var m1 := if merge then core.(stateDirty := true) else core;
      var m2 := if recollect then RecollectReset(m1, name) else m1;
      SameData(SetCatalogDigests(m2.(statusDirty := true), name, digests),
               if recollect then RecollectReset(core, name) else core)
  {
    var m1 := if merge then core.(stateDirty := true) else core;
    RecollectSameData(m1, core, name);
    DigestsSameData(if recollect then RecollectReset(m1, name) else m1, name, digests);
  }
}

/** The manager's in-memory working set and what each lock-held region of the
    code does to it, as functions on values. The class MirrorManager carries
    out the same regions in place. */
module ManagerModel {
  import opened Options
  import opened ImageState

  type Pod = string

  /** A worker report. retryAt is the backoff deadline drawn in case the report
      is counted as a failed attempt. */
  datatype Report = Report(dest: Dest, pod: Pod, error: string, digest: string, retryAt: int)

  /** mirrored holds the destinations whose fast-path flag is true. */
  datatype Memory = Memory(
    imageState: EntryMap,
    owners: map<Dest, seq<Name>>,
    ownerMeta: map<Dest, map<Name, SpecMeta>>,
    mirrored: set<Dest>,
    inProgress: map<Dest, Pod>,
    queue: seq<Report>,
    catalogDigests: map<Name, map<string, string>>,
    maxRetries: int,
    stateDirty: bool,
    statusDirty: bool)

  const FRESH := Memory(map[], map[], map[], {}, map[], [], map[], 0, false, false)
  const DEFAULT_MAX_RETRIES: int := 10

  function EffectiveMaxRetries(maxRetries: int): int
  {
    if maxRetries > 0 then maxRetries else DEFAULT_MAX_RETRIES
  }

  function OwnersOf(owners: map<Dest, seq<Name>>, d: Dest): seq<Name>
  {
    if d in owners then owners[d] else []
  }

  predicate HasOwner(owners: map<Dest, seq<Name>>, d: Dest, name: Name)
  {
    name in OwnersOf(owners, d)
  }

  predicate OnlyOwner(owners: map<Dest, seq<Name>>, d: Dest, name: Name)
  {
    forall n :: n in OwnersOf(owners, d) ==> n == name
  }

  predicate Busy(m: Memory, d: Dest)
  {
    d in m.inProgress && m.inProgress[d] != ""
  }

  // ------------------------------------------------------------ worker reports

  function RecordFailure(e: Entry, max: int, retryAt: int): Entry
  {
    e.(retryCount := e.retryCount + 1,
       nextRetryAt := Some(retryAt),
       permanentlyFailed := e.permanentlyFailed || e.retryCount + 1 >= max)
  }

  function SetEntryState(e: Entry, st: State, err: string, max: int, retryAt: int): Entry
  {
    if e.state == st && e.lastError == err then e else
      var e' := e.(state := st, lastError := err);
      if st == Failed then RecordFailure(e', max, retryAt) else e'.(nextRetryAt := None)
  }

  /** A change to one live destination: its new entry, its fast-path flag (None
      leaves it) and what becomes dirty. */
  datatype Change = Change(entry: Entry, flag: Option<bool>, stateDirty: bool, statusDirty: bool)

  function Keep(e: Entry): Change
  {
    Change(e, None, false, false)
  }

  function Put(m: Memory, d: Dest, c: Change): Memory
  {
    m.(imageState := m.imageState[d := c.entry],
       mirrored := if c.flag.None? then m.mirrored
                   else if c.flag.value then m.mirrored + {d} else m.mirrored - {d},
       stateDirty := m.stateDirty || c.stateDirty,
       statusDirty := m.statusDirty || c.statusDirty)
  }

  /** setImageStateLocked on a live entry. */
  function StateChange(e: Entry, st: State, err: string, max: int, retryAt: int): Change
  {
    if e.state == st && e.lastError == err then Keep(e)
    else Change(SetEntryState(e, st, err, max, retryAt), if st != Mirrored then Some(false) else None, true, true)
  }

  function SetImageState(m: Memory, d: Dest, st: State, err: string, retryAt: int): Memory
  {
    if d !in m.imageState then m
    else Put(m, d, StateChange(m.imageState[d], st, err, EffectiveMaxRetries(m.maxRetries), retryAt))
  }

  /** What a report does to a live entry. */
  function ReportChange(e: Entry, r: Report, max: int): Change
  {
    if r.error != "" then StateChange(e, Failed, r.error, max, r.retryAt) else
      var c := StateChange(e, Mirrored, "", max, r.retryAt).(flag := Some(true));
      if e.meta.origin == OriginAdditional && r.digest != ""
      then c.(entry := c.entry.(sourceDigest := r.digest), stateDirty := true)
      else c
  }

  /** applyStatusLocked */
  function ApplyStatus(m: Memory, r: Report): Memory
  {
    var m' := if r.dest !in m.imageState then m
              else Put(m, r.dest, ReportChange(m.imageState[r.dest], r, EffectiveMaxRetries(m.maxRetries)));
    m'.(inProgress := m.inProgress - {r.dest}, statusDirty := true)
  }

  function ApplyAll(m: Memory, reports: seq<Report>): Memory
  {
    if reports == [] then m
    else ApplyStatus(ApplyAll(m, reports[..|reports| - 1]), reports[|reports| - 1])
  }

  /** drainStatusQueueLocked */
  function Drain(m: Memory): Memory
  {
    ApplyAll(m.(queue := []), m.queue)
  }

  // --------------------------------------------------------------- pod cleanup

  /** A tracked destination whose pod was seen finished; failed is false for a
      pod that succeeded or is gone. */
  datatype Finished = Finished(dest: Dest, pod: Pod, failed: bool)

  function CleanupOne(m: Memory, f: Finished): Memory
  {
    if f.dest in m.inProgress && m.inProgress[f.dest] == f.pod then
      var m' := m.(inProgress := m.inProgress - {f.dest});
      if f.failed then SetImageState(m', f.dest, Pending, "", 0) else m'
    else m
  }

  function CleanupAll(m: Memory, done: seq<Finished>): Memory
  {
    if done == [] then m else CleanupOne(CleanupAll(m, done[..|done| - 1]), done[|done| - 1])
  }

  /** The locked region of cleanupFinishedWorkers: reports first, then pods. */
  function Cleanup(m: Memory, done: seq<Finished>): Memory
  {
    if done == [] then m else CleanupAll(Drain(m), done)
  }

  // --------------------------------------------------------------- drift check

  /** What the registry and signature lookups of one drift check returned.
      digest and signature are None when not looked up or not resolvable. */
  datatype Probe =
    Probe(failed: bool, present: bool, digest: Option<string>, signature: Option<bool>, retryAt: int)

  predicate RecoveryCheck(e: Entry)
  {
    e.state == Failed && e.permanentlyFailed
  }

  /** First locked region of checkDriftAttempt: is d this sweep's business? */
  predicate DriftWanted(m: Memory, d: Dest)
  {
    d in m.imageState && OwnersOf(m.owners, d) != [] &&
    (m.imageState[d].state == Mirrored || RecoveryCheck(m.imageState[d]))
  }

  function ResetPending(e: Entry): Entry
  {
    e.(state := Pending, retryCount := 0, nextRetryAt := None)
  }

  function BackToPending(e: Entry): Change
  {
    Change(e, Some(false), true, true)
  }

  /** A permanently failed entry: found in the registry after all, or retried. */
  function RecoveryChange(e: Entry, p: Probe): Change
  {
    if p.failed then Keep(e)
    else if p.present then Change(e.(state := Mirrored, lastError := ""), Some(true), true, false)
    else BackToPending(ResetPending(e))
  }

  /** A Mirrored entry: gone, moved upstream, or confirmed. */
  function ConfirmChange(e: Entry, p: Probe, max: int): Change
  {
    if p.failed then Change(e, Some(true), false, false)
    else if !p.present then BackToPending(ResetPending(e).(lastError := ""))
    else
      var e1 := if p.digest.Some? then e.(sourceDigest := p.digest.value) else e;
      if p.digest.Some? && e.sourceDigest != "" && e.sourceDigest != p.digest.value
      then BackToPending(ResetPending(e1).(lastError := ""))
      else if p.signature.Some? && !e1.signatureVerified then SignatureChange(e1, p, max)
      else Change(e1, Some(true), e1 != e, false)
  }

  /** applySignatureResultLocked */
  function SignatureChange(e: Entry, p: Probe, max: int): Change
    requires p.signature.Some?
  {
    if p.signature.value then Change(e.(signatureVerified := true), Some(true), true, false)
    else Change(RecordFailure(e.(state := Failed, lastError := "signature check failed", signatureVerified := false),
                              max, p.retryAt),
                Some(false), true, true)
  }

  function DriftChange(e: Entry, snap: Entry, p: Probe, max: int): Change
  {
    if e.state != snap.state || e.permanentlyFailed != snap.permanentlyFailed || e.source != snap.source then Keep(e)
    else if RecoveryCheck(snap) then RecoveryChange(e, p)
    else ConfirmChange(e, p, max)
  }

  /** Second locked region of checkDriftAttempt, for the entry snap the lookups
      were made for. */
  function DriftApply(m: Memory, d: Dest, snap: Entry, p: Probe): Memory
  {
    if d !in m.imageState then m
    else Put(m, d, DriftChange(m.imageState[d], snap, p, EffectiveMaxRetries(m.maxRetries)))
  }

  // ------------------------------------------------------------------- resets

  /** resetImageSetToPendingLocked acts on d. */
  predicate ResyncHits(m: Memory, name: Name, d: Dest)
  {
    d in m.imageState && HasOwner(m.owners, d, name) && !Busy(m, d) &&
    var e := m.imageState[d];
    !(e.state == Pending && e.retryCount == 0 && e.lastError == "" && !e.signatureVerified)
  }

  function ResyncSet(m: Memory, name: Name, within: set<Dest>): set<Dest>
  {
    set d | d in within && ResyncHits(m, name, d)
  }

  function Resynced(e: Entry): Entry
  {
    ResetPending(e).(lastError := "", signatureVerified := false)
  }

  /** The reset, carried out for the destinations in `within`. */
  function ResyncOn(m: Memory, name: Name, within: set<Dest>): Memory
  {
    m.(imageState := map d | d in m.imageState ::
         if d in within && ResyncHits(m, name, d) then Resynced(m.imageState[d]) else m.imageState[d],
       mirrored := m.mirrored - ResyncSet(m, name, within))
  }

  /** Force-resync of one ImageSet. */
  function Resync(m: Memory, name: Name): Memory
  {
    var changed := ResyncSet(m, name, m.imageState.Keys) != {};
    ResyncOn(m, name, m.imageState.Keys).(stateDirty := m.stateDirty || changed, statusDirty := m.statusDirty || changed)
  }

  predicate RecollectHits(m: Memory, name: Name, d: Dest)
  {
    d in m.imageState && m.imageState[d].state == Failed && HasOwner(m.owners, d, name) && !Busy(m, d)
  }

  function RecollectSet(m: Memory, name: Name, within: set<Dest>): set<Dest>
  {
    set d | d in within && RecollectHits(m, name, d)
  }

  function RecollectOn(m: Memory, name: Name, within: set<Dest>): Memory
  {
    m.(imageState := map d | d in m.imageState ::
         if d in within && RecollectHits(m, name, d) then ResetPending(m.imageState[d]).(lastError := "")
         else m.imageState[d])
  }

  /** resetFailedForRecollectLocked */
  function RecollectReset(m: Memory, name: Name): Memory
  {
    var changed := RecollectSet(m, name, m.imageState.Keys) != {};
    RecollectOn(m, name, m.imageState.Keys).(stateDirty := m.stateDirty || changed, statusDirty := m.statusDirty || changed)
  }

  // ------------------------------------------------------------ resolve merge

  /** mergeWorkerUpdates */
  function MergeWorkerUpdates(resolved: EntryMap, live: EntryMap): EntryMap
  {
    map d | d in resolved ::
      if d in live && live[d].state != Pending then
        resolved[d].(state := live[d].state, retryCount := live[d].retryCount,
                     lastError := live[d].lastError, permanentlyFailed := live[d].permanentlyFailed)
      else resolved[d]
  }

  function AddOwner(names: seq<Name>, name: Name): seq<Name>
  {
    if name in names then names else names + [name]
  }

  /** Owners of d after the ImageSet resolved to the destinations of resolved. */
  function MergedOwners(m: Memory, resolved: EntryMap, name: Name, d: Dest): seq<Name>
  {
    var names := OwnersOf(m.owners, d);
    if d in resolved then AddOwner(names, name)
    else if d in m.imageState then Without(names, name)
    else names
  }

  function MergedEntry(m: Memory, resolved: EntryMap, name: Name, d: Dest): Entry
    requires d in m.imageState || d in resolved
  {
    if d !in resolved then m.imageState[d]
    else if d !in m.imageState then resolved[d]
    else
      var e := m.imageState[d].(source := resolved[d].source);
      if OnlyOwner(m.owners, d, name) then e.(meta := resolved[d].meta) else e
  }

  /** mergeResolvedIntoConsolidated */
  function MergeResolved(m: Memory, resolved: EntryMap, name: Name): Memory
  {
    m.(imageState := map d | d in m.imageState.Keys + resolved.Keys :: MergedEntry(m, resolved, name, d),
       owners := map d | d in m.owners.Keys + resolved.Keys &&
                         (MergedOwners(m, resolved, name, d) != [] || OwnersOf(m.owners, d) == [])
                       :: MergedOwners(m, resolved, name, d))
  }

  function MetaOf(ownerMeta: map<Dest, map<Name, SpecMeta>>, d: Dest): map<Name, SpecMeta>
  {
    if d in ownerMeta then ownerMeta[d] else map[]
  }

  function RecordedMeta(m: Memory, name: Name, resolved: EntryMap, d: Dest): map<Name, SpecMeta>
  {
    if d in resolved then MetaOf(m.ownerMeta, d)[name := resolved[d].meta]
    else MetaOf(m.ownerMeta, d) - {name}
  }

  /** recordOwnerMetaLocked */
  function RecordOwnerMeta(m: Memory, name: Name, resolved: EntryMap): Memory
  {
    m.(ownerMeta := map d | d in m.ownerMeta.Keys + resolved.Keys && RecordedMeta(m, name, resolved, d) != map[]
                          :: RecordedMeta(m, name, resolved, d))
  }

  /** setCatalogDigestsLocked */
  function SetCatalogDigests(m: Memory, name: Name, digests: map<string, string>): Memory
  {
    if name in m.catalogDigests && m.catalogDigests[name] == digests then m
    else if name !in m.catalogDigests && digests == map[] then m
    else m.(catalogDigests := m.catalogDigests[name := digests], stateDirty := true)
  }

  /** The region of reconcile after a resolve re-acquired the lock. merge is
      false when the resolve changed nothing and the view was not empty. */
  function EndResolve(m: Memory, name: Name, resolved: EntryMap, merge: bool, recollect: bool,
                      digests: map<string, string>): Memory
  {
    var updated := MergeWorkerUpdates(resolved, m.imageState);
    var m1 := if merge then RecordOwnerMeta(MergeResolved(m, updated, name), name, updated).(stateDirty := true) else m;
    var m2 := if recollect then RecollectReset(m1, name) else m1;
    SetCatalogDigests(m2.(statusDirty := true), name, digests)
  }

  /** ownerView */
  function OwnerView(m: Memory, d: Dest, name: Name): Entry
    requires d in m.imageState
  {
    var metas := MetaOf(m.ownerMeta, d);
    if name in metas then m.imageState[d].(meta := metas[name]) else m.imageState[d]
  }

  /** filterByImageSet */
  function View(m: Memory, name: Name): EntryMap
  {
    map d | d in m.imageState && HasOwner(m.owners, d, name) :: OwnerView(m, d, name)
  }

  // --------------------------------------------------------------------- tick

  /** Phase D for one owned entry. */
  function TickEntry(e: Entry, flagged: bool, now: int, max: int): Entry
  {
    if e.state == Mirrored then e
    else if flagged then e.(state := Mirrored)
    else if e.state == Failed then
      if e.retryCount < max then
        if e.nextRetryAt.Some? && now < e.nextRetryAt.value then e
        else e.(state := Pending, nextRetryAt := None)
      else e.(permanentlyFailed := true)
    else e
  }

  predicate Orphaned(m: Memory, d: Dest)
  {
    d in m.imageState && OwnersOf(m.owners, d) == []
  }

  function Orphans(m: Memory): EntryMap
  {
    map d | d in m.imageState && Orphaned(m, d) :: m.imageState[d]
  }

  /** Destinations among `within` that Phase D removes or changes. */
  function TickChanged(m: Memory, now: int, within: set<Dest>): set<Dest>
  {
    set d | d in within && d in m.imageState &&
      (Orphaned(m, d) ||
       TickEntry(m.imageState[d], d in m.mirrored, now, EffectiveMaxRetries(m.maxRetries)) != m.imageState[d])
  }

  /** Phase D, carried out for the destinations in `within`. */
  function TickOn(m: Memory, now: int, within: set<Dest>): Memory
  {
    var gone := set d | d in within && Orphaned(m, d);
    m.(imageState := map d | d in m.imageState && d !in gone ::
         if d in within then TickEntry(m.imageState[d], d in m.mirrored, now, EffectiveMaxRetries(m.maxRetries))
         else m.imageState[d],
       owners := m.owners - gone,
       ownerMeta := m.ownerMeta - gone,
       mirrored := m.mirrored +
         (set d | d in within && d in m.imageState && d !in gone && m.imageState[d].state == Mirrored),
       stateDirty := m.stateDirty || TickChanged(m, now, within) != {})
  }

  /** Phase D: orphans leave the working set, the others are advanced. */
  function Tick(m: Memory, now: int): Memory
  {
    TickOn(m, now, m.imageState.Keys)
  }

  /** What Phase D hands to dispatch. */
  predicate ReadyForWorker(m: Memory, d: Dest)
  {
    d in m.imageState && !Orphaned(m, d) && m.imageState[d].state == Pending && d !in m.mirrored && !Busy(m, d)
  }

  /** Phase E for one started batch; early are reports acknowledged while the
      region held the lock. */
  function Dispatch(m: Memory, batch: seq<Dest>, pod: Pod, early: seq<Report>): Memory
  {
    m.(inProgress := m.inProgress + (map d | d in batch :: pod), queue := m.queue + early)
  }

  // -------------------------------------------------------- removed ImageSets

  function KeepNames(names: seq<Name>, spec: set<Name>): seq<Name>
  {
    if names == [] then [] else
      var last := names[|names| - 1];
      KeepNames(names[..|names| - 1], spec) + (if last in spec then [last] else [])
  }

  lemma {:induction false} KeepNamesMembers(names: seq<Name>, spec: set<Name>, n: Name)
    ensures n in KeepNames(names, spec) <==> n in names && n in spec
  {
    if names != [] {
      var k := |names| - 1;
      KeepNamesMembers(names[..k], spec, n);
      assert names == names[..k] + [names[k]];
    }
  }

  lemma {:induction false} KeepNamesLength(names: seq<Name>, spec: set<Name>)
    ensures |KeepNames(names, spec)| <= |names|
    ensures |KeepNames(names, spec)| == |names| ==> KeepNames(names, spec) == names
  {
    if names != [] {
      var k := |names| - 1;
      KeepNamesLength(names[..k], spec);
      assert names == names[..k] + [names[k]];
    }
  }

  lemma {:induction false} KeepNamesDistinct(names: seq<Name>, spec: set<Name>)
    requires Distinct(names)
    ensures Distinct(KeepNames(names, spec))
  {
    if names != [] {
      var k := |names| - 1;
      KeepNamesDistinct(names[..k], spec);
      KeepNamesMembers(names[..k], spec, names[k]);
    }
  }

  lemma KeepNamesFacts(names: seq<Name>, spec: set<Name>)
    ensures forall n :: n in KeepNames(names, spec) <==> n in names && n in spec
    ensures |KeepNames(names, spec)| <= |names|
    ensures |KeepNames(names, spec)| == |names| ==> KeepNames(names, spec) == names
    ensures Distinct(names) ==> Distinct(KeepNames(names, spec))
  {
    forall n ensures n in KeepNames(names, spec) <==> n in names && n in spec { KeepNamesMembers(names, spec, n); }
    KeepNamesLength(names, spec);
    if Distinct(names) { KeepNamesDistinct(names, spec); }
  }

  /** All owners of d were removed from the MirrorTarget. */
  predicate Abandoned(m: Memory, spec: set<Name>, d: Dest)
  {
    d in m.owners && m.owners[d] != [] && KeepNames(m.owners[d], spec) == []
  }

  /** Owned destinations among `within` that lose an owner. */
  function Shrunk(m: Memory, spec: set<Name>, within: set<Dest>): set<Dest>
  {
    set d | d in within && d in m.owners && KeepNames(m.owners[d], spec) != m.owners[d]
  }

  /** Dropping removed owners, carried out for the destinations in `within`. */
  function DropOn(m: Memory, spec: set<Name>, within: set<Dest>): Memory
  {
    var gone := set d | d in within && Abandoned(m, spec, d);
    var shrunk := Shrunk(m, spec, within);
    m.(imageState := m.imageState - gone,
       owners := map d | d in m.owners && d !in gone :: if d in within then KeepNames(m.owners[d], spec) else m.owners[d],
       ownerMeta := map d | d in m.ownerMeta && d !in gone && (d in shrunk ==> PrunedMeta(m, spec, d) != map[])
                          :: if d in shrunk then PrunedMeta(m, spec, d) else m.ownerMeta[d],
       mirrored := m.mirrored - gone,
       stateDirty := m.stateDirty || shrunk != {})
  }

  /** dropRemovedImageSetsLocked, with the names in spec.imageSets. */
  function DropRemoved(m: Memory, spec: set<Name>): Memory
  {
    DropOn(m, spec, m.owners.Keys).(
      catalogDigests := map n | n in m.catalogDigests && n in spec :: m.catalogDigests[n])
  }

  /** pruneOwnerMetaLocked after the owners of d shrank. */
  function PrunedMeta(m: Memory, spec: set<Name>, d: Dest): map<Name, SpecMeta>
    requires d in m.ownerMeta
  {
    map n | n in m.ownerMeta[d] && n in spec && HasOwner(m.owners, d, n) :: m.ownerMeta[d][n]
  }
}

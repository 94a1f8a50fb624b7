/** What every lock-held region does to lifecycle fields, fast-path flags,
    ownership and spec metadata. */
module Lifecycle {
  import opened Options
  import opened ImageState
  import opened ManagerModel

  predicate MirroredIn(m: Memory, d: Dest)
  {
    d in m.imageState && m.imageState[d].state == Mirrored
  }

  /** The fast-path flag of a live destination is set only if it is Mirrored. */
  ghost predicate FlagsHonest(m: Memory)
  {
    forall d :: d in m.mirrored && d in m.imageState ==> m.imageState[d].state == Mirrored
  }

  /** Flags may be left only for destinations in `stale` that are not live. */
  ghost predicate StaleFlags(m: Memory, stale: set<Dest>)
  {
    forall d :: d in m.mirrored ==> d in m.imageState || d in stale
  }

  predicate SuccessFor(reports: seq<Report>, d: Dest)
  {
    exists r :: r in reports && r.dest == d && r.error == ""
  }

  // ------------------------------------------------- regions on one destination

  /** From m to m' only d's lifecycle fields and flag, tracking, the queue and
      the dirty marks may differ: ownership and spec metadata are untouched. */
  ghost predicate TouchesOnly(m: Memory, m': Memory, d: Dest)
  {
    && m'.imageState.Keys == m.imageState.Keys
    && (forall x :: x in m.imageState && x != d ==> m'.imageState[x] == m.imageState[x])
    && (d in m.imageState ==> m'.imageState[d].meta == m.imageState[d].meta &&
                              m'.imageState[d].source == m.imageState[d].source)
    && m'.mirrored - {d} == m.mirrored - {d}
    && m'.owners == m.owners && m'.ownerMeta == m.ownerMeta
    && m'.catalogDigests == m.catalogDigests && m'.maxRetries == m.maxRetries
  }

  /** d's own flag after a region that touches only d. */
  ghost predicate FlagOk(m: Memory, m': Memory, d: Dest)
  {
    && (d in m'.mirrored && d in m'.imageState ==> m'.imageState[d].state == Mirrored)
    && (d in m'.mirrored ==> d in m'.imageState || d in m.mirrored)
  }

  lemma TouchKeepsFlags(m: Memory, m': Memory, d: Dest, stale: set<Dest>)
    requires FlagsHonest(m) && StaleFlags(m, stale)
    requires TouchesOnly(m, m', d) && FlagOk(m, m', d)
    ensures FlagsHonest(m') && StaleFlags(m', stale)
  {
    forall x | x in m'.mirrored && x != d ensures x in m.mirrored
    {
      assert x in m'.mirrored - {d};
    }
  }

  lemma PutTouches(m: Memory, d: Dest, c: Change)
    requires d in m.imageState
    requires c.entry.meta == m.imageState[d].meta && c.entry.source == m.imageState[d].source
    ensures TouchesOnly(m, Put(m, d, c), d)
  {
  }

  /** A change of a live entry that leaves its flag honest. */
  predicate HonestChange(e: Entry, c: Change)
  {
    && (c.flag == Some(true) ==> c.entry.state == Mirrored)
    && (c.flag.None? ==> e.state == Mirrored ==> c.entry.state == Mirrored)
  }

  lemma PutFlag(m: Memory, d: Dest, c: Change)
    requires FlagsHonest(m) && d in m.imageState && HonestChange(m.imageState[d], c)
    ensures FlagOk(m, Put(m, d, c), d)
  {
  }

  lemma ReportTouches(m: Memory, r: Report)
    ensures TouchesOnly(m, ApplyStatus(m, r), r.dest)
    ensures ApplyStatus(m, r).queue == m.queue
  {
    if r.dest in m.imageState {
      PutTouches(m, r.dest, ReportChange(m.imageState[r.dest], r, EffectiveMaxRetries(m.maxRetries)));
    }
  }

  lemma ReportKeepsFlags(m: Memory, r: Report, stale: set<Dest>)
    requires FlagsHonest(m) && StaleFlags(m, stale)
    ensures FlagsHonest(ApplyStatus(m, r)) && StaleFlags(ApplyStatus(m, r), stale)
    ensures ApplyStatus(m, r).imageState.Keys == m.imageState.Keys
    ensures forall d :: MirroredIn(ApplyStatus(m, r), d) ==> MirroredIn(m, d) || (d == r.dest && r.error == "")
  {
    ReportTouches(m, r);
    if r.dest in m.imageState {
      PutFlag(m, r.dest, ReportChange(m.imageState[r.dest], r, EffectiveMaxRetries(m.maxRetries)));
    }
    TouchKeepsFlags(m, ApplyStatus(m, r), r.dest, stale);
  }

  lemma DriftChangeFacts(e: Entry, snap: Entry, p: Probe, max: int)
    ensures
      var c := DriftChange(e, snap, p, max);
      && c.entry.meta == e.meta && c.entry.source == e.source
      && (snap.state == Mirrored || RecoveryCheck(snap) ==> HonestChange(e, c))
      && (c.entry.state == Mirrored ==> e.state == Mirrored || (!p.failed && p.present))
  {
  }

  lemma DriftTouches(m: Memory, d: Dest, snap: Entry, p: Probe)
    ensures TouchesOnly(m, DriftApply(m, d, snap, p), d)
    ensures DriftApply(m, d, snap, p).inProgress == m.inProgress && DriftApply(m, d, snap, p).queue == m.queue
  {
    if d in m.imageState {
      DriftChangeFacts(m.imageState[d], snap, p, EffectiveMaxRetries(m.maxRetries));
      PutTouches(m, d, DriftChange(m.imageState[d], snap, p, EffectiveMaxRetries(m.maxRetries)));
    }
  }

  lemma {:induction false} ReportsKeepFlags(m: Memory, rs: seq<Report>, stale: set<Dest>)
    requires FlagsHonest(m) && StaleFlags(m, stale)
    ensures FlagsHonest(ApplyAll(m, rs)) && StaleFlags(ApplyAll(m, rs), stale)
    ensures ApplyAll(m, rs).imageState.Keys == m.imageState.Keys
    ensures forall d :: MirroredIn(ApplyAll(m, rs), d) ==> MirroredIn(m, d) || SuccessFor(rs, d)
  {
    if rs != [] {
      var n := |rs| - 1;
      ReportsKeepFlags(m, rs[..n], stale);
      ReportKeepsFlags(ApplyAll(m, rs[..n]), rs[n], stale);
      assert rs == rs[..n] + [rs[n]];
      assert forall r :: r in rs[..n] ==> r in rs;
      assert rs[n] in rs;
    }
  }

  lemma CleanupOneKeepsFlags(m: Memory, f: Finished, stale: set<Dest>)
    requires FlagsHonest(m) && StaleFlags(m, stale)
    ensures FlagsHonest(CleanupOne(m, f)) && StaleFlags(CleanupOne(m, f), stale)
    ensures CleanupOne(m, f).imageState.Keys == m.imageState.Keys
    ensures forall d :: MirroredIn(CleanupOne(m, f), d) ==> MirroredIn(m, d)
  {
  }

  lemma {:induction false} CleanupAllKeepsFlags(m: Memory, done: seq<Finished>, stale: set<Dest>)
    requires FlagsHonest(m) && StaleFlags(m, stale)
    ensures FlagsHonest(CleanupAll(m, done)) && StaleFlags(CleanupAll(m, done), stale)
    ensures CleanupAll(m, done).imageState.Keys == m.imageState.Keys
    ensures forall d :: MirroredIn(CleanupAll(m, done), d) ==> MirroredIn(m, d)
  {
    if done != [] {
      CleanupAllKeepsFlags(m, done[..|done| - 1], stale);
      CleanupOneKeepsFlags(CleanupAll(m, done[..|done| - 1]), done[|done| - 1], stale);
    }
  }

  lemma DriftKeepsFlags(m: Memory, d: Dest, snap: Entry, p: Probe, stale: set<Dest>)
    requires FlagsHonest(m) && StaleFlags(m, stale)
    requires snap.state == Mirrored || RecoveryCheck(snap)
    ensures FlagsHonest(DriftApply(m, d, snap, p)) && StaleFlags(DriftApply(m, d, snap, p), stale)
    ensures DriftApply(m, d, snap, p).imageState.Keys == m.imageState.Keys
    ensures forall x :: MirroredIn(DriftApply(m, d, snap, p), x) ==>
      MirroredIn(m, x) || (x == d && !p.failed && p.present)
  {
    DriftTouches(m, d, snap, p);
    if d in m.imageState {
      DriftChangeFacts(m.imageState[d], snap, p, EffectiveMaxRetries(m.maxRetries));
      PutFlag(m, d, DriftChange(m.imageState[d], snap, p, EffectiveMaxRetries(m.maxRetries)));
    }
    TouchKeepsFlags(m, DriftApply(m, d, snap, p), d, stale);
  }

  lemma ResyncKeepsFlags(m: Memory, name: Name, stale: set<Dest>)
    requires FlagsHonest(m) && StaleFlags(m, stale)
    ensures FlagsHonest(Resync(m, name)) && StaleFlags(Resync(m, name), stale)
    ensures forall d :: MirroredIn(Resync(m, name), d) ==> MirroredIn(m, d)
  {
  }

  lemma RecollectKeepsFlags(m: Memory, name: Name, stale: set<Dest>)
    requires FlagsHonest(m) && StaleFlags(m, stale)
    ensures FlagsHonest(RecollectReset(m, name)) && StaleFlags(RecollectReset(m, name), stale)
    ensures forall d :: MirroredIn(RecollectReset(m, name), d) ==> MirroredIn(m, d)
  {
  }

  /** A merge keeps flags honest exactly when no destination it adds still
      carries a flag. */
  lemma MergeKeepsFlagsIff(m: Memory, resolved: EntryMap, name: Name)
    requires FlagsHonest(m)
    requires forall d :: d in resolved && d !in m.imageState ==> resolved[d].state == Pending
    ensures FlagsHonest(MergeResolved(m, resolved, name)) <==>
      forall d :: d in resolved && d !in m.imageState ==> d !in m.mirrored
  {
    var m' := MergeResolved(m, resolved, name);
    if d :| d in resolved && d !in m.imageState && d in m.mirrored {
      assert d in m'.imageState && m'.imageState[d] == resolved[d];
    }
  }

  lemma TickKeepsFlags(m: Memory, now: int, stale: set<Dest>)
    requires FlagsHonest(m) && StaleFlags(m, stale)
    ensures FlagsHonest(Tick(m, now)) && StaleFlags(Tick(m, now), stale + Orphans(m).Keys)
    ensures forall d :: MirroredIn(Tick(m, now), d) ==> MirroredIn(m, d)
  {
  }

  lemma DropKeepsFlags(m: Memory, spec: set<Name>, stale: set<Dest>)
    requires FlagsHonest(m) && StaleFlags(m, stale)
    ensures FlagsHonest(DropRemoved(m, spec)) && StaleFlags(DropRemoved(m, spec), stale)
    ensures forall d :: MirroredIn(DropRemoved(m, spec), d) ==> MirroredIn(m, d)
  {
  }
}

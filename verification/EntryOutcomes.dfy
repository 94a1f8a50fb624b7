/** What the regions do to one entry, field by field, both ways: not only what
    must not happen to it but what must. Stated on the memories before and after,
    with the conditions the operator's documentation gives. */
module EntryOutcomes {
  import opened Options
  import opened ImageState
  import opened ManagerModel
  import opened Resolve
  import Ownership
  import opened Runs

  /** The retry limit in force: the configured one if positive, else 10. */
  function Limit(m: Memory): int
  {
    if m.maxRetries > 0 then m.maxRetries else 10
  }

  predicate OwnedBy(m: Memory, d: Dest, name: Name)
  {
    d in m.owners && name in m.owners[d]
  }

  predicate Owned(m: Memory, d: Dest)
  {
    d in m.owners && m.owners[d] != []
  }

  predicate Tracked(m: Memory, d: Dest)
  {
    d in m.inProgress && m.inProgress[d] != ""
  }

  /** The rest of the working set is as it was. */
  ghost predicate OthersSame(m: Memory, m': Memory, d: Dest)
  {
    && m'.imageState.Keys == m.imageState.Keys
    && (forall x :: x in m.imageState && x != d ==> m'.imageState[x] == m.imageState[x])
    && (forall x :: x != d ==> (x in m'.mirrored <==> x in m.mirrored))
    && m'.owners == m.owners && m'.ownerMeta == m.ownerMeta
  }

  // --------------------------------------------------------------------- tick

  /** The tick on a failure: back to Pending exactly if its count is below the
      limit and its deadline is absent or over; else it stays Failed, and at the
      limit it is marked as permanent. */
  lemma TickOnFailure(s: Sys, now: int, d: Dest)
    requires d in s.mem.imageState && Owned(s.mem, d) && d !in s.mem.mirrored && s.mem.imageState[d].state == Failed
    ensures
      var m, m' := s.mem, Next(s, PhaseD(now)).mem;
      var e := m.imageState[d];
      d in m'.imageState &&
      var e' := m'.imageState[d];
      && (e'.state == Pending <==>
            e.retryCount < Limit(m) && (e.nextRetryAt.None? || e.nextRetryAt.value <= now))
      && (e'.state == Pending ==> e' == e.(state := Pending, nextRetryAt := None))
      && (e'.state != Pending ==>
            e' == e.(permanentlyFailed := e.permanentlyFailed || e.retryCount >= Limit(m)))
      && d !in m'.mirrored
  {
    assert !Orphaned(s.mem, d);
  }

  /** The tick on anything else that is owned: Mirrored gets its flag, a flag makes
      Mirrored, Pending waits. */
  lemma TickOnOthers(s: Sys, now: int, d: Dest)
    requires d in s.mem.imageState && Owned(s.mem, d)
    requires d in s.mem.mirrored || s.mem.imageState[d].state != Failed
    ensures
      var m, m' := s.mem, Next(s, PhaseD(now)).mem;
      var e := m.imageState[d];
      d in m'.imageState &&
      var e' := m'.imageState[d];
      && (d in m'.mirrored <==> d in m.mirrored || e.state == Mirrored)
      && e' == (if d in m.mirrored then e.(state := Mirrored) else e)
  {
    assert !Orphaned(s.mem, d);
  }

  /** The tick takes out exactly what nobody owns, and hands it on as it was. */
  lemma TickSweeps(s: Sys, now: int, d: Dest)
    requires d in s.mem.imageState
    ensures
      var m, m' := s.mem, Next(s, PhaseD(now)).mem;
      && (d in m'.imageState <==> Owned(m, d))
      && (d in Orphans(m) <==> !Owned(m, d)) && (!Owned(m, d) ==> Orphans(m)[d] == m.imageState[d])
      && (!Owned(m, d) ==> d !in m'.owners && d !in m'.ownerMeta)
  {
  }

  /** What is handed to dispatch: whatever was Pending before the tick, is after
      it, and no pod works on. */
  lemma ReadyIff(s: Sys, now: int, d: Dest)
    ensures
      var m, m' := s.mem, Next(s, PhaseD(now)).mem;
      ReadyForWorker(m, d) <==>
        && d in m.imageState && m.imageState[d].state == Pending && !Tracked(m, d)
        && d in m'.imageState && m'.imageState[d].state == Pending
  {
    if d in s.mem.imageState && Owned(s.mem, d) {
      assert !Orphaned(s.mem, d);
    }
  }

  // ------------------------------------------------------------------ reports

  /** A success of a live destination: Mirrored, without error, flagged and no
      longer tracked; an additional image gets the digest that was mirrored. */
  lemma SuccessOutcome(m: Memory, r: Report)
    requires r.error == "" && r.dest in m.imageState
    ensures
      var m' := ApplyStatus(m, r);
      var e := m.imageState[r.dest];
      OthersSame(m, m', r.dest) && r.dest in m'.mirrored && r.dest !in m'.inProgress &&
      var e' := m'.imageState[r.dest];
      && e'.state == Mirrored && e'.lastError == ""
      && e'.retryCount == e.retryCount && e'.permanentlyFailed == e.permanentlyFailed
      && e'.meta == e.meta && e'.source == e.source && e'.signatureVerified == e.signatureVerified
      && e'.sourceDigest == (if e.meta.origin == OriginAdditional && r.digest != "" then r.digest else e.sourceDigest)
      && (e.state != Mirrored ==> e'.nextRetryAt == None)
  {
  }

  /** A failure of a live destination that is news: counted, with a deadline, and
      permanent once the count reaches the limit; not flagged, not tracked. */
  lemma FailureOutcome(m: Memory, r: Report)
    requires r.error != "" && r.dest in m.imageState
    requires m.imageState[r.dest].state != Failed || m.imageState[r.dest].lastError != r.error
    ensures
      var m' := ApplyStatus(m, r);
      var e := m.imageState[r.dest];
      && OthersSame(m, m', r.dest) && r.dest !in m'.mirrored && r.dest !in m'.inProgress
      && m'.imageState[r.dest] ==
          e.(state := Failed, lastError := r.error, retryCount := e.retryCount + 1, nextRetryAt := Some(r.retryAt),
             permanentlyFailed := e.permanentlyFailed || e.retryCount + 1 >= Limit(m))
  {
  }

  /** A report for a destination that is not live only ends its tracking. */
  lemma StrayReport(m: Memory, r: Report)
    requires r.dest !in m.imageState
    ensures
      var m' := ApplyStatus(m, r);
      m'.imageState == m.imageState && m'.mirrored == m.mirrored && m'.inProgress == m.inProgress - {r.dest}
  {
  }

  /** A finished pod that is still the tracked one: untracked, and if it failed
      the destination goes back to Pending, count kept, flag gone. */
  lemma FinishedOutcome(m: Memory, f: Finished)
    requires f.dest in m.inProgress && m.inProgress[f.dest] == f.pod && f.dest in m.imageState
    ensures
      var m' := CleanupOne(m, f);
      var e := m.imageState[f.dest];
      && OthersSame(m, m', f.dest) && m'.inProgress == m.inProgress - {f.dest}
      && (!f.failed ==> m'.imageState == m.imageState && m'.mirrored == m.mirrored)
      && (f.failed ==> m'.imageState[f.dest].state == Pending && m'.imageState[f.dest].lastError == "" &&
                       m'.imageState[f.dest].retryCount == e.retryCount)
      && (f.failed && e.state != Pending ==> f.dest !in m'.mirrored)
  {
    if f.failed && m.imageState[f.dest].state == Pending && m.imageState[f.dest].lastError == "" {
      assert m.imageState[f.dest := m.imageState[f.dest]] == m.imageState;
    }
  }

  // -------------------------------------------------------------------- drift

  /** The entry is still what the lookups were made for. */
  predicate StillMatches(e: Entry, snap: Entry)
  {
    e.state == snap.state && e.permanentlyFailed == snap.permanentlyFailed && e.source == snap.source
  }

  /** The upstream digest is known, was known, and differs. */
  predicate Moved(e: Entry, p: Probe)
  {
    p.digest.Some? && e.sourceDigest != "" && e.sourceDigest != p.digest.value
  }

  predicate BadSignature(e: Entry, p: Probe)
  {
    p.signature == Some(false) && !e.signatureVerified
  }

  /** What a drift result for a Mirrored entry e makes of it, under the limit max. */
  ghost predicate Confirmed(e: Entry, p: Probe, max: int, e': Entry)
  {
    && (e'.state == Mirrored <==> p.failed || (p.present && !Moved(e, p) && !BadSignature(e, p)))
    && (p.failed ==> e' == e)
    && (!p.failed && (!p.present || Moved(e, p)) ==>
          e' == e.(state := Pending, retryCount := 0, nextRetryAt := None, lastError := "",
                   sourceDigest := if p.present && p.digest.Some? then p.digest.value else e.sourceDigest))
    && (!p.failed && p.present && !Moved(e, p) ==>
          e'.sourceDigest == (if p.digest.Some? then p.digest.value else e.sourceDigest) &&
          (e'.signatureVerified <==> e.signatureVerified || p.signature == Some(true)))
    && (!p.failed && p.present && !Moved(e, p) && BadSignature(e, p) ==>
          e'.state == Failed && e'.retryCount == e.retryCount + 1 && e'.nextRetryAt == Some(p.retryAt) &&
          (e'.permanentlyFailed <==> e.permanentlyFailed || e.retryCount + 1 >= max))
    && (!p.failed && p.present && !Moved(e, p) && !BadSignature(e, p) ==>
          e' == e.(sourceDigest := e'.sourceDigest, signatureVerified := e'.signatureVerified))
  }

  lemma ConfirmOutcome(e: Entry, snap: Entry, p: Probe, max: int)
    requires e.state == Mirrored && StillMatches(e, snap)
    ensures
      var c := DriftChange(e, snap, p, max);
      Confirmed(e, p, max, c.entry) && c.flag == Some(c.entry.state == Mirrored)
  {
  }

  /** A drift result for an entry that is Mirrored: it stays so, and flagged,
      exactly if the check could not be made, or the image is there, has not moved
      upstream and has no invalid signature. An image that is gone or has moved
      starts anew; an invalid signature counts as a failure. */
  lemma DriftOnMirrored(s: Sys, d: Dest, snap: Entry, p: Probe)
    requires d in s.mem.imageState && s.mem.imageState[d].state == Mirrored && StillMatches(s.mem.imageState[d], snap)
    ensures
      var m, m' := s.mem, Next(s, DriftResult(d, snap, p)).mem;
      && OthersSame(m, m', d) && Confirmed(m.imageState[d], p, Limit(m), m'.imageState[d])
      && (m'.imageState[d].state == Mirrored <==> d in m'.mirrored)
  {
    ConfirmOutcome(s.mem.imageState[d], snap, p, Limit(s.mem));
    PutOthersSame(s.mem, d, DriftChange(s.mem.imageState[d], snap, p, Limit(s.mem)));
  }

  lemma PutOthersSame(m: Memory, d: Dest, c: Change)
    requires d in m.imageState
    ensures OthersSame(m, Put(m, d, c), d) && Put(m, d, c).imageState[d] == c.entry
    ensures c.flag.Some? ==> (d in Put(m, d, c).mirrored <==> c.flag.value)
  {
  }

  /** A drift result for a permanent failure: Mirrored exactly if the image was
      seen, a fresh retry cycle exactly if it was seen missing. The mark stays. */
  lemma DriftOnPermanentFailure(s: Sys, d: Dest, snap: Entry, p: Probe)
    requires d in s.mem.imageState && s.mem.imageState[d].state == Failed && s.mem.imageState[d].permanentlyFailed
    requires StillMatches(s.mem.imageState[d], snap)
    ensures
      var m, m' := s.mem, Next(s, DriftResult(d, snap, p)).mem;
      var e := m.imageState[d];
      OthersSame(m, m', d) &&
      var e' := m'.imageState[d];
      && (e'.state == Mirrored <==> !p.failed && p.present)
      && (e'.state == Mirrored ==> e' == e.(state := Mirrored, lastError := "") && d in m'.mirrored)
      && (e'.state == Pending <==> !p.failed && !p.present)
      && (e'.state == Pending ==> e' == e.(state := Pending, retryCount := 0, nextRetryAt := None) && d !in m'.mirrored)
      && (p.failed ==> e' == e && (d in m'.mirrored <==> d in m.mirrored))
  {
  }

  /** A result that came too late changes nothing. */
  lemma DriftTooLate(s: Sys, d: Dest, snap: Entry, p: Probe)
    requires d in s.mem.imageState ==> !StillMatches(s.mem.imageState[d], snap)
    ensures
      var m, m' := s.mem, Next(s, DriftResult(d, snap, p)).mem;
      m'.imageState == m.imageState && m'.mirrored == m.mirrored
  {
    if d in s.mem.imageState {
      assert s.mem.imageState[d := s.mem.imageState[d]] == s.mem.imageState;
    }
  }

  // ------------------------------------------------------------------- resets

  /** Force-resync: every destination the ImageSet owns and no pod works on starts
      anew, unflagged; nothing else changes. */
  lemma ResyncOutcome(s: Sys, name: Name, d: Dest)
    requires d in s.mem.imageState
    ensures
      var m, m' := s.mem, Next(s, ForceResync(name)).mem;
      var e := m.imageState[d];
      d in m'.imageState &&
      var e' := m'.imageState[d];
      if OwnedBy(m, d, name) && !Tracked(m, d)
      then
        && e'.state == Pending && e'.retryCount == 0 && e'.lastError == "" && !e'.signatureVerified
        && e'.permanentlyFailed == e.permanentlyFailed && e'.meta == e.meta && e'.source == e.source
        && (e.state != Pending ==> d !in m'.mirrored && e'.nextRetryAt == None)
      else e' == e && (d in m'.mirrored <==> d in m.mirrored)
  {
    assert HasOwner(s.mem.owners, d, name) <==> OwnedBy(s.mem, d, name);
  }

  /** Recollect: every failure the ImageSet owns and no pod works on gets a fresh
      retry cycle, its permanent mark kept; nothing else changes. */
  lemma RecollectOutcome(m: Memory, name: Name, d: Dest)
    requires d in m.imageState
    ensures
      var m' := RecollectReset(m, name);
      var e := m.imageState[d];
      && d in m'.imageState && m'.mirrored == m.mirrored
      && m'.imageState[d] ==
          if e.state == Failed && OwnedBy(m, d, name) && !Tracked(m, d)
          then e.(state := Pending, retryCount := 0, nextRetryAt := None, lastError := "") else e
  {
    assert HasOwner(m.owners, d, name) <==> OwnedBy(m, d, name);
  }

  /** Some owner of d remains. */
  ghost predicate KeepsOwner(m: Memory, spec: set<Name>, d: Dest)
  {
    exists n :: n in spec && OwnedBy(m, d, n)
  }

  lemma AbandonedIff(m: Memory, spec: set<Name>, d: Dest)
    ensures Abandoned(m, spec, d) <==> Owned(m, d) && !KeepsOwner(m, spec, d)
  {
    if d in m.owners {
      KeepNamesFacts(m.owners[d], spec);
      var kept := KeepNames(m.owners[d], spec);
      if kept != [] { assert kept[0] in kept; }
    }
  }

  lemma DropLives(m: Memory, spec: set<Name>, d: Dest)
    requires d in m.imageState
    ensures
      var m' := DropRemoved(m, spec);
      && (d in m'.imageState <==> !Abandoned(m, spec, d))
      && (d in m'.imageState ==> m'.imageState[d] == m.imageState[d] && (d in m'.mirrored <==> d in m.mirrored))
      && (d !in m'.imageState ==> d !in m'.mirrored && d !in m'.owners && d !in m'.ownerMeta)
      && m'.maxRetries == m.maxRetries
  {
  }

  lemma DropOwnersAt(m: Memory, spec: set<Name>, d: Dest, n: Name)
    ensures OwnedBy(DropRemoved(m, spec), d, n) <==> OwnedBy(m, d, n) && n in spec
  {
    if d in m.owners {
      KeepNamesFacts(m.owners[d], spec);
    }
  }

  /** Dropping ImageSets: a destination is forgotten exactly if it had owners and
      none of them remains; every other keeps its entry and flag. */
  lemma DropOutcome(s: Sys, spec: set<Name>, maxRetries: int, d: Dest)
    requires d in s.mem.imageState
    ensures
      var m, m' := s.mem, Next(s, StartTick(spec, maxRetries)).mem;
      && (d in m'.imageState <==> !Owned(m, d) || KeepsOwner(m, spec, d))
      && (d in m'.imageState ==> m'.imageState[d] == m.imageState[d] && (d in m'.mirrored <==> d in m.mirrored))
      && (d !in m'.imageState ==> d !in m'.mirrored && d !in m'.owners && d !in m'.ownerMeta)
      && m'.maxRetries == maxRetries
  {
    var m := s.mem.(maxRetries := maxRetries);
    AbandonedIff(m, spec, d);
    assert KeepsOwner(m, spec, d) <==> KeepsOwner(s.mem, spec, d) by {
      assert forall n :: OwnedBy(m, d, n) <==> OwnedBy(s.mem, d, n);
    }
    DropLives(m, spec, d);
  }

  /** Where an owner was dropped, only the metadata of the remaining ones is left. */
  lemma DropMetadata(m: Memory, spec: set<Name>, d: Dest, n: Name)
    requires d in m.owners && d in DropRemoved(m, spec).owners && DropRemoved(m, spec).owners[d] != m.owners[d]
    requires d in DropRemoved(m, spec).ownerMeta && n in DropRemoved(m, spec).ownerMeta[d]
    ensures n in spec && n in m.owners[d] && n in m.ownerMeta[d] &&
      DropRemoved(m, spec).ownerMeta[d][n] == m.ownerMeta[d][n]
  {
  }

  // ------------------------------------------------------------------ resolve

  /** What a freshly resolved image starts as: Pending, unless the ImageSet has it
      Mirrored from the same kind of spec entry and, for a chart, with the same
      content. */
  lemma FreshOutcome(s: Section, img: TargetImage, prev: EntryMap)
    requires s.Fresh?
    ensures
      var e := FreshEntry(s, img, prev);
      && (e.state == Mirrored <==>
            && img.dest in prev && prev[img.dest].state == Mirrored
            && (prev[img.dest].meta.origin == s.origin || prev[img.dest].meta.origin == OriginUnknown)
            && !(s.origin == OriginHelmChart && prev[img.dest].meta.entrySig != "" &&
                 prev[img.dest].meta.entrySig != s.sig))
      && (e.state != Mirrored ==> e.state == Pending && e.retryCount == 0 && e.lastError == "")
      && !e.permanentlyFailed && e.nextRetryAt == None && !e.signatureVerified
      && e.meta.origin == s.origin && e.meta.entrySig == s.sig && e.meta.catalog == s.catalog
      && e.meta.isBundleImage == img.isBundleImage
      && (',' !in img.source ==> e.source == img.source)
  {
  }

  /** A cache hit or failed probe: what was there stays, and exactly the entries of
      that kind and signature, or without one, join it. */
  lemma CarryOutcome(dst: EntryMap, s: Section, prev: EntryMap, d: Dest)
    requires s.CarryOver?
    ensures
      var out := RunSection(dst, s, prev);
      && (d in out <==>
            (d in dst ||
             (d in prev && prev[d].meta.origin == s.origin &&
              (prev[d].meta.entrySig == "" || prev[d].meta.entrySig == s.sig))))
      && (d in dst ==> out[d] == dst[d])
      && (d in out && d !in dst ==>
            && SameLifecycle(out[d], prev[d]) && out[d].source == prev[d].source
            && out[d].meta.origin == s.origin && out[d].meta.entrySig == s.sig
            && out[d].meta.isBundleImage == prev[d].meta.isBundleImage
            && (prev[d].meta.originRef != "" ==> out[d].meta.originRef == prev[d].meta.originRef)
            && (prev[d].meta.catalog != "" ==> out[d].meta.catalog == prev[d].meta.catalog))
  {
  }

  /** A chart that could not be resolved: exactly its entries join, and those that
      carry no reference. */
  lemma CarryHelmOutcome(dst: EntryMap, s: Section, prev: EntryMap, d: Dest)
    requires s.CarryOverHelm?
    ensures
      var out := RunSection(dst, s, prev);
      && (d in out <==>
            (d in dst ||
             (d in prev && (prev[d].meta.origin == OriginHelm || prev[d].meta.origin == OriginHelmChart) &&
              (prev[d].meta.originRef == "" || s.originRef <= prev[d].meta.originRef))))
      && (d in dst ==> out[d] == dst[d])
      && (d in out && d !in dst ==> SameLifecycle(out[d], prev[d]) && out[d].meta.entrySig == prev[d].meta.entrySig)
  {
  }

  /** The merge of a resolve: a live entry gets the resolved source, and the resolved
      metadata exactly if no other ImageSet owns it; a new one enters as resolved;
      what was not resolved stays as it is. */
  lemma MergeOutcome(m: Memory, resolved: EntryMap, name: Name, d: Dest)
    ensures
      var m' := Ownership.Merged(m, resolved, name);
      && (d in m'.imageState <==> d in m.imageState || d in resolved)
      && (d in m.imageState && d !in resolved ==> m'.imageState[d] == m.imageState[d])
      && (d !in m.imageState && d in resolved ==> m'.imageState[d] == resolved[d])
      && (d in m.imageState && d in resolved ==>
            m'.imageState[d] == m.imageState[d].(source := resolved[d].source,
              meta := if exists n :: OwnedBy(m, d, n) && n != name then m.imageState[d].meta else resolved[d].meta))
  {
    assert forall n :: n in OwnersOf(m.owners, d) <==> OwnedBy(m, d, n);
    assert OnlyOwner(m.owners, d, name) <==> forall n :: OwnedBy(m, d, n) ==> n == name;
  }
}

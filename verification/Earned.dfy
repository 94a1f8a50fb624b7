/** Exactly which steps make a destination Mirrored without a reason, in any
    state a run can reach, whether its flags are honest or not. */
module Earned {
  import opened Options
  import opened ImageState
  import opened ManagerModel
  import opened Lifecycle
  import opened Ownership
  import opened Persistence
  import opened Resolve
  import opened Runs

  /** The step makes d Mirrored although nothing earned it. */
  ghost predicate UnearnedAt(s: Sys, e: Event, d: Dest)
  {
    MirroredIn(Next(s, e).mem, d) && !MirroredIn(s.mem, d) && !Earns(s, e, d)
  }

  ghost predicate MakesUnearned(s: Sys, e: Event)
  {
    exists d :: UnearnedAt(s, e, d)
  }

  /** An owned entry that is not Mirrored carries a flag. */
  ghost predicate FlaggedAt(m: Memory, d: Dest)
  {
    d in m.imageState && !Orphaned(m, d) && d in m.mirrored && m.imageState[d].state != Mirrored
  }

  ghost predicate TickMeetsFlagged(s: Sys, e: Event)
  {
    e.PhaseD? && exists d :: FlaggedAt(s.mem, d)
  }

  /** The view of a resolve under way stays live. */
  ghost predicate Viewed(s: Sys)
  {
    s.phase.Resolving? ==> s.phase.view.Keys <= s.mem.imageState.Keys
  }

  // -------------------------------------------------------------- by region

  lemma ReportEarned(m: Memory, r: Report, d: Dest)
    requires MirroredIn(ApplyStatus(m, r), d)
    ensures MirroredIn(m, d) || (d == r.dest && r.error == "")
  {
  }

  lemma {:induction false} ReportsEarned(m: Memory, rs: seq<Report>, d: Dest)
    requires MirroredIn(ApplyAll(m, rs), d)
    ensures MirroredIn(m, d) || SuccessFor(rs, d)
  {
    if rs != [] {
      var n := |rs| - 1;
      assert rs == rs[..n] + [rs[n]];
      ReportEarned(ApplyAll(m, rs[..n]), rs[n], d);
      if MirroredIn(ApplyAll(m, rs[..n]), d) {
        ReportsEarned(m, rs[..n], d);
      } else {
        assert rs[n] in rs;
      }
    }
  }

  lemma DrainEarned(m: Memory, d: Dest)
    requires MirroredIn(Drain(m), d)
    ensures MirroredIn(m, d) || SuccessFor(m.queue, d)
  {
    ReportsEarned(m.(queue := []), m.queue, d);
  }

  lemma CleanupOneEarned(m: Memory, f: Finished, d: Dest)
    requires MirroredIn(CleanupOne(m, f), d)
    ensures MirroredIn(m, d)
  {
  }

  lemma {:induction false} CleanupAllEarned(m: Memory, done: seq<Finished>, d: Dest)
    requires MirroredIn(CleanupAll(m, done), d)
    ensures MirroredIn(m, d)
  {
    if done != [] {
      var n := |done| - 1;
      CleanupOneEarned(CleanupAll(m, done[..n]), done[n], d);
      CleanupAllEarned(m, done[..n], d);
    }
  }

  lemma DriftEarned(m: Memory, x: Dest, snap: Entry, p: Probe, d: Dest)
    requires snap.state == Mirrored || RecoveryCheck(snap)
    requires MirroredIn(DriftApply(m, x, snap, p), d)
    ensures MirroredIn(m, d) || (x == d && !p.failed && p.present)
  {
    DriftTouches(m, x, snap, p);
    if x in m.imageState {
      DriftChangeFacts(m.imageState[x], snap, p, EffectiveMaxRetries(m.maxRetries));
    }
  }

  lemma ResetEarned(m: Memory, name: Name, d: Dest)
    ensures MirroredIn(Resync(m, name), d) ==> MirroredIn(m, d)
    ensures MirroredIn(RecollectReset(m, name), d) ==> MirroredIn(m, d)
  {
  }

  lemma DropEarned(m: Memory, spec: set<Name>, d: Dest)
    requires MirroredIn(DropRemoved(m, spec), d)
    ensures MirroredIn(m, d)
  {
  }

  lemma FinishEarned(s: Sys, e: Event, d: Dest)
    requires Viewed(s) && Enabled(s, e) && e.FinishResolve? && MirroredIn(Next(s, e).mem, d)
    ensures MirroredIn(s.mem, d)
  {
    var m, name, view := s.mem, s.phase.name, s.phase.view;
    var resolved := Resolved(view, e.sections, e.blocked);
    var merge := !EqualState(view, resolved) || view == map[];
    EndResolveIsCore(m, name, resolved, merge, e.recollect, e.digests);
    var core := if merge then Merged(m, resolved, name) else m;
    ResetEarned(core, name, d);
    assert MirroredIn(core, d);
    if merge {
      MergeEarned(m, resolved, name, d);
      if d in resolved && d !in m.imageState {
        ResolvedNewPending(view, e.sections, e.blocked, d);
      }
    }
  }

  lemma MergeEarned(m: Memory, resolved: EntryMap, name: Name, d: Dest)
    requires MirroredIn(Merged(m, resolved, name), d)
    ensures MirroredIn(m, d) || (d in resolved && d !in m.imageState && resolved[d].state == Mirrored)
  {
    MergeKeepsLifecycle(m, resolved, name);
  }

  lemma LoadEarned(s: Sys, e: Event, d: Dest)
    requires e.LoadState? && DistinctNames(e.stored) && MirroredIn(Next(s, e).mem, d)
    ensures Earns(s, e, d)
  {
    LoadAfterPartialFlush(s.mem, e.stored);
    assert IsCopy(e.stored, d, Next(s, e).mem.imageState[d]);
  }

  /** The tick makes exactly the flagged owned entries Mirrored. */
  lemma TickEarnedIff(m: Memory, now: int, d: Dest)
    ensures MirroredIn(Tick(m, now), d) && !MirroredIn(m, d) <==> FlaggedAt(m, d)
  {
  }

  // ------------------------------------------------------------------- steps

  lemma StepUnearnedAt(s: Sys, e: Event, d: Dest)
    requires Viewed(s) && Enabled(s, e) && (e.LoadState? ==> DistinctNames(e.stored))
    ensures UnearnedAt(s, e, d) <==> e.PhaseD? && FlaggedAt(s.mem, d)
  {
    if e.PhaseD? {
      TickEarnedIff(s.mem, e.now, d);
    } else if MirroredIn(Next(s, e).mem, d) {
      EarnedOrBefore(s, e, d);
    }
  }

  lemma EarnedOrBefore(s: Sys, e: Event, d: Dest)
    requires Viewed(s) && Enabled(s, e) && (e.LoadState? ==> DistinctNames(e.stored)) && !e.PhaseD?
    requires MirroredIn(Next(s, e).mem, d)
    ensures MirroredIn(s.mem, d) || Earns(s, e, d)
  {
    match e
    case DrainQueue => DrainEarned(s.mem, d);
    case CleanupWorkers(done) => CleanupEarned(s.mem, done, d);
    case DriftResult(x, snap, p) => DriftEarned(s.mem, x, snap, p, d);
    case ForceResync(name) => ResetEarned(s.mem, name, d);
    case StartTick(spec, maxRetries) => DropEarned(s.mem.(maxRetries := maxRetries), spec, d);
    case FinishResolve(_, _, _, _) => FinishEarned(s, e, d);
    case LoadState(_) => LoadEarned(s, e, d);
    case _ =>
  }

  lemma CleanupEarned(m: Memory, done: seq<Finished>, d: Dest)
    requires MirroredIn(Cleanup(m, done), d)
    ensures MirroredIn(m, d) || (done != [] && SuccessFor(m.queue, d))
  {
    if done != [] {
      CleanupAllEarned(Drain(m), done, d);
      DrainEarned(m, d);
    }
  }

  /** A step makes something Mirrored unearned exactly if it is a tick that meets
      an owned, flagged entry that is not Mirrored. */
  lemma StepUnearnedIff(s: Sys, e: Event)
    requires Viewed(s) && Enabled(s, e) && (e.LoadState? ==> DistinctNames(e.stored))
    ensures MakesUnearned(s, e) <==> TickMeetsFlagged(s, e)
  {
    forall d ensures UnearnedAt(s, e, d) <==> e.PhaseD? && FlaggedAt(s.mem, d) { StepUnearnedAt(s, e, d); }
  }

  // -------------------------------------------------------------------- runs

  /** While a resolve is under way, nothing leaves the working set. */
  lemma StepViewed(s: Sys, e: Event)
    requires Viewed(s) && Enabled(s, e)
    ensures Viewed(Next(s, e))
  {
    match e
    case DrainQueue => ReportsSameSpec(s.mem.(queue := []), s.mem.queue);
    case DriftResult(d, snap, p) => DriftSameSpec(s.mem, d, snap, p);
    case _ =>
  }

  lemma {:induction false} RunViewed(states: seq<Sys>, events: seq<Event>, i: nat)
    requires Run(states, events) && i <= |events|
    ensures Viewed(states[i])
  {
    if i > 0 {
      RunViewed(states, events, i - 1);
      StepViewed(states[i - 1], events[i - 1]);
    }
  }

  ghost predicate NothingUnearned(states: seq<Sys>, events: seq<Event>, n: nat)
    requires n <= |events| < |states|
  {
    forall k :: 0 <= k < n ==> !MakesUnearned(states[k], events[k])
  }

  ghost predicate NoTickMeetsFlagged(states: seq<Sys>, events: seq<Event>, n: nat)
    requires n <= |events| < |states|
  {
    forall k :: 0 <= k < n ==> !TickMeetsFlagged(states[k], events[k])
  }

  /** In a run, whatever becomes Mirrored is earned exactly if no tick meets an
      owned, flagged entry that is not Mirrored. */
  lemma RunEarnedIff(states: seq<Sys>, events: seq<Event>, n: nat)
    requires Run(states, events) && n <= |events|
    ensures NothingUnearned(states, events, n) <==> NoTickMeetsFlagged(states, events, n)
  {
    forall k | 0 <= k < n ensures MakesUnearned(states[k], events[k]) <==> TickMeetsFlagged(states[k], events[k])
    {
      RunViewed(states, events, k);
      StepUnearnedIff(states[k], events[k]);
    }
  }

  /** In such a run every Mirrored destination has the step that earned it, after
      which it stayed Mirrored. */
  lemma {:induction false} EarnedSince(states: seq<Sys>, events: seq<Event>, i: nat, d: Dest)
    returns (j: nat)
    requires Run(states, events) && i <= |events| && MirroredIn(states[i].mem, d)
    requires NoTickMeetsFlagged(states, events, i)
    ensures j < i && Earns(states[j], events[j], d)
    ensures forall k :: j < k <= i ==> MirroredIn(states[k].mem, d)
  {
    if i == 0 {
      assert false;
    } else {
      RunViewed(states, events, i - 1);
      StepUnearnedAt(states[i - 1], events[i - 1], d);
      assert !TickMeetsFlagged(states[i - 1], events[i - 1]);
      if Earns(states[i - 1], events[i - 1], d) {
        j := i - 1;
      } else {
        j := EarnedSince(states, events, i - 1, d);
      }
    }
  }
}

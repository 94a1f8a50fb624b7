/** Exactly which runs keep the fast-path flags honest. */
module FlagHonesty {
  import opened Options
  import opened ImageState
  import opened ManagerModel
  import opened Lifecycle
  import opened Ownership
  import opened Persistence
  import opened Resolve
  import opened Runs

  /** The step brings back a destination whose flag was left set when it was
      taken out: a merge adds it anew, or it is loaded from copies none of which
      is Mirrored. */
  ghost predicate BringsBackFlagged(s: Sys, e: Event)
  {
    match e
    case FinishResolve(sections, blocked, _, _) =>
      s.phase.Resolving? &&
      (var resolved := Resolved(s.phase.view, sections, blocked);
       (!EqualState(s.phase.view, resolved) || s.phase.view == map[]) &&
       exists d :: d in resolved && d !in s.mem.imageState && d in s.mem.mirrored)
    case LoadState(stored) => exists d :: d in s.mem.mirrored && OnlyUnmirrored(stored, d)
    case _ => false
  }

  ghost predicate OnlyUnmirrored(stored: seq<Stored>, d: Dest)
  {
    && (exists i :: HasCopy(stored, d, i))
    && forall i :: HasCopy(stored, d, i) ==> stored[i].cm.entries[d].state != Mirrored
  }

  /** Everything but the honesty of the flags holds in every run anyway. */
  ghost predicate Sound(s: Sys)
  {
    Inv(s, s.mem.mirrored)
  }

  lemma MergeBringsBack(s: Sys, e: Event, d: Dest)
    requires Sound(s) && Enabled(s, e) && e.FinishResolve?
    requires
      var resolved := Resolved(s.phase.view, e.sections, e.blocked);
      && (!EqualState(s.phase.view, resolved) || s.phase.view == map[])
      && d in resolved && d !in s.mem.imageState && d in s.mem.mirrored
    ensures !FlagsHonest(Next(s, e).mem)
  {
    var resolved := Resolved(s.phase.view, e.sections, e.blocked);
    ResolvedNewPending(s.phase.view, e.sections, e.blocked, d);
    EndResolveIsCore(s.mem, s.phase.name, resolved, true, e.recollect, e.digests);
    var core := Merged(s.mem, resolved, s.phase.name);
    assert core.imageState[d] == resolved[d] && d in core.mirrored;
    RecollectKeepsPending(core, s.phase.name, d);
    assert Next(s, e).mem.imageState[d].state == Pending && d in Next(s, e).mem.mirrored;
  }

  lemma RecollectKeepsPending(m: Memory, name: Name, d: Dest)
    requires d in m.imageState && m.imageState[d].state == Pending && d in m.mirrored
    ensures
      var m' := RecollectReset(m, name);
      d in m'.imageState && m'.imageState[d].state == Pending && d in m'.mirrored
  {
  }

  lemma FinishHonestIff(s: Sys, e: Event)
    requires Sound(s) && Enabled(s, e) && e.FinishResolve?
    ensures FlagsHonest(Next(s, e).mem) <==> !BringsBackFlagged(s, e)
    ensures FlagsHonest(Next(s, e).mem) ==> Sound(Next(s, e))
  {
    if BringsBackFlagged(s, e) {
      var resolved := Resolved(s.phase.view, e.sections, e.blocked);
      var d :| d in resolved && d !in s.mem.imageState && d in s.mem.mirrored;
      MergeBringsBack(s, e, d);
    } else {
      FinishHonest(s, e);
    }
  }

  lemma FinishHonest(s: Sys, e: Event)
    requires Sound(s) && Enabled(s, e) && e.FinishResolve? && !BringsBackFlagged(s, e)
    ensures Sound(Next(s, e)) && OnlyEarned(s, e, Next(s, e))
  {
    var m, name, view := s.mem, s.phase.name, s.phase.view;
    var resolved := Resolved(view, e.sections, e.blocked);
    var merge := !EqualState(view, resolved) || view == map[];
    forall d | d in resolved && d !in m.imageState ensures resolved[d].state == Pending
    {
      ResolvedNewPending(view, e.sections, e.blocked, d);
    }
    MergedHonest(m, resolved, name, merge);
    CoreHonest(if merge then Merged(m, resolved, name) else m, name, e.recollect);
    EndResolveIsCore(m, name, resolved, merge, e.recollect, e.digests);
    SameDataHonest(Next(s, e).mem, ResolveCore(m, name, resolved, merge, e.recollect));
  }

  lemma SameDataHonest(a: Memory, b: Memory)
    requires SameData(a, b) && FlagsHonest(b) && OwnersLive(b)
    ensures FlagsHonest(a) && OwnersLive(a) && StaleFlags(a, a.mirrored)
    ensures forall d :: MirroredIn(a, d) <==> MirroredIn(b, d)
  {
  }

  lemma MergedHonest(m: Memory, resolved: EntryMap, name: Name, merge: bool)
    requires FlagsHonest(m) && OwnersLive(m)
    requires forall d :: d in resolved && d !in m.imageState ==> resolved[d].state == Pending
    requires merge ==> forall d :: d in resolved && d !in m.imageState ==> d !in m.mirrored
    ensures
      var core := if merge then Merged(m, resolved, name) else m;
      FlagsHonest(core) && OwnersLive(core) && forall d :: MirroredIn(core, d) ==> MirroredIn(m, d)
  {
    if merge {
      MergeKeepsLifecycle(m, resolved, name);
      MergeKeepsFlagsIff(m, resolved, name);
      MergedKeepsLive(m, resolved, name);
    }
  }

  lemma CoreHonest(core: Memory, name: Name, recollect: bool)
    requires FlagsHonest(core) && OwnersLive(core)
    ensures
      var m := if recollect then RecollectReset(core, name) else core;
      FlagsHonest(m) && OwnersLive(m) && forall d :: MirroredIn(m, d) ==> MirroredIn(core, d)
  {
    RecollectSameSpec(core, name);
    RecollectKeepsFlags(core, name, core.mirrored);
  }

  lemma LoadHonestIff(s: Sys, e: Event)
    requires Sound(s) && Enabled(s, e) && e.LoadState? && DistinctNames(e.stored)
    ensures FlagsHonest(Next(s, e).mem) <==> !BringsBackFlagged(s, e)
    ensures FlagsHonest(Next(s, e).mem) ==> Sound(Next(s, e))
  {
    var m' := Next(s, e).mem;
    LoadAfterPartialFlush(s.mem, e.stored);
    LoadKeepsRest(s.mem, e.stored);
    forall d ensures (d in m'.imageState && m'.imageState[d].state != Mirrored) <==> OnlyUnmirrored(e.stored, d)
    {
      LoadedUnmirrored(m', e.stored, d);
    }
  }

  lemma LoadedUnmirrored(m: Memory, stored: seq<Stored>, d: Dest)
    requires LoadedFrom(m, stored) && MostProgress(m, stored)
    ensures (d in m.imageState && m.imageState[d].state != Mirrored) <==> OnlyUnmirrored(stored, d)
  {
    if d in m.imageState {
      assert IsCopy(stored, d, m.imageState[d]);
    }
  }

  lemma StepHonestIff(s: Sys, e: Event)
    requires Sound(s) && Enabled(s, e) && (e.LoadState? ==> DistinctNames(e.stored))
    ensures FlagsHonest(Next(s, e).mem) <==> !BringsBackFlagged(s, e)
    ensures FlagsHonest(Next(s, e).mem) ==> Sound(Next(s, e))
  {
    if e.FinishResolve? {
      FinishHonestIff(s, e);
    } else if e.LoadState? {
      LoadHonestIff(s, e);
    } else if e.DrainQueue? || e.CleanupWorkers? || e.DriftResult? || e.Acknowledge? {
      StepReports(s, e, s.mem.mirrored);
    } else {
      StepReconcile(s, e, s.mem.mirrored);
    }
  }

  ghost predicate HonestTo(states: seq<Sys>, n: nat)
    requires n < |states|
  {
    forall i :: 0 <= i <= n ==> FlagsHonest(states[i].mem)
  }

  ghost predicate NoneBroughtBack(states: seq<Sys>, events: seq<Event>, n: nat)
    requires n <= |events| < |states|
  {
    forall k :: 0 <= k < n ==> !BringsBackFlagged(states[k], events[k])
  }

  lemma {:induction false} HonestUpTo(states: seq<Sys>, events: seq<Event>, n: nat)
    requires Run(states, events) && n <= |events|
    ensures HonestTo(states, n) <==> NoneBroughtBack(states, events, n)
    ensures HonestTo(states, n) ==> Sound(states[n])
  {
    if n > 0 {
      HonestUpTo(states, events, n - 1);
      HonestMore(states, n);
      if HonestTo(states, n - 1) {
        RunStepHonest(states, events, n - 1);
      }
    }
  }

  lemma HonestMore(states: seq<Sys>, n: nat)
    requires 0 < n < |states|
    ensures HonestTo(states, n) <==> HonestTo(states, n - 1) && FlagsHonest(states[n].mem)
  {
  }

  lemma RunStepHonest(states: seq<Sys>, events: seq<Event>, k: nat)
    requires Run(states, events) && k < |events| && Sound(states[k])
    ensures FlagsHonest(states[k + 1].mem) <==> !BringsBackFlagged(states[k], events[k])
    ensures FlagsHonest(states[k + 1].mem) ==> Sound(states[k + 1])
  {
    StepHonestIff(states[k], events[k]);
  }

  /** The flag of every live destination agrees with its entry in all states of a
      run exactly if no step of the run brings back a flagged destination. */
  lemma HonestIff(states: seq<Sys>, events: seq<Event>)
    requires Run(states, events)
    ensures HonestTo(states, |events|) <==> NoneBroughtBack(states, events, |events|)
  {
    HonestUpTo(states, events, |events|);
  }

  lemma StepEarned(s: Sys, e: Event)
    requires Sound(s) && Enabled(s, e) && (e.LoadState? ==> DistinctNames(e.stored)) && !BringsBackFlagged(s, e)
    ensures OnlyEarned(s, e, Next(s, e))
  {
    if e.FinishResolve? {
      FinishHonest(s, e);
    } else if e.LoadState? {
      LoadAfterPartialFlush(s.mem, e.stored);
      forall d | MirroredIn(Next(s, e).mem, d) ensures Earns(s, e, d)
      {
        assert IsCopy(e.stored, d, Next(s, e).mem.imageState[d]);
      }
    } else if e.DrainQueue? || e.CleanupWorkers? || e.DriftResult? || e.Acknowledge? {
      StepReports(s, e, s.mem.mirrored);
    } else {
      StepReconcile(s, e, s.mem.mirrored);
    }
  }

  /** In every run that brings back no flagged destination, whatever is Mirrored
      was earned after it last was not, even if destinations were swept and came
      back with their flag cleared. */
  lemma {:induction false} EarnedUnlessBroughtBack(states: seq<Sys>, events: seq<Event>, i: nat, d: Dest)
    returns (j: nat)
    requires Run(states, events) && i <= |events| && MirroredIn(states[i].mem, d)
    requires NoneBroughtBack(states, events, i)
    ensures j < i && Earns(states[j], events[j], d)
    ensures forall k :: j < k <= i ==> MirroredIn(states[k].mem, d)
  {
    if i == 0 {
      assert false;
    } else {
      HonestUpTo(states, events, i - 1);
      StepEarned(states[i - 1], events[i - 1]);
      if Earns(states[i - 1], events[i - 1], d) {
        j := i - 1;
      } else {
        j := EarnedUnlessBroughtBack(states, events, i - 1, d);
      }
    }
  }
}

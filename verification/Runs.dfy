/** Every interleaving of the manager's lock-held regions with worker reports,
    drift results and a resolve that releases the lock in the middle. */
module Runs {
  import opened Options
  import opened ImageState
  import opened ManagerModel
  import opened Lifecycle
  import opened Ownership
  import opened Persistence
  import opened Resolve

  /** Whether the reconcile loop is inside a resolve, without the lock, and the
      view the resolve started from. */
  datatype Phase = Idle | Resolving(name: Name, view: EntryMap)

  datatype Sys = Sys(mem: Memory, phase: Phase)

  datatype Event =
    | Acknowledge(report: Report)
    | DrainQueue
    | CleanupWorkers(done: seq<Finished>)
    | DriftResult(dest: Dest, snap: Entry, probe: Probe)
    | ForceResync(name: Name)
    | BeginResolve(name: Name)
    | AbandonResolve
    | FinishResolve(sections: seq<Section>, blocked: set<string>, recollect: bool, digests: map<string, string>)
    | StartTick(spec: set<Name>, maxRetries: int)
    | PhaseD(now: int)
    | StartBatch(batch: seq<Dest>, pod: Pod, early: seq<Report>)
    | LoadState(stored: seq<Stored>)
    | Saved

  /** Only reports, drains and drift results run while a resolve is under way;
      the other regions belong to the reconcile loop itself. */
  predicate Enabled(s: Sys, e: Event)
  {
    match e
    case Acknowledge(_) => true
    case DrainQueue => true
    case DriftResult(_, snap, _) => snap.state == Mirrored || RecoveryCheck(snap)
    case AbandonResolve => s.phase.Resolving?
    case FinishResolve(_, _, _, _) => s.phase.Resolving?
    case LoadState(stored) => s.phase.Idle? && s.mem.imageState == map[]
    case _ => s.phase.Idle?
  }

  function Next(s: Sys, e: Event): Sys
  {
    match e
    case Acknowledge(r) => s.(mem := s.mem.(queue := s.mem.queue + [r]))
    case DrainQueue => s.(mem := Drain(s.mem))
    case CleanupWorkers(done) => s.(mem := Cleanup(s.mem, done))
    case DriftResult(d, snap, p) => s.(mem := DriftApply(s.mem, d, snap, p))
    case ForceResync(name) => s.(mem := Resync(s.mem, name))
    case BeginResolve(name) => s.(phase := Resolving(name, View(s.mem, name)))
    case AbandonResolve => s.(phase := Idle)
    case FinishResolve(sections, blocked, recollect, digests) =>
      if s.phase.Idle? then s else
        var resolved := Resolved(s.phase.view, sections, blocked);
        var merge := !EqualState(s.phase.view, resolved) || s.phase.view == map[];
        Sys(EndResolve(s.mem, s.phase.name, resolved, merge, recollect, digests), Idle)
    case StartTick(spec, maxRetries) => s.(mem := DropRemoved(s.mem.(maxRetries := maxRetries), spec))
    case PhaseD(now) => s.(mem := Tick(s.mem, now))
    case StartBatch(batch, pod, early) => s.(mem := Dispatch(s.mem, batch, pod, early))
    case LoadState(stored) => s.(mem := Load(s.mem, stored))
    case Saved => s.(mem := s.mem.(stateDirty := false))
  }

  ghost predicate Run(states: seq<Sys>, events: seq<Event>)
  {
    && |states| == |events| + 1
    && states[0] == Sys(FRESH.(inProgress := states[0].mem.inProgress), Idle)  // pods recovered at startup
    && (forall i :: 0 <= i < |events| ==> Enabled(states[i], events[i]) && states[i + 1] == Next(states[i], events[i]))
    && (forall i :: 0 <= i < |events| && events[i].LoadState? ==> DistinctNames(events[i].stored))
  }

  /** Destinations the orphan sweep took out of the working set so far. */
  ghost function Swept(states: seq<Sys>, events: seq<Event>, i: nat): set<Dest>
    requires i <= |events| < |states|
  {
    if i == 0 then {} else
      Swept(states, events, i - 1) + SweptBy(states[i - 1], events[i - 1])
  }

  function SweptBy(s: Sys, e: Event): set<Dest>
  {
    if e.PhaseD? then Orphans(s.mem).Keys else {}
  }

  /** No destination the orphan sweep took comes back. */
  ghost predicate NoReAdd(states: seq<Sys>, events: seq<Event>)
    requires |states| == |events| + 1
  {
    forall i: nat, d :: i <= |events| && d in Swept(states, events, i) ==> d !in states[i].mem.imageState
  }

  // ------------------------------------------------------- Mirrored is earned

  /** The step makes d Mirrored for a reason: a worker success is applied, a
      drift check saw the image, or it was stored as Mirrored. */
  ghost predicate Earns(s: Sys, e: Event, d: Dest)
  {
    match e
    case DrainQueue => SuccessFor(s.mem.queue, d)
    case CleanupWorkers(done) => done != [] && SuccessFor(s.mem.queue, d)  // nothing finished, nothing drained
    case DriftResult(x, _, p) => x == d && !p.failed && p.present
    case LoadState(stored) => exists i :: HasCopy(stored, d, i) && stored[i].cm.entries[d].state == Mirrored
    case _ => false
  }

  ghost predicate Inv(s: Sys, swept: set<Dest>)
  {
    && FlagsHonest(s.mem) && StaleFlags(s.mem, swept) && OwnersLive(s.mem)
    && (s.phase.Resolving? ==> s.phase.view.Keys <= s.mem.imageState.Keys)
  }

  /** Everything Mirrored after the step was Mirrored before or earned by it. */
  ghost predicate OnlyEarned(s: Sys, e: Event, s': Sys)
  {
    forall d :: MirroredIn(s'.mem, d) ==> MirroredIn(s.mem, d) || Earns(s, e, d)
  }

  lemma StepReports(s: Sys, e: Event, swept: set<Dest>)
    requires Inv(s, swept) && Enabled(s, e)
    requires e.DrainQueue? || e.CleanupWorkers? || e.DriftResult? || e.Acknowledge?
    ensures Inv(Next(s, e), swept) && OnlyEarned(s, e, Next(s, e))
  {
    var m := s.mem.(queue := []);
    match e
    case Acknowledge(_) =>
    case DrainQueue =>
      ReportsKeepFlags(m, s.mem.queue, swept);
      ReportsSameSpec(m, s.mem.queue);
    case CleanupWorkers(done) =>
      ReportsKeepFlags(m, s.mem.queue, swept);
      ReportsSameSpec(m, s.mem.queue);
      CleanupAllKeepsFlags(Drain(s.mem), done, swept);
      CleanupAllSameSpec(Drain(s.mem), done);
    case DriftResult(d, snap, p) =>
      DriftKeepsFlags(s.mem, d, snap, p, swept);
      DriftSameSpec(s.mem, d, snap, p);
  }

  lemma StepReconcile(s: Sys, e: Event, swept: set<Dest>)
    requires Inv(s, swept) && Enabled(s, e)
    requires e.ForceResync? || e.StartTick? || e.PhaseD? || e.StartBatch? || e.Saved? || e.BeginResolve? || e.AbandonResolve?
    ensures Inv(Next(s, e), swept + SweptBy(s, e)) && OnlyEarned(s, e, Next(s, e))
  {
    match e
    case ForceResync(name) =>
      ResyncKeepsFlags(s.mem, name, swept);
      ResetsSameSpec(s.mem, name);
    case StartTick(spec, maxRetries) =>
      DropKeepsFlags(s.mem.(maxRetries := maxRetries), spec, swept);
      DropKeepsLive(s.mem.(maxRetries := maxRetries), spec);
    case PhaseD(now) =>
      TickKeepsFlags(s.mem, now, swept);
      TickKeepsLive(s.mem, now);
    case _ =>
  }

  lemma StepLoad(s: Sys, e: Event, swept: set<Dest>)
    requires Inv(s, swept) && Enabled(s, e) && e.LoadState? && DistinctNames(e.stored)
    requires forall d :: d in swept ==> d !in Next(s, e).mem.imageState
    ensures Inv(Next(s, e), swept) && OnlyEarned(s, e, Next(s, e))
  {
    LoadAfterPartialFlush(s.mem, e.stored);
    LoadKeepsRest(s.mem, e.stored);
    var m' := Next(s, e).mem;
    forall d | MirroredIn(m', d) ensures Earns(s, e, d)
    {
      assert IsCopy(e.stored, d, m'.imageState[d]);
    }
  }

  lemma {:induction false} LoadAllKeepsRest(m: Memory, stored: seq<Stored>)
    ensures LoadAll(m, stored).mirrored == m.mirrored
    ensures LoadAll(m, stored).inProgress == m.inProgress && LoadAll(m, stored).queue == m.queue
    ensures LoadAll(m, stored).maxRetries == m.maxRetries
  {
    if stored != [] {
      LoadAllKeepsRest(m, stored[..|stored| - 1]);
    }
  }

  lemma LoadKeepsRest(m: Memory, stored: seq<Stored>)
    ensures Load(m, stored).mirrored == m.mirrored
    ensures Load(m, stored).inProgress == m.inProgress && Load(m, stored).queue == m.queue
    ensures Load(m, stored).maxRetries == m.maxRetries
  {
    LoadAllKeepsRest(m.(imageState := map[], owners := map[], ownerMeta := map[], catalogDigests := map[]), stored);
  }

  /** A resolve adds only Pending entries: its view stayed live throughout. */
  lemma StepResolve(s: Sys, e: Event, swept: set<Dest>)
    requires Inv(s, swept) && Enabled(s, e) && e.FinishResolve?
    requires forall d :: d in swept ==> d !in Next(s, e).mem.imageState
    ensures Inv(Next(s, e), swept) && OnlyEarned(s, e, Next(s, e))
  {
    var m, name, view := s.mem, s.phase.name, s.phase.view;
    var resolved := Resolved(view, e.sections, e.blocked);
    var merge := !EqualState(view, resolved) || view == map[];
    forall d | d in resolved && d !in m.imageState ensures resolved[d].state == Pending
    {
      ResolvedNewPending(view, e.sections, e.blocked, d);
    }
    EndResolveIsCore(m, name, resolved, merge, e.recollect, e.digests);
    var core := if merge then Merged(m, resolved, name) else m;
    if e.recollect { ResetsSameSpec(core, name); }
    assert core.imageState.Keys == Next(s, e).mem.imageState.Keys;
    MergeStepKeeps(m, resolved, name, merge, swept);
    if e.recollect { RecollectKeepsFlags(core, name, swept); }
  }

  lemma MergeStepKeeps(m: Memory, resolved: EntryMap, name: Name, merge: bool, swept: set<Dest>)
    requires FlagsHonest(m) && StaleFlags(m, swept) && OwnersLive(m)
    requires forall d :: d in resolved && d !in m.imageState ==> resolved[d].state == Pending
    requires
      var core := if merge then Merged(m, resolved, name) else m;
      forall d :: d in swept ==> d !in core.imageState
    ensures
      var core := if merge then Merged(m, resolved, name) else m;
      && FlagsHonest(core) && StaleFlags(core, swept) && OwnersLive(core)
      && forall d :: MirroredIn(core, d) ==> MirroredIn(m, d)
  {
    if merge {
      MergeKeepsLifecycle(m, resolved, name);
      MergeKeepsFlagsIff(m, resolved, name);
      MergedKeepsLive(m, resolved, name);
    }
  }

  lemma StepKeeps(s: Sys, e: Event, swept: set<Dest>)
    requires Inv(s, swept) && Enabled(s, e)
    requires e.LoadState? ==> DistinctNames(e.stored)
    requires forall d :: d in swept + SweptBy(s, e) ==> d !in Next(s, e).mem.imageState
    ensures Inv(Next(s, e), swept + SweptBy(s, e)) && OnlyEarned(s, e, Next(s, e))
  {
    if e.DrainQueue? || e.CleanupWorkers? || e.DriftResult? || e.Acknowledge? {
      StepReports(s, e, swept);
    } else if e.LoadState? {
      StepLoad(s, e, swept);
    } else if e.FinishResolve? {
      StepResolve(s, e, swept);
    } else {
      StepReconcile(s, e, swept);
    }
  }

  lemma {:induction false} RunKeeps(states: seq<Sys>, events: seq<Event>, i: nat)
    requires Run(states, events) && NoReAdd(states, events) && i <= |events|
    ensures Inv(states[i], Swept(states, events, i))
  {
    if i > 0 {
      RunKeeps(states, events, i - 1);
      assert Swept(states, events, i) == Swept(states, events, i - 1) + SweptBy(states[i - 1], events[i - 1]);
      StepKeeps(states[i - 1], events[i - 1], Swept(states, events, i - 1));
    }
  }

  /** The fast-path flag never disagrees with the entry, so the defensive sync
      of Phase D never fires. */
  lemma DefensiveSyncNeverFires(states: seq<Sys>, events: seq<Event>, i: nat, d: Dest)
    requires Run(states, events) && NoReAdd(states, events) && i <= |events|
    requires d in states[i].mem.imageState && d in states[i].mem.mirrored
    ensures states[i].mem.imageState[d].state == Mirrored
  {
    RunKeeps(states, events, i);
  }

  /** In every interleaving, an entry is Mirrored only if, since it last was
      not, it was stored as Mirrored, reported mirrored or seen in the registry. */
  lemma {:induction false} MirroredIsEarned(states: seq<Sys>, events: seq<Event>, i: nat, d: Dest)
    returns (j: nat)
    requires Run(states, events) && NoReAdd(states, events) && i <= |events|
    requires MirroredIn(states[i].mem, d)
    ensures j < i && Earns(states[j], events[j], d)
    ensures forall k :: j < k <= i ==> MirroredIn(states[k].mem, d)
  {
    if i == 0 {
      assert false;
    } else {
      RunKeeps(states, events, i - 1);
      assert Swept(states, events, i) == Swept(states, events, i - 1) + SweptBy(states[i - 1], events[i - 1]);
      StepKeeps(states[i - 1], events[i - 1], Swept(states, events, i - 1));
      if Earns(states[i - 1], events[i - 1], d) {
        j := i - 1;
      } else {
        j := MirroredIsEarned(states, events, i - 1, d);
      }
    }
  }
}

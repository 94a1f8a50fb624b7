/** Whole-run properties: worker reports, the retry budget and cache hits. */
module RunProperties {
  import opened Options
  import opened ImageState
  import opened ManagerModel
  import opened Lifecycle
  import opened Ownership
  import opened Persistence
  import opened Resolve
  import opened Runs
  import opened Earned

  // -------------------------------------------------------- what steps leave

  lemma DrainTracking(m: Memory)
    ensures Drain(m).queue == [] && Drain(m).inProgress == m.inProgress - (set r | r in m.queue :: r.dest)
  {
    ReportsTracking(m.(queue := []), m.queue);
  }

  lemma {:induction false} ReportsTracking(m: Memory, rs: seq<Report>)
    ensures ApplyAll(m, rs).queue == m.queue
    ensures ApplyAll(m, rs).inProgress == m.inProgress - (set r | r in rs :: r.dest)
  {
    if rs != [] {
      var n := |rs| - 1;
      ReportsTracking(m, rs[..n]);
      assert rs == rs[..n] + [rs[n]];
      assert (set r | r in rs :: r.dest) == (set r | r in rs[..n] :: r.dest) + {rs[n].dest};
    }
  }

  lemma {:induction false} CleanupTracking(m: Memory, done: seq<Finished>)
    ensures CleanupAll(m, done).queue == m.queue
    ensures forall d :: d in CleanupAll(m, done).inProgress ==>
      d in m.inProgress && CleanupAll(m, done).inProgress[d] == m.inProgress[d]
  {
    if done != [] {
      CleanupTracking(m, done[..|done| - 1]);
    }
  }

  predicate Drains(e: Event)
  {
    e.DrainQueue? || (e.CleanupWorkers? && e.done != [])
  }

  lemma OtherTracking(s: Sys, e: Event)
    requires Enabled(s, e) && !Drains(e) && !e.Acknowledge? && !e.StartBatch?
    ensures Next(s, e).mem.queue == s.mem.queue && Next(s, e).mem.inProgress == s.mem.inProgress
  {
    match e
    case DriftResult(d, snap, p) => DriftTouches(s.mem, d, snap, p);
    case FinishResolve(sections, blocked, recollect, digests) =>
      var resolved := Resolved(s.phase.view, sections, blocked);
      var merge := !EqualState(s.phase.view, resolved) || s.phase.view == map[];
      EndResolveIsCore(s.mem, s.phase.name, resolved, merge, recollect, digests);
    case LoadState(stored) => LoadKeepsRest(s.mem, stored);
    case _ =>
  }

  // ------------------------------------------- every report applied just once

  function AckedBy(e: Event): seq<Report>
  {
    match e
    case Acknowledge(r) => [r]
    case StartBatch(_, _, early) => early
    case _ => []
  }

  /** Reports acknowledged before state i, in arrival order. */
  function Acked(events: seq<Event>, i: nat): seq<Report>
    requires i <= |events|
  {
    if i == 0 then [] else Acked(events, i - 1) + AckedBy(events[i - 1])
  }

  /** Reports applied before state i, in the order they were applied. */
  function Applied(states: seq<Sys>, events: seq<Event>, i: nat): seq<Report>
    requires i <= |events| < |states|
  {
    if i == 0 then [] else
      Applied(states, events, i - 1) + (if Drains(events[i - 1]) then states[i - 1].mem.queue else [])
  }

  /** Each acknowledged report is applied exactly once and in arrival order; the
      ones not applied yet are the queue. */
  lemma {:induction false} ReportsAppliedOnceInOrder(states: seq<Sys>, events: seq<Event>, i: nat)
    requires Run(states, events) && i <= |events|
    ensures Acked(events, i) == Applied(states, events, i) + states[i].mem.queue
  {
    if i > 0 {
      ReportsAppliedOnceInOrder(states, events, i - 1);
      QueueStep(states[i - 1], events[i - 1]);
    }
  }

  lemma QueueStep(s: Sys, e: Event)
    requires Enabled(s, e)
    ensures Next(s, e).mem.queue == (if Drains(e) then [] else s.mem.queue) + AckedBy(e)
  {
    if Drains(e) {
      DrainTracking(s.mem);
      if e.CleanupWorkers? { CleanupTracking(Drain(s.mem), e.done); }
    } else if !e.Acknowledge? && !e.StartBatch? {
      OtherTracking(s, e);
    }
  }

  // --------------------------------- a reported destination is never reset

  /** Pod names are unique: once a pod reported, no later batch has its name. */
  ghost predicate ReportedPodsNotReused(events: seq<Event>)
  {
    forall i: nat, r :: i < |events| && r in Acked(events, i) && events[i].StartBatch? ==> events[i].pod != r.pod
  }

  predicate Tracks(m: Memory, d: Dest, pod: Pod)
  {
    d in m.inProgress && m.inProgress[d] == pod
  }

  predicate Queued(m: Memory, d: Dest)
  {
    exists q :: q in m.queue && q.dest == d
  }

  lemma {:induction false} ReportedNotTracked(states: seq<Sys>, events: seq<Event>, i: nat, r: Report)
    requires Run(states, events) && ReportedPodsNotReused(events) && i <= |events|
    requires r in Acked(events, i)
    ensures Queued(states[i].mem, r.dest) || !Tracks(states[i].mem, r.dest, r.pod)
  {
    var s, e := states[i - 1], events[i - 1];
    if r in AckedBy(e) {
      QueueStep(s, e);
      assert r in states[i].mem.queue;
    } else {
      ReportedNotTracked(states, events, i - 1, r);
      if Drains(e) {
        DrainTracking(s.mem);
        if e.CleanupWorkers? { CleanupTracking(Drain(s.mem), e.done); }
      } else if !e.Acknowledge? && !e.StartBatch? {
        OtherTracking(s, e);
      } else {
        QueueStep(s, e);
        if Queued(s.mem, r.dest) {
          var q :| q in s.mem.queue && q.dest == r.dest;
          assert q in states[i].mem.queue;
        }
      }
    }
  }

  /** done without the observations of one pod for one destination. */
  function Ignoring(done: seq<Finished>, d: Dest, pod: Pod): seq<Finished>
  {
    if done == [] then [] else
      var last := done[|done| - 1];
      Ignoring(done[..|done| - 1], d, pod) + (if last.dest == d && last.pod == pod then [] else [last])
  }

  lemma {:induction false} UntrackedIgnored(m: Memory, done: seq<Finished>, d: Dest, pod: Pod)
    requires !Tracks(m, d, pod)
    ensures CleanupAll(m, done) == CleanupAll(m, Ignoring(done, d, pod))
  {
    if done != [] {
      var n := |done| - 1;
      UntrackedIgnored(m, done[..n], d, pod);
      CleanupTracking(m, done[..n]);
      var rest := Ignoring(done[..n], d, pod);
      if !(done[n].dest == d && done[n].pod == pod) {
        assert (rest + [done[n]])[..|rest|] == rest;
      } else {
        assert rest + [] == rest;
      }
    }
  }

  /** If a pod's report for a destination was acknowledged before cleanup acts,
      cleanup does nothing to that destination on that pod's behalf. */
  lemma CleanupNeverUndoesReport(states: seq<Sys>, events: seq<Event>, i: nat, r: Report)
    requires Run(states, events) && ReportedPodsNotReused(events) && i < |events|
    requires r in Acked(events, i) && events[i].CleanupWorkers? && events[i].done != []
    ensures states[i + 1].mem == CleanupAll(Drain(states[i].mem), Ignoring(events[i].done, r.dest, r.pod))
  {
    ReportedNotTracked(states, events, i, r);
    DrainTracking(states[i].mem);
    UntrackedIgnored(Drain(states[i].mem), events[i].done, r.dest, r.pod);
  }

  // -------------------------------------------------------------- retry budget

  /** What one step may do to an entry that stays live: the permanent-failure
      mark is kept, and a newly failed entry has its attempt counted. */
  predicate EntryStep(a: Entry, b: Entry)
  {
    && (a.permanentlyFailed ==> b.permanentlyFailed)
    && (b.state == Failed ==> b.retryCount >= a.retryCount && (a.state != Failed ==> b.retryCount > a.retryCount))
  }

  /** The same for regions that never lower the retry count. */
  predicate EntryGrows(a: Entry, b: Entry)
  {
    EntryStep(a, b) && b.retryCount >= a.retryCount
  }

  lemma {:induction false} ReportsEntry(m: Memory, rs: seq<Report>, d: Dest)
    requires d in m.imageState
    ensures d in ApplyAll(m, rs).imageState && EntryGrows(m.imageState[d], ApplyAll(m, rs).imageState[d])
  {
    if rs != [] {
      ReportsEntry(m, rs[..|rs| - 1], d);
      ReportEntry(ApplyAll(m, rs[..|rs| - 1]), rs[|rs| - 1], d);
    }
  }

  lemma ReportEntry(m: Memory, r: Report, d: Dest)
    requires d in m.imageState
    ensures d in ApplyStatus(m, r).imageState && EntryGrows(m.imageState[d], ApplyStatus(m, r).imageState[d])
  {
    if d == r.dest {
      ReportGrows(m.imageState[d], r, EffectiveMaxRetries(m.maxRetries));
    } else {
      assert ApplyStatus(m, r).imageState[d] == m.imageState[d];
    }
  }

  lemma ReportGrows(e: Entry, r: Report, max: int)
    ensures EntryGrows(e, ReportChange(e, r, max).entry)
  {
  }

  lemma {:induction false} CleanupEntry(m: Memory, done: seq<Finished>, d: Dest)
    requires d in m.imageState
    ensures d in CleanupAll(m, done).imageState && EntryGrows(m.imageState[d], CleanupAll(m, done).imageState[d])
    ensures CleanupAll(m, done).imageState[d].state == Failed ==> m.imageState[d].state == Failed
  {
    if done != [] {
      CleanupEntry(m, done[..|done| - 1], d);
    }
  }

  lemma DriftEntry(e: Entry, snap: Entry, p: Probe, max: int)
    ensures EntryStep(e, DriftChange(e, snap, p, max).entry)
  {
  }

  lemma ResolveEntry(m: Memory, name: Name, resolved: EntryMap, merge: bool, recollect: bool, d: Dest)
    requires d in m.imageState
    ensures
      var m' := ResolveCore(m, name, resolved, merge, recollect);
      d in m'.imageState && EntryStep(m.imageState[d], m'.imageState[d])
  {
    MergeKeepsLifecycle(m, resolved, name);
  }

  lemma StepEntry(s: Sys, e: Event, d: Dest)
    requires Enabled(s, e) && d in s.mem.imageState && d in Next(s, e).mem.imageState
    ensures EntryStep(s.mem.imageState[d], Next(s, e).mem.imageState[d])
  {
    match e
    case DrainQueue => ReportsEntry(s.mem.(queue := []), s.mem.queue, d);
    case CleanupWorkers(done) =>
      ReportsEntry(s.mem.(queue := []), s.mem.queue, d);
      CleanupEntry(Drain(s.mem), done, d);
    case DriftResult(x, snap, p) =>
      DriftTouches(s.mem, x, snap, p);
      if x == d { DriftEntry(s.mem.imageState[d], snap, p, EffectiveMaxRetries(s.mem.maxRetries)); }
    case FinishResolve(sections, blocked, recollect, digests) =>
      var resolved := Resolved(s.phase.view, sections, blocked);
      var merge := !EqualState(s.phase.view, resolved) || s.phase.view == map[];
      EndResolveIsCore(s.mem, s.phase.name, resolved, merge, recollect, digests);
      ResolveEntry(s.mem, s.phase.name, resolved, merge, recollect, d);
    case _ =>
  }

  /** d stays live from state a to state b. */
  ghost predicate LiveThroughout(states: seq<Sys>, d: Dest, a: nat, b: nat)
  {
    a <= b < |states| && forall k :: a <= k <= b ==> d in states[k].mem.imageState
  }

  /** The permanent-failure mark is never cleared while the destination lives. */
  lemma {:induction false} PermanentFailureIsSticky(states: seq<Sys>, events: seq<Event>, d: Dest, a: nat, b: nat)
    requires Run(states, events) && LiveThroughout(states, d, a, b)
    requires states[a].mem.imageState[d].permanentlyFailed
    ensures states[b].mem.imageState[d].permanentlyFailed
  {
    if a < b {
      PermanentFailureIsSticky(states, events, d, a, b - 1);
      assert states[b] == Next(states[b - 1], events[b - 1]);
      StepEntry(states[b - 1], events[b - 1], d);
    }
  }

  /** The tick at event k returns d from Failed to Pending. */
  predicate TickRetries(states: seq<Sys>, events: seq<Event>, d: Dest, k: nat)
    requires k < |events| < |states|
  {
    && events[k].PhaseD?
    && d in states[k].mem.imageState && states[k].mem.imageState[d].state == Failed
    && d in states[k + 1].mem.imageState && states[k + 1].mem.imageState[d].state == Pending
  }

  function RetryTotal(states: seq<Sys>, events: seq<Event>, d: Dest, a: nat, b: nat): nat
    requires a <= b <= |events| < |states|
  {
    if a == b then 0 else
      RetryTotal(states, events, d, a, b - 1) + (if TickRetries(states, events, d, b - 1) then 1 else 0)
  }

  /** From a to b the destination is live, its retry count is not reset and the
      retry limit is max. */
  ghost predicate Undisturbed(states: seq<Sys>, d: Dest, a: nat, b: nat, max: int)
  {
    && LiveThroughout(states, d, a, b)
    && (forall k :: a <= k <= b ==> EffectiveMaxRetries(states[k].mem.maxRetries) == max)
    && (forall k :: a <= k < b ==>
          states[k].mem.imageState[d].retryCount <= states[k + 1].mem.imageState[d].retryCount)
  }

  /** What step k does to d, as far as the budget is concerned: a tick retry
      leaves the count alone and happens only below the limit. */
  ghost predicate RetryFacts(states: seq<Sys>, events: seq<Event>, d: Dest, k: nat, max: int)
    requires k < |events| < |states| && d in states[k].mem.imageState && d in states[k + 1].mem.imageState
  {
    var e, e' := states[k].mem.imageState[d], states[k + 1].mem.imageState[d];
    EntryStep(e, e') && (TickRetries(states, events, d, k) ==> e.retryCount < max && e'.retryCount == e.retryCount)
  }

  lemma RunRetryFacts(states: seq<Sys>, events: seq<Event>, d: Dest, k: nat)
    requires Run(states, events) && k < |events|
    requires d in states[k].mem.imageState && d in states[k + 1].mem.imageState
    ensures RetryFacts(states, events, d, k, EffectiveMaxRetries(states[k].mem.maxRetries))
  {
    StepEntry(states[k], events[k], d);
  }

  function Ones(failed: bool): nat
  {
    if failed then 1 else 0
  }

  lemma {:induction false} RetriesCounted(states: seq<Sys>, events: seq<Event>, d: Dest, a: nat, b: nat, max: int)
    requires b <= |events| < |states| && Undisturbed(states, d, a, b, max)
    requires forall k: nat :: a <= k < b ==> RetryFacts(states, events, d, k, max)
    ensures
      var from, to, total := states[a].mem.imageState[d], states[b].mem.imageState[d], RetryTotal(states, events, d, a, b);
      && total + Ones(to.state == Failed) + from.retryCount <= to.retryCount + Ones(from.state == Failed)
      && (total == 0 || total <= max - 1 - from.retryCount + Ones(from.state == Failed))
  {
    if a < b {
      RetriesCounted(states, events, d, a, b - 1, max);
      assert RetryFacts(states, events, d, b - 1, max);
    }
  }

  /** Until something resets its count, an entry is sent back from Failed to
      Pending at most as often as its count leaves room for below the limit, plus
      the failure it starts with. */
  lemma RetriesLeft(states: seq<Sys>, events: seq<Event>, d: Dest, a: nat, b: nat, max: int)
    requires Run(states, events) && Undisturbed(states, d, a, b, max)
    ensures
      var from, total := states[a].mem.imageState[d], RetryTotal(states, events, d, a, b);
      total == 0 || total <= max - 1 - from.retryCount + Ones(from.state == Failed)
  {
    forall k: nat | a <= k < b ensures RetryFacts(states, events, d, k, max)
    {
      RunRetryFacts(states, events, d, k);
    }
    RetriesCounted(states, events, d, a, b, max);
  }

  /** Every failure was counted. */
  ghost predicate FailuresCounted(state: EntryMap)
  {
    forall d :: d in state && state[d].state == Failed ==> state[d].retryCount > 0
  }

  ghost predicate LoadsCounted(events: seq<Event>)
  {
    forall i, k :: 0 <= i < |events| && events[i].LoadState? && 0 <= k < |events[i].stored| ==>
      FailuresCounted(events[i].stored[k].cm.entries)
  }

  lemma StepCounted(s: Sys, e: Event, d: Dest)
    requires Enabled(s, e) && FailuresCounted(s.mem.imageState)
    requires s.phase.Resolving? ==> s.phase.view.Keys <= s.mem.imageState.Keys
    requires e.LoadState? ==> DistinctNames(e.stored)
    requires e.LoadState? ==> forall k :: 0 <= k < |e.stored| ==> FailuresCounted(e.stored[k].cm.entries)
    requires d in Next(s, e).mem.imageState && Next(s, e).mem.imageState[d].state == Failed
    ensures Next(s, e).mem.imageState[d].retryCount > 0
  {
    if e.LoadState? {
      LoadAfterPartialFlush(s.mem, e.stored);
      assert IsCopy(e.stored, d, Next(s, e).mem.imageState[d]);
    } else if d in s.mem.imageState {
      StepEntry(s, e, d);
    } else {
      NewNotFailed(s, e, d);
    }
  }

  /** What a step adds to the working set, other than by loading, is Pending. */
  lemma NewNotFailed(s: Sys, e: Event, d: Dest)
    requires Enabled(s, e) && !e.LoadState?
    requires s.phase.Resolving? ==> s.phase.view.Keys <= s.mem.imageState.Keys
    requires d !in s.mem.imageState && d in Next(s, e).mem.imageState
    ensures Next(s, e).mem.imageState[d].state == Pending
  {
    match e
    case DrainQueue => ReportsSameSpec(s.mem.(queue := []), s.mem.queue);
    case CleanupWorkers(done) => CleanupSameSpec(s.mem, done);
    case DriftResult(x, snap, p) => DriftSameSpec(s.mem, x, snap, p);
    case FinishResolve(_, _, _, _) => FinishNew(s, e, d);
    case _ =>
  }

  lemma FinishNew(s: Sys, e: Event, d: Dest)
    requires Enabled(s, e) && e.FinishResolve? && s.phase.view.Keys <= s.mem.imageState.Keys
    requires d !in s.mem.imageState && d in Next(s, e).mem.imageState
    ensures Next(s, e).mem.imageState[d].state == Pending
  {
    var name, resolved := s.phase.name, Resolved(s.phase.view, e.sections, e.blocked);
    var merge := !EqualState(s.phase.view, resolved) || s.phase.view == map[];
    EndResolveIsCore(s.mem, name, resolved, merge, e.recollect, e.digests);
    CoreNew(s.mem, name, resolved, merge, e.recollect, d);
    ResolvedNewPending(s.phase.view, e.sections, e.blocked, d);
  }

  lemma CoreNew(m: Memory, name: Name, resolved: EntryMap, merge: bool, recollect: bool, d: Dest)
    requires d !in m.imageState && d in ResolveCore(m, name, resolved, merge, recollect).imageState
    ensures d in resolved
    ensures resolved[d].state == Pending ==> ResolveCore(m, name, resolved, merge, recollect).imageState[d].state == Pending
  {
    var core := if merge then Merged(m, resolved, name) else m;
    MergeKeepsLifecycle(m, resolved, name);
    RecollectSameSpec(core, name);
    assert core.imageState[d] == resolved[d];
  }

  lemma {:induction false} RunCounted(states: seq<Sys>, events: seq<Event>, i: nat)
    requires Run(states, events) && LoadsCounted(events) && i <= |events|
    ensures FailuresCounted(states[i].mem.imageState)
  {
    if i > 0 {
      RunCounted(states, events, i - 1);
      RunViewed(states, events, i - 1);
      forall d | d in states[i].mem.imageState && states[i].mem.imageState[d].state == Failed
        ensures states[i].mem.imageState[d].retryCount > 0
      {
        StepCounted(states[i - 1], events[i - 1], d);
      }
    }
  }

  /** From a retry count of zero, the tick sends an entry back from Failed to
      Pending at most max - 1 times until a reset. */
  lemma RetryBudget(states: seq<Sys>, events: seq<Event>, d: Dest, a: nat, b: nat, max: int)
    requires Run(states, events) && LoadsCounted(events) && b <= |events| && Undisturbed(states, d, a, b, max)
    requires states[a].mem.imageState[d].retryCount == 0
    ensures RetryTotal(states, events, d, a, b) <= max - 1
  {
    RunCounted(states, events, a);
    RetriesLeft(states, events, d, a, b, max);
  }

  /** A failure delivered again, at any time while the entry is still Failed with
      that error, changes no entry and no flag. */
  lemma RedeliveredFailureIgnored(m: Memory, r: Report)
    requires r.error != "" && r.dest in m.imageState
    requires m.imageState[r.dest].state == Failed && m.imageState[r.dest].lastError == r.error
    ensures ApplyStatus(m, r).imageState == m.imageState && ApplyStatus(m, r).mirrored == m.mirrored
  {
    assert m.imageState[r.dest := m.imageState[r.dest]] == m.imageState;
  }

  /** In particular a second delivery right after the first counts once. */
  lemma DuplicateFailureCountsOnce(m: Memory, r: Report, again: Report)
    requires r.dest == again.dest && r.error == again.error != ""
    ensures ApplyStatus(ApplyStatus(m, r), again).imageState == ApplyStatus(m, r).imageState
  {
    if r.dest in m.imageState {
      RedeliveredFailureIgnored(ApplyStatus(m, r), again);
    }
  }

  // ------------------------------------------------ cache hits never orphan

  lemma StepOwnersLive(s: Sys, e: Event)
    requires Enabled(s, e) && OwnersLive(s.mem) && (e.LoadState? ==> DistinctNames(e.stored))
    ensures OwnersLive(Next(s, e).mem)
  {
    match e
    case DrainQueue => ReportsSameSpec(s.mem.(queue := []), s.mem.queue);
    case CleanupWorkers(done) => CleanupSameSpec(s.mem, done);
    case DriftResult(d, snap, p) => DriftSameSpec(s.mem, d, snap, p);
    case ForceResync(name) => ResetsSameSpec(s.mem, name);
    case StartTick(spec, maxRetries) => DropKeepsLive(s.mem.(maxRetries := maxRetries), spec);
    case PhaseD(now) => TickKeepsLive(s.mem, now);
    case LoadState(stored) => LoadAfterPartialFlush(s.mem, stored);
    case FinishResolve(sections, blocked, recollect, digests) =>
      var resolved := Resolved(s.phase.view, sections, blocked);
      var merge := !EqualState(s.phase.view, resolved) || s.phase.view == map[];
      EndResolveIsCore(s.mem, s.phase.name, resolved, merge, recollect, digests);
      MergedKeepsLive(s.mem, resolved, s.phase.name);
      ResetsSameSpec(if merge then Merged(s.mem, resolved, s.phase.name) else s.mem, s.phase.name);
    case _ =>
  }

  lemma {:induction false} RunOwnersLive(states: seq<Sys>, events: seq<Event>, i: nat)
    requires Run(states, events) && i <= |events|
    ensures OwnersLive(states[i].mem)
  {
    if i > 0 {
      RunOwnersLive(states, events, i - 1);
      StepOwnersLive(states[i - 1], events[i - 1]);
    }
  }

  /** metas records d as produced by spec entry (origin, sig). */
  predicate ProducedBy(metas: map<Dest, SpecMeta>, d: Dest, origin: Origin, sig: string)
  {
    d in metas && metas[d].origin == origin && metas[d].entrySig == sig
  }

  function Metas(view: EntryMap): map<Dest, SpecMeta>
  {
    map d | d in view :: view[d].meta
  }

  /** name owns d through the spec entry, in memory and in the view of a resolve
      of name that is under way. */
  ghost predicate KeptBy(s: Sys, name: Name, d: Dest, origin: Origin, sig: string)
  {
    && ProducedBy(OwnedMeta(s.mem, name), d, origin, sig)
    && (s.phase.Resolving? && s.phase.name == name ==> ProducedBy(Metas(s.phase.view), d, origin, sig))
  }

  /** The step does not end name's claim on d by its own doing: name stays in
      the target, and a resolve of name has the spec entry as a cache hit or a
      failed probe, does not block d and yields d from no other section. */
  ghost predicate ClaimStands(s: Sys, e: Event, name: Name, d: Dest, origin: Origin, sig: string)
  {
    && (e.StartTick? ==> name in e.spec)
    && (e.FinishResolve? && s.phase.Resolving? && s.phase.name == name ==>
          && (exists x :: x in e.sections && x.CarryOver? && x.origin == origin && x.sig == sig)
          && (forall x :: x in e.sections ==> !Produces(x, d))
          && (d in s.phase.view ==> s.phase.view[d].source !in e.blocked))
  }

  lemma ViewMetas(m: Memory, name: Name)
    ensures Metas(View(m, name)) == OwnedMeta(m, name)
  {
  }

  /** Ownership after the end of a resolve is that of the merge. */
  lemma FinishOwned(s: Sys, e: Event, name: Name)
    requires s.phase.Resolving? && e.FinishResolve?
    ensures
      var resolved := Resolved(s.phase.view, e.sections, e.blocked);
      var merge := !EqualState(s.phase.view, resolved) || s.phase.view == map[];
      OwnedMeta(Next(s, e).mem, name) ==
        OwnedMeta(if merge then Merged(s.mem, resolved, s.phase.name) else s.mem, name)
  {
    var who := s.phase.name;
    var resolved := Resolved(s.phase.view, e.sections, e.blocked);
    var merge := !EqualState(s.phase.view, resolved) || s.phase.view == map[];
    var core := if merge then Merged(s.mem, resolved, who) else s.mem;
    EndResolveIsCore(s.mem, who, resolved, merge, e.recollect, e.digests);
    CoreOwned(core, who, e.recollect, name);
    SameDataOwned(Next(s, e).mem, ResolveCore(s.mem, who, resolved, merge, e.recollect), name);
  }

  lemma CoreOwned(core: Memory, who: Name, recollect: bool, name: Name)
    ensures OwnedMeta(if recollect then RecollectReset(core, who) else core, name) == OwnedMeta(core, name)
  {
    RecollectSameSpec(core, who);
    SameSpecOwned(core, RecollectReset(core, who), name);
  }

  lemma FinishKeeps(s: Sys, e: Event, name: Name, d: Dest, origin: Origin, sig: string)
    requires Enabled(s, e) && e.FinishResolve? && OwnersLive(s.mem)
    requires KeptBy(s, name, d, origin, sig) && ClaimStands(s, e, name, d, origin, sig)
    requires origin == OriginRelease || origin == OriginOperator
    requires sig != ""
    ensures KeptBy(Next(s, e), name, d, origin, sig)
  {
    var who, view := s.phase.name, s.phase.view;
    var resolved := Resolved(view, e.sections, e.blocked);
    FinishOwned(s, e, name);
    if who == name {
      MergeOwns(s.mem, resolved, who);
      ResolvedCarries(view, e.sections, e.blocked, d);
    } else {
      MergeOtherOwned(s.mem, resolved, who, name);
    }
  }

  lemma SameDataOwned(a: Memory, b: Memory, name: Name)
    requires SameData(a, b)
    ensures OwnedMeta(a, name) == OwnedMeta(b, name)
  {
  }

  lemma StepClaim(s: Sys, e: Event, name: Name, d: Dest, origin: Origin, sig: string)
    requires Enabled(s, e) && OwnersLive(s.mem)
    requires KeptBy(s, name, d, origin, sig) && ClaimStands(s, e, name, d, origin, sig)
    requires origin == OriginRelease || origin == OriginOperator
    requires sig != ""
    ensures KeptBy(Next(s, e), name, d, origin, sig)
  {
    match e
    case FinishResolve(_, _, _, _) => FinishKeeps(s, e, name, d, origin, sig);
    case LoadState(_) =>
    case StartTick(spec, maxRetries) =>
      SameDataOwnedMax(s.mem, maxRetries, name);
      DropOwned(s.mem.(maxRetries := maxRetries), spec, name);
    case PhaseD(now) => TickOwned(s.mem, now, name);
    case BeginResolve(who) => ViewMetas(s.mem, who);
    case _ =>
      StepSameSpec(s, e);
      SameSpecOwned(s.mem, Next(s, e).mem, name);
  }

  lemma SameDataOwnedMax(m: Memory, maxRetries: int, name: Name)
    ensures OwnedMeta(m.(maxRetries := maxRetries), name) == OwnedMeta(m, name)
  {
  }

  lemma StepSameSpec(s: Sys, e: Event)
    requires Enabled(s, e)
    requires !e.FinishResolve? && !e.LoadState? && !e.StartTick? && !e.PhaseD? && !e.BeginResolve?
    ensures SameSpec(s.mem, Next(s, e).mem)
  {
    match e
    case DrainQueue => ReportsSameSpec(s.mem.(queue := []), s.mem.queue);
    case CleanupWorkers(done) => CleanupSameSpec(s.mem, done);
    case DriftResult(d, snap, p) => DriftSameSpec(s.mem, d, snap, p);
    case ForceResync(name) => ResetsSameSpec(s.mem, name);
    case _ =>
  }

  lemma RunClaim(states: seq<Sys>, events: seq<Event>, k: nat, name: Name, d: Dest, origin: Origin, sig: string)
    requires Run(states, events) && k < |events| && sig != ""
    requires origin == OriginRelease || origin == OriginOperator
    requires KeptBy(states[k], name, d, origin, sig) && ClaimStands(states[k], events[k], name, d, origin, sig)
    ensures KeptBy(states[k + 1], name, d, origin, sig)
  {
    RunOwnersLive(states, events, k);
    StepClaim(states[k], events[k], name, d, origin, sig);
  }

  /** Over any number of rounds in which the spec entry is a cache hit or its
      probe fails, and whatever other ImageSets resolve in between, name keeps
      the destination with the same signature. */
  lemma {:induction false} CacheHitsNeverOrphan(states: seq<Sys>, events: seq<Event>, a: nat, b: nat,
                                                name: Name, d: Dest, origin: Origin, sig: string)
    requires Run(states, events) && a <= b <= |events|
    requires origin == OriginRelease || origin == OriginOperator
    requires sig != "" && KeptBy(states[a], name, d, origin, sig)
    requires forall k :: a <= k < b ==> ClaimStands(states[k], events[k], name, d, origin, sig)
    ensures KeptBy(states[b], name, d, origin, sig)
  {
    if a < b {
      CacheHitsNeverOrphan(states, events, a, b - 1, name, d, origin, sig);
      RunClaim(states, events, b - 1, name, d, origin, sig);
    }
  }
}

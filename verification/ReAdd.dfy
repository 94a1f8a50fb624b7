/** Why "Mirrored is always earned" needs its hypothesis: a destination the
    orphan sweep took keeps its fast-path flag, and when a later resolve adds it
    back, the defensive sync of Phase D declares it Mirrored unchecked. */
module ReAdd {
  import opened Options
  import opened ImageState
  import opened ManagerModel
  import opened Lifecycle
  import opened Ownership
  import opened Resolve
  import opened Runs
  import opened Earned
  import opened SingleImage

  const D: Dest := "registry/app:1"
  const A: Name := "a"
  const IMAGE := TargetImage("upstream/app:1", D, "", false)
  const SECTION := Fresh(OriginAdditional, "", "additional", "", [IMAGE])
  const ADD := FinishResolve([SECTION], {}, false, map[])
  const REMOVE := FinishResolve([], {}, false, map[])

  const META := SpecMeta(OriginAdditional, "", "additional", "", false)
  const PENDING := Entry("upstream/app:1", Pending, "", 0, META, false, None, false, "")
  const DONE := Done(PENDING)

  lemma AddRound(s: Sys, flagged: bool)
    requires s.phase.Idle? && Empty(s.mem, D, flagged)
    ensures
      var s2 := Next(Next(s, BeginResolve(A)), ADD);
      && Enabled(s, BeginResolve(A)) && Enabled(Next(s, BeginResolve(A)), ADD)
      && s2.phase.Idle? && Owned(s2.mem, A, D, PENDING, flagged)
  {
    var view := View(s.mem, A);
    assert view == map[] && Unowned(view) == map[];
    assert FreshEntry(SECTION, IMAGE, view) == PENDING;
    FreshSection(view, SECTION, IMAGE);
    RoundMerges(s, A, [SECTION], map[], map[D := PENDING]);
    MergeAdds(s.mem, A, D, PENDING, flagged);
  }

  lemma RemoveRound(s: Sys)
    requires s.phase.Idle? && Owned(s.mem, A, D, DONE, true)
    ensures
      var s2 := Next(Next(s, BeginResolve(A)), REMOVE);
      && Enabled(s, BeginResolve(A)) && Enabled(Next(s, BeginResolve(A)), REMOVE)
      && s2.phase.Idle? && Left(s2.mem, D, DONE)
  {
    OwnedView(s.mem, A, D, DONE, true);
    var view := View(s.mem, A);
    assert D in view;
    assert Unowned(view) == map[];
    assert Resolved(view, [], {}) == map[];
    RoundMerges(s, A, [], map[], map[]);
    MergeRemoves(s.mem, A, D, DONE);
  }

  lemma Extend(states: seq<Sys>, events: seq<Event>, e: Event)
    requires Run(states, events) && Enabled(states[|events|], e) && !e.LoadState?
    ensures Run(states + [Next(states[|events|], e)], events + [e])
  {
    var states', events' := states + [Next(states[|events|], e)], events + [e];
    forall i | 0 <= i < |events'|
      ensures Enabled(states'[i], events'[i]) && states'[i + 1] == Next(states'[i], events'[i])
    {
      if i < |events| {
        assert states'[i] == states[i] && states'[i + 1] == states[i + 1] && events'[i] == events[i];
      }
    }
  }

  lemma ExtendTwice(states: seq<Sys>, events: seq<Event>, e: Event, f: Event)
    returns (states': seq<Sys>, events': seq<Event>)
    requires Run(states, events) && !e.LoadState? && !f.LoadState?
    requires Enabled(states[|events|], e) && Enabled(Next(states[|events|], e), f)
    ensures Run(states', events') && states'[|events'|] == Next(Next(states[|events|], e), f)
  {
    Extend(states, events, e);
    states', events' := states + [Next(states[|events|], e)], events + [e];
    Extend(states', events', f);
    states', events' := states' + [Next(states'[|events'|], f)], events' + [f];
  }

  lemma RunAdd(states: seq<Sys>, events: seq<Event>, flagged: bool)
    returns (states': seq<Sys>, events': seq<Event>)
    requires Run(states, events) && states[|events|].phase.Idle? && Empty(states[|events|].mem, D, flagged)
    ensures Run(states', events') && states'[|events'|].phase.Idle? && Owned(states'[|events'|].mem, A, D, PENDING, flagged)
  {
    AddRound(states[|events|], flagged);
    states', events' := ExtendTwice(states, events, BeginResolve(A), ADD);
  }

  /** D is mirrored, dropped from the spec and swept: its flag stays behind. */
  lemma RunToSweep() returns (states: seq<Sys>, events: seq<Event>)
    ensures Run(states, events) && states[|events|].phase.Idle? && Empty(states[|events|].mem, D, true)
  {
    states, events := RunAdd([Sys(FRESH, Idle)], [], false);
    ReportRound(states[|events|], A, D, PENDING);
    states, events := ExtendTwice(states, events, Acknowledge(Success(D)), DrainQueue);
    states, events := RunRemove(states, events);
  }

  lemma RunRemove(states: seq<Sys>, events: seq<Event>) returns (states': seq<Sys>, events': seq<Event>)
    requires Run(states, events) && states[|events|].phase.Idle? && Owned(states[|events|].mem, A, D, DONE, true)
    ensures Run(states', events') && states'[|events'|].phase.Idle? && Empty(states'[|events'|].mem, D, true)
  {
    RemoveRound(states[|events|]);
    states', events' := ExtendTwice(states, events, BeginResolve(A), REMOVE);
    SweepStep(states'[|events'|], D, DONE, 0);
    Extend(states', events', PhaseD(0));
    states', events' := states' + [Next(states'[|events'|], PhaseD(0))], events' + [PhaseD(0)];
  }

  /** Step i makes d Mirrored although nothing earned it. */
  ghost predicate Unearned(states: seq<Sys>, events: seq<Event>, i: nat, d: Dest)
    requires |states| == |events| + 1
  {
    0 < i <= |events| && UnearnedAt(states[i - 1], events[i - 1], d)
  }

  lemma UnearnedLast(states: seq<Sys>, events: seq<Event>)
    requires Run(states, events) && states[|events|].phase.Idle? && Owned(states[|events|].mem, A, D, PENDING, true)
    ensures
      var states', events' := states + [Next(states[|events|], PhaseD(0))], events + [PhaseD(0)];
      Run(states', events') && Unearned(states', events', |events'|, D)
  {
    DefensiveSyncFires(states[|events|]);
    Extend(states, events, PhaseD(0));
  }

  /** A run that never sees D succeed after it was swept ends with D Mirrored. */
  lemma UnearnedMirrored()
    ensures exists states, events, i: nat ::
      Run(states, events) && Unearned(states, events, i, D)
  {
    var states, events := RunToSweep();
    states, events := RunAdd(states, events, true);
    UnearnedLast(states, events);
  }

  lemma DefensiveSyncFires(s: Sys)
    requires s.phase.Idle? && Owned(s.mem, A, D, PENDING, true)
    ensures !MirroredIn(s.mem, D) && MirroredIn(Next(s, PhaseD(0)).mem, D)
  {
    assert !Orphaned(s.mem, D);
  }
}

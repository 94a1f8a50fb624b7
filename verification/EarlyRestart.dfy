/** Why catalog safety needs safe restarts: the annotations are patched before
    the entries are stored. If the process restarts in between, the next resolve
    is a cache hit at the new digest on the old entries; stored together, they
    open the gate for a catalog whose new image was never mirrored. */
module EarlyRestart {
  import opened Options
  import opened ImageState
  import opened ManagerModel
  import opened Lifecycle
  import opened Ownership
  import opened Persistence
  import opened Resolve
  import opened Runs
  import opened CatalogGate
  import opened CatalogSafety
  import opened SingleImage

  /** One ImageSet with one operator entry, whose catalog yields x at digest one
      and x and y at digest two. */
  datatype Case = Case(name: Name, op: Operator, x: TargetImage, y: TargetImage, one: string, two: string)

  ghost predicate Ready(k: Case, content: Content)
  {
    && k.x.bundleRef == "" && k.op.sig != "" && k.op.catalog != ""
    && k.one != "" && content(k.one, k.op.sig) == {k.x.dest}
  }

  ghost predicate Fits(k: Case, content: Content)
  {
    && Ready(k, content) && k.x.dest != k.y.dest
    && k.two != "" && content(k.two, k.op.sig) == {k.x.dest, k.y.dest}
  }

  function RoundOf(k: Case, o: Outcome): Round
  {
    Round([k.op], [o], [], [], false)
  }

  function AtOne(k: Case): Round
  {
    RoundOf(k, Refreshed(k.one, [k.x]))
  }

  function AtTwo(k: Case): Round
  {
    RoundOf(k, Refreshed(k.two, [k.x, k.y]))
  }

  function HitOnly(k: Case): Round
  {
    RoundOf(k, Hit)
  }

  /** The annotations once a digest is recorded. */
  function At(k: Case, digest: string): map<string, string>
  {
    map[k.op.sig := CacheValue(digest)]
  }

  function Waiting(k: Case): Entry
  {
    Entry(k.x.source, Pending, "", 0,
          SpecMeta(OriginOperator, k.op.sig, k.op.catalog, k.op.catalog, k.x.isBundleImage), false, None, false, "")
  }

  // ------------------------------------------------------------------- rounds

  lemma OneRound(k: Case, o: Outcome)
    ensures SectionsOf(RoundOf(k, o)) == [OperatorSection(k.op, o)]
  {
  }

  lemma FreshWellFormed(k: Case, content: Content, digest: string, images: seq<TargetImage>, view: EntryMap)
    requires Ready(k, content) && digest != ""
    requires forall d :: (exists img :: img in images && img.dest == d) <==> d in content(digest, k.op.sig)
    ensures WellFormed(RoundOf(k, Refreshed(digest, images)), view, content)
  {
    OneRound(k, Refreshed(digest, images));
  }

  lemma HitWellFormed(k: Case, content: Content, view: EntryMap)
    requires k.op.sig != ""
    ensures WellFormed(HitOnly(k), view, content)
  {
    OneRound(k, Hit);
  }

  lemma Patched(k: Case, anno: map<string, string>, digest: string, images: seq<TargetImage>)
    ensures AnnotationsAfter(anno, [k.op], [Refreshed(digest, images)]) == At(k, digest)
  {
    var ops, outcomes := [k.op], [Refreshed(digest, images)];
    assert ops[..0] == [] && outcomes[..0] == [];
    assert Annotated(anno, ops, outcomes) == anno[k.op.sig := CacheValue(digest)];
    assert ops[0] in ops;
    assert forall op :: op in ops ==> op == k.op;
  }

  lemma Unpatched(k: Case, digest: string)
    ensures AnnotationsAfter(At(k, digest), [k.op], [Hit]) == At(k, digest)
  {
    var ops, outcomes: seq<Outcome> := [k.op], [Hit];
    assert ops[..0] == [] && outcomes[..0] == [];
    assert Annotated(At(k, digest), ops, outcomes) == At(k, digest);
    assert ops[0] in ops;
  }

  // ------------------------------------------------------------------- stages

  ghost predicate Running(w: World, k: Case, digest: string)
  {
    w.sys.phase.Idle? && AnnotationsOf(w, k.name) == At(k, digest)
  }

  /** x is mirrored and stored with the digest it was resolved from. */
  ghost predicate StoredAt(w: World, k: Case, digest: string)
  {
    k.name in w.store && w.store[k.name] == ConfigMap(map[k.x.dest := Done(Waiting(k))], At(k, digest))
  }

  lemma Extend(worlds: seq<World>, events: seq<WorldEvent>, content: Content, e: WorldEvent)
    returns (worlds': seq<World>, events': seq<WorldEvent>)
    requires PhysicalRun(worlds, events, content) && Physical(worlds[|events|], e, content)
    ensures PhysicalRun(worlds', events', content) && events' == events + [e]
    ensures worlds'[|events'|] == WorldNext(worlds[|events|], e, content)
  {
    var w' := WorldNext(worlds[|events|], e, content);
    worlds', events' := worlds + [w'], events + [e];
    ExtendedRun(worlds, events, content, e, w');
  }

  lemma ExtendedRun(worlds: seq<World>, events: seq<WorldEvent>, content: Content, e: WorldEvent, w': World)
    requires PhysicalRun(worlds, events, content) && LeadsTo(worlds[|events|], e, w', content)
    ensures PhysicalRun(worlds + [w'], events + [e], content)
  {
    var worlds', events' := worlds + [w'], events + [e];
    forall i | 0 <= i < |events'| ensures LeadsTo(worlds'[i], events'[i], worlds'[i + 1], content)
    {
      if i < |events| {
        assert LeadsTo(worlds[i], events[i], worlds[i + 1], content);
      }
    }
  }

  function Begun(w: World, k: Case): Sys
  {
    Next(w.sys, BeginResolve(k.name))
  }

  /** A whole round from an idle manager. */
  lemma ExtendRound(worlds: seq<World>, events: seq<WorldEvent>, k: Case, content: Content, r: Round)
    returns (worlds': seq<World>, events': seq<WorldEvent>)
    requires PhysicalRun(worlds, events, content) && worlds[|events|].sys.phase.Idle?
    requires WellFormed(r, View(worlds[|events|].sys.mem, k.name), content)
    ensures PhysicalRun(worlds', events', content) && events' == events + [Manager(BeginResolve(k.name)), EndRound(r)]
    ensures
      var w, w' := worlds[|events|], worlds'[|events'|];
      var after := AnnotationsAfter(AnnotationsOf(w, k.name), r.ops, r.outcomes);
      && w'.sys == Next(Begun(w, k), FinishResolve(SectionsOf(r), {}, r.recollect, after))
      && AnnotationsOf(w', k.name) == after && w'.store == w.store
  {
    worlds', events' := Extend(worlds, events, content, Manager(BeginResolve(k.name)));
    worlds', events' := Extend(worlds', events', content, EndRound(r));
  }

  /** The first round leaves x Pending. */
  lemma FirstRound(s: Sys, k: Case, content: Content)
    requires Ready(k, content) && s.phase.Idle? && Empty(s.mem, k.x.dest, false)
    ensures
      var s2 := Next(Next(s, BeginResolve(k.name)), FinishResolve(SectionsOf(AtOne(k)), {}, false, At(k, k.one)));
      && s2.phase.Idle? && Owned(s2.mem, k.name, k.x.dest, Waiting(k), false)
      && DigestsOf(s2.mem, k.name) == At(k, k.one)
  {
    var sec := OperatorSection(k.op, Refreshed(k.one, [k.x]));
    OneRound(k, Refreshed(k.one, [k.x]));
    var view := View(s.mem, k.name);
    assert view == map[] && Unowned(view) == map[];
    assert FreshEntry(sec, k.x, view) == Waiting(k);
    FreshSection(view, sec, k.x);
    RoundMerges(s, k.name, [sec], At(k, k.one), map[k.x.dest := Waiting(k)]);
    MergeAdds(s.mem, k.name, k.x.dest, Waiting(k), false);
    FinishDigests(Next(s, BeginResolve(k.name)), FinishResolve([sec], {}, false, At(k, k.one)));
  }

  /** x is resolved, mirrored and stored. */
  lemma RunToStored(k: Case, content: Content) returns (worlds: seq<World>, events: seq<WorldEvent>)
    requires Ready(k, content)
    ensures PhysicalRun(worlds, events, content) && forall i :: 0 <= i < |events| ==> !events[i].Restart?
    ensures Running(worlds[|events|], k, k.one) && StoredAt(worlds[|events|], k, k.one)
  {
    worlds, events := [World(Sys(FRESH, Idle), map[], map[], {})], [];
    FreshWellFormed(k, content, k.one, [k.x], View(FRESH, k.name));
    FirstRound(worlds[0].sys, k, content);
    Patched(k, map[], k.one, [k.x]);
    worlds, events := ExtendRound(worlds, events, k, content, AtOne(k));
    worlds, events := RunReport(worlds, events, k, content);
    var w := worlds[|events|];
    OwnedView(w.sys.mem, k.name, k.x.dest, Done(Waiting(k)), true);
    worlds, events := Extend(worlds, events, content, Flush({k.name}));
  }

  lemma RunReport(worlds: seq<World>, events: seq<WorldEvent>, k: Case, content: Content)
    returns (worlds': seq<World>, events': seq<WorldEvent>)
    requires PhysicalRun(worlds, events, content) && Running(worlds[|events|], k, k.one)
    requires Owned(worlds[|events|].sys.mem, k.name, k.x.dest, Waiting(k), false)
    requires DigestsOf(worlds[|events|].sys.mem, k.name) == At(k, k.one)
    ensures PhysicalRun(worlds', events', content) && Running(worlds'[|events'|], k, k.one)
    ensures events' == events + [Manager(Acknowledge(Success(k.x.dest))), Manager(DrainQueue)]
    ensures Owned(worlds'[|events'|].sys.mem, k.name, k.x.dest, Done(Waiting(k)), true)
    ensures DigestsOf(worlds'[|events'|].sys.mem, k.name) == At(k, k.one)
  {
    var s, r := worlds[|events|].sys, Success(k.x.dest);
    ReportRound(s, k.name, k.x.dest, Waiting(k));
    StepSameSpecs(s, r);
    worlds', events' := Extend(worlds, events, content, Manager(Acknowledge(r)));
    worlds', events' := Extend(worlds', events', content, Manager(DrainQueue));
  }

  lemma StepSameSpecs(s: Sys, r: Report)
    ensures Next(Next(s, Acknowledge(r)), DrainQueue).mem.catalogDigests == s.mem.catalogDigests
  {
    var m := Next(s, Acknowledge(r)).mem;
    ReportsSameSpec(m.(queue := []), m.queue);
  }

  /** A fresh round at the second digest, and a restart before it is stored. */
  lemma RunToRestart(k: Case, content: Content) returns (worlds: seq<World>, events: seq<WorldEvent>)
    requires Fits(k, content)
    ensures PhysicalRun(worlds, events, content)
    ensures Running(worlds[|events|], k, k.two)
    ensures View(worlds[|events|].sys.mem, k.name) == map[k.x.dest := Done(Waiting(k))]
  {
    worlds, events := RunToStored(k, content);
    FreshWellFormed(k, content, k.two, [k.x, k.y], View(worlds[|events|].sys.mem, k.name));
    Patched(k, AnnotationsOf(worlds[|events|], k.name), k.two, [k.x, k.y]);
    worlds, events := ExtendRound(worlds, events, k, content, AtTwo(k));
    var w := worlds[|events|];
    RestartView(w, k);
    worlds, events := Extend(worlds, events, content, Restart([k.name]));
  }

  lemma RestartView(w: World, k: Case)
    requires StoredAt(w, k, k.one)
    ensures View(Load(FRESH, StoredFor(w, [k.name])), k.name) == map[k.x.dest := Done(Waiting(k))]
  {
    var stored := StoredFor(w, [k.name]);
    assert stored == [Stored(k.name, w.store[k.name], AnnotationsOf(w, k.name))];
    LoadAfterPartialFlush(FRESH, stored);
    OneCopyView(Load(FRESH, stored), stored);
  }

  lemma OneCopyAt(m: Memory, stored: seq<Stored>, d: Dest)
    requires |stored| == 1 && LoadedFrom(m, stored)
    ensures d in View(m, stored[0].name) <==> d in stored[0].cm.entries
    ensures d in stored[0].cm.entries ==> View(m, stored[0].name)[d] == stored[0].cm.entries[d]
  {
    if d in View(m, stored[0].name) {
      RoundTripOnly(m, stored, 0, d);
    }
    if d in stored[0].cm.entries {
      assert HasCopy(stored, d, 0);
      assert CopyLoaded(m, stored[0], d);
      assert IsCopy(stored, d, m.imageState[d]);
    }
  }

  /** Loaded from a single ConfigMap, the view is its entries. */
  lemma OneCopyView(m: Memory, stored: seq<Stored>)
    requires |stored| == 1 && LoadedFrom(m, stored)
    ensures View(m, stored[0].name) == stored[0].cm.entries
  {
    var view, entries := View(m, stored[0].name), stored[0].cm.entries;
    forall d
      ensures d in view <==> d in entries
      ensures d in entries ==> view[d] == entries[d]
    {
      OneCopyAt(m, stored, d);
    }
    SameMap(view, entries);
  }

  /** The hit finds the old entries unchanged and records the new digest. */
  lemma HitRound(s: Sys, k: Case)
    requires k.op.catalog != "" && s.phase.Idle? && View(s.mem, k.name) == map[k.x.dest := Done(Waiting(k))]
    ensures
      var s2 := Next(Next(s, BeginResolve(k.name)), FinishResolve(SectionsOf(HitOnly(k)), {}, false, At(k, k.two)));
      && s2.phase.Idle? && View(s2.mem, k.name) == View(s.mem, k.name) && DigestsOf(s2.mem, k.name) == At(k, k.two)
  {
    var sec := OperatorSection(k.op, Hit);
    OneRound(k, Hit);
    CarriedAlike(View(s.mem, k.name), sec, k);
    assert k.x.dest in View(s.mem, k.name);
    QuietRound(s, k.name, [sec], At(k, k.two));
    UnmergedView(s.mem, k.name, View(s.mem, k.name), At(k, k.two));
    EndResolveDigests(s.mem, k.name, View(s.mem, k.name), false, false, At(k, k.two));
  }

  /** A resolve that yields what it started from merges nothing. */
  lemma QuietRound(s: Sys, name: Name, sections: seq<Section>, digests: map<string, string>)
    requires s.phase.Idle? && View(s.mem, name) != map[] && Resolved(View(s.mem, name), sections, {}) == View(s.mem, name)
    ensures Next(Next(s, BeginResolve(name)), FinishResolve(sections, {}, false, digests)) ==
      Sys(EndResolve(s.mem, name, View(s.mem, name), false, false, digests), Idle)
  {
    QuietFinish(Next(s, BeginResolve(name)), sections, digests);
  }

  lemma QuietFinish(s: Sys, sections: seq<Section>, digests: map<string, string>)
    requires s.phase.Resolving? && s.phase.view != map[] && Resolved(s.phase.view, sections, {}) == s.phase.view
    ensures Next(s, FinishResolve(sections, {}, false, digests)) ==
      Sys(EndResolve(s.mem, s.phase.name, s.phase.view, false, false, digests), Idle)
  {
    SelfEqual(s.phase.view);
  }

  lemma SelfEqual(state: EntryMap)
    ensures EqualState(state, state)
  {
  }

  lemma CarriedAlike(view: EntryMap, sec: Section, k: Case)
    requires k.op.catalog != "" && view == map[k.x.dest := Done(Waiting(k))] && sec == OperatorSection(k.op, Hit)
    ensures Resolved(view, [sec], {}) == view
  {
    var e := Done(Waiting(k));
    assert k.x.dest in view && view[k.x.dest] == e;
    assert Unowned(view) == map[];
    OneSection(view, sec);
    assert Carries(sec, e) && CarriedEntry(sec, e) == e;
  }

  lemma UnmergedView(m: Memory, name: Name, resolved: EntryMap, digests: map<string, string>)
    ensures View(EndResolve(m, name, resolved, false, false, digests), name) == View(m, name)
  {
  }

  /** The gate finds nothing wrong: everything stored is settled and every
      operator entry of the spec is seen. */
  lemma GateOpens(w: World, k: Case, digest: string)
    requires digest != "" && StoredAt(w, k, digest)
    ensures Complete(w.store[k.name], [k.op], true)
    ensures RecordedDigest(w.store[k.name].digests, k.op.sig) == Some(digest)
  {
    var cm := w.store[k.name];
    assert k.x.dest in cm.entries && cm.entries[k.x.dest] == Done(Waiting(k));
    assert SigSeen(cm.entries, k.op.sig);
    CacheRoundTrip(digest, "");
  }

  /** The run: the gate opens at digest two although y was never mirrored. */
  lemma RestartAdvertisesUnmirrored(k: Case, content: Content) returns (worlds: seq<World>, events: seq<WorldEvent>)
    requires Fits(k, content)
    ensures PhysicalRun(worlds, events, content) && k.name in worlds[|events|].store
    ensures
      var cm := worlds[|events|].store[k.name];
      && Complete(cm, [k.op], true) && RecordedDigest(cm.digests, k.op.sig) == Some(k.two)
      && k.y.dest in content(k.two, k.op.sig) && k.y.dest !in cm.entries
  {
    worlds, events := RunToRestart(k, content);
    HitWellFormed(k, content, View(worlds[|events|].sys.mem, k.name));
    HitRound(worlds[|events|].sys, k);
    Unpatched(k, k.two);
    worlds, events := ExtendRound(worlds, events, k, content, HitOnly(k));
    worlds, events := Extend(worlds, events, content, Flush({k.name}));
    GateOpens(worlds[|events|], k, k.two);
  }
}

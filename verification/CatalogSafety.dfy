/** End-to-end catalog safety: the manager's resolves, flushes and restarts
    together with the controller's gate. */
module CatalogSafety {
  import opened Options
  import opened ImageState
  import opened ManagerModel
  import opened Ownership
  import opened Persistence
  import opened Resolve
  import opened Runs
  import opened RunProperties
  import opened CatalogGate

  /** The destinations of all images that filtering and extraction yield from
      the catalog at a digest, for the operator entry with a signature. */
  type Content = (string, string) -> set<Dest>

  // ------------------------------------------------ digests describe entries

  predicate Attributed(metas: map<Dest, SpecMeta>, d: Dest, sig: string)
  {
    ProducedBy(metas, d, OriginOperator, sig)
  }

  ghost predicate AnyAttributed(metas: map<Dest, SpecMeta>, sig: string)
  {
    exists d :: Attributed(metas, d, sig)
  }

  /** If an operator entry has any image at all, then it has every image its
      recorded catalog digest yields. */
  ghost predicate Whole(metas: map<Dest, SpecMeta>, digests: map<string, string>, content: Content)
  {
    forall sig, d ::
      (RecordedDigest(digests, sig).Some? && AnyAttributed(metas, sig) &&
       d in content(RecordedDigest(digests, sig).value, sig)) ==>
      Attributed(metas, d, sig)
  }

  /** No operator entry predates signatures. */
  ghost predicate NoLegacy(metas: map<Dest, SpecMeta>)
  {
    !AnyAttributed(metas, "")
  }

  // ---------------------------------------------------------- one resolve round

  datatype Outcome = Hit | ProbeFailed | Refreshed(digest: string, images: seq<TargetImage>)

  /** A round of one ImageSet: its operator entries with what their probes gave,
      and the sections of the other kinds before and after them. */
  datatype Round = Round(ops: seq<Operator>, outcomes: seq<Outcome>, before: seq<Section>, after: seq<Section>,
                         recollect: bool)

  function OperatorSection(op: Operator, o: Outcome): Section
  {
    match o
    case Refreshed(_, images) => Fresh(OriginOperator, op.sig, op.catalog, op.catalog, images)
    case _ => CarryOver(OriginOperator, op.sig, op.catalog)
  }

  function SectionsOf(r: Round): seq<Section>
    requires |r.ops| == |r.outcomes|
  {
    r.before + seq(|r.ops|, i requires 0 <= i < |r.ops| => OperatorSection(r.ops[i], r.outcomes[i])) + r.after
  }

  function Annotated(anno: map<string, string>, ops: seq<Operator>, outcomes: seq<Outcome>): map<string, string>
    requires |ops| == |outcomes|
  {
    if ops == [] then anno else
      var n := |ops| - 1;
      var before := Annotated(anno, ops[..n], outcomes[..n]);
      if outcomes[n].Refreshed? then before[ops[n].sig := CacheValue(outcomes[n].digest)] else before
  }

  /** The catalog-digest annotations the round leaves, pruned to the spec. */
  function AnnotationsAfter(anno: map<string, string>, ops: seq<Operator>, outcomes: seq<Outcome>): map<string, string>
    requires |ops| == |outcomes|
  {
    var annotated := Annotated(anno, ops, outcomes);
    map sig | sig in annotated && exists op :: op in ops && op.sig == sig :: annotated[sig]
  }

  ghost predicate DistinctSigs(ops: seq<Operator>)
  {
    forall i, j :: 0 <= i < j < |ops| ==> ops[i].sig != ops[j].sig
  }

  /** The hypotheses of the theorem on one round: signatures identify operator
      entries, a resolved catalog contributes exactly what its digest yields, and
      the entries of the spec produce disjoint destinations. */
  ghost predicate WellFormed(r: Round, view: EntryMap, content: Content)
  {
    && |r.ops| == |r.outcomes|
    && DistinctSigs(r.ops)
    && (forall i :: 0 <= i < |r.ops| ==> r.ops[i].sig != "")
    && (forall i :: 0 <= i < |r.ops| && r.outcomes[i].Refreshed? ==>
          && r.outcomes[i].digest != ""
          && forall d :: Produces(OperatorSection(r.ops[i], r.outcomes[i]), d) <==>
                         d in content(r.outcomes[i].digest, r.ops[i].sig))
    && (forall s :: s in r.before + r.after && !s.CarryOverHelm? ==> s.origin != OriginOperator)
    && Disjoint(SectionsOf(r), Metas(view))
  }

  /** No two sections produce the same destination, and none produces an image
      that an operator entry of this round carries over. Images of operator
      entries that are no longer in the spec may be produced again. */
  ghost predicate Disjoint(sections: seq<Section>, metas: map<Dest, SpecMeta>)
  {
    && (forall i, j, d :: 0 <= i < j < |sections| ==> !(Produces(sections[i], d) && Produces(sections[j], d)))
    && (forall s, c, d :: s in sections && Produces(s, d) && c in sections && c.CarryOver? && c.origin == OriginOperator ==>
          !Attributed(metas, d, c.sig))
  }

  lemma OperatorSectionAt(r: Round, i: nat)
    requires |r.ops| == |r.outcomes| && i < |r.ops|
    ensures |r.before| + i < |SectionsOf(r)|
    ensures SectionsOf(r)[|r.before| + i] == OperatorSection(r.ops[i], r.outcomes[i])
  {
  }

  /** The only section that can own an operator signature is its operator's. */
  lemma OperatorSectionOf(r: Round, view: EntryMap, content: Content, s: Section) returns (i: nat)
    requires WellFormed(r, view, content) && s in SectionsOf(r)
    requires !s.CarryOverHelm? && s.origin == OriginOperator
    ensures i < |r.ops| && s == OperatorSection(r.ops[i], r.outcomes[i])
  {
    var k :| 0 <= k < |SectionsOf(r)| && SectionsOf(r)[k] == s;
    assert s !in r.before + r.after;
    i := k - |r.before|;
  }

  lemma OnlyProducer(sections: seq<Section>, metas: map<Dest, SpecMeta>, k: nat, d: Dest)
    requires Disjoint(sections, metas) && k < |sections| && Produces(sections[k], d)
    ensures forall j :: 0 <= j < |sections| && j != k ==> !Produces(sections[j], d)
  {
  }

  /** Every image of a freshly resolved catalog is in the result. */
  lemma FreshAttributed(r: Round, view: EntryMap, content: Content, i: nat, d: Dest)
    requires WellFormed(r, view, content) && i < |r.ops| && r.outcomes[i].Refreshed?
    requires d in content(r.outcomes[i].digest, r.ops[i].sig)
    ensures Attributed(Metas(Resolved(view, SectionsOf(r), {})), d, r.ops[i].sig)
  {
    var sections := SectionsOf(r);
    OperatorSectionAt(r, i);
    var k := |r.before| + i;
    assert Produces(sections[k], d);
    OnlyProducer(sections, Metas(view), k, d);
    FreshStays(Unowned(view), sections, view, k, d);
  }

  /** A cache hit or failed probe keeps everything the entry had. */
  lemma CarriedAttributed(r: Round, view: EntryMap, content: Content, i: nat, d: Dest)
    requires WellFormed(r, view, content) && i < |r.ops| && !r.outcomes[i].Refreshed?
    requires Attributed(Metas(view), d, r.ops[i].sig)
    ensures Attributed(Metas(Resolved(view, SectionsOf(r), {})), d, r.ops[i].sig)
  {
    var sections := SectionsOf(r);
    OperatorSectionAt(r, i);
    var c := sections[|r.before| + i];
    assert c in sections && c.CarryOver? && c.origin == OriginOperator && c.sig == r.ops[i].sig;
    assert forall s :: s in sections ==> !Produces(s, d);
    ResolvedCarries(view, sections, {}, d);
  }

  /** The section an attributed image of the result comes from. */
  lemma AttributedFrom(sections: seq<Section>, view: EntryMap, d: Dest, sig: string) returns (s: Section)
    requires NoLegacy(Metas(view)) && Attributed(Metas(Resolved(view, sections, {})), d, sig)
    ensures s in sections && !s.CarryOverHelm? && s.origin == OriginOperator && s.sig == sig
    ensures s.CarryOver? ==> Attributed(Metas(view), d, sig)
  {
    ResolvedProvenance(sections, view, d);
    s := ProvenanceSection(sections, view, d, RunSections(Unowned(view), sections, view)[d]);
  }

  lemma ProvenanceSection(sections: seq<Section>, view: EntryMap, d: Dest, e: Entry) returns (s: Section)
    requires NoLegacy(Metas(view)) && Provenance(sections, view, d, e) && e.meta.origin == OriginOperator
    ensures s in sections && !s.CarryOverHelm? && s.origin == OriginOperator && s.sig == e.meta.entrySig
    ensures s.CarryOver? ==> Attributed(Metas(view), d, e.meta.entrySig)
  {
    if x, img :| x in sections && x.Fresh? && img in x.images && img.dest == d && e == FreshEntry(x, img, view) {
      s := x;
    } else {
      s :| s in sections && s.CarryOver? && d in view && Carries(s, view[d]) && e == CarriedEntry(s, view[d]);
      CarriedSig(s, view, d);
    }
  }

  lemma CarriedSig(s: Section, view: EntryMap, d: Dest)
    requires s.CarryOver? && d in view && Carries(s, view[d]) && s.origin == OriginOperator
    requires NoLegacy(Metas(view))
    ensures CarriedEntry(s, view[d]).meta.entrySig == s.sig && Attributed(Metas(view), d, s.sig)
  {
    assert !Attributed(Metas(view), d, "");
  }

  lemma {:induction false} AnnotatedAt(anno: map<string, string>, ops: seq<Operator>, outcomes: seq<Outcome>, i: nat)
    requires |ops| == |outcomes| && i < |ops| && DistinctSigs(ops)
    ensures RecordedDigest(Annotated(anno, ops, outcomes), ops[i].sig) ==
      if outcomes[i].Refreshed? then ParseCacheDigest(CacheValue(outcomes[i].digest))
      else RecordedDigest(anno, ops[i].sig)
  {
    var n := |ops| - 1;
    if i < n {
      AnnotatedAt(anno, ops[..n], outcomes[..n], i);
      assert ops[i].sig != ops[n].sig;
    } else {
      AnnotatedElsewhere(anno, ops[..n], outcomes[..n], ops[n].sig);
    }
  }

  lemma {:induction false} AnnotatedElsewhere(anno: map<string, string>, ops: seq<Operator>, outcomes: seq<Outcome>, sig: string)
    requires |ops| == |outcomes| && forall i :: 0 <= i < |ops| ==> ops[i].sig != sig
    ensures RecordedDigest(Annotated(anno, ops, outcomes), sig) == RecordedDigest(anno, sig)
  {
    if ops != [] {
      var n := |ops| - 1;
      AnnotatedElsewhere(anno, ops[..n], outcomes[..n], sig);
    }
  }

  lemma AnnotationOf(anno: map<string, string>, ops: seq<Operator>, outcomes: seq<Outcome>, i: nat)
    requires |ops| == |outcomes| && i < |ops| && DistinctSigs(ops)
    ensures RecordedDigest(AnnotationsAfter(anno, ops, outcomes), ops[i].sig) ==
      if outcomes[i].Refreshed? then ParseCacheDigest(CacheValue(outcomes[i].digest))
      else RecordedDigest(anno, ops[i].sig)
  {
    AnnotatedAt(anno, ops, outcomes, i);
    assert ops[i] in ops;
  }

  /** The round keeps entries and annotations in agreement. */
  lemma RoundKeepsWhole(r: Round, view: EntryMap, anno: map<string, string>, content: Content)
    requires WellFormed(r, view, content) && NoLegacy(Metas(view)) && Whole(Metas(view), anno, content)
    ensures Whole(Metas(Resolved(view, SectionsOf(r), {})), AnnotationsAfter(anno, r.ops, r.outcomes), content)
    ensures NoLegacy(Metas(Resolved(view, SectionsOf(r), {})))
  {
    var metas, after := Metas(Resolved(view, SectionsOf(r), {})), AnnotationsAfter(anno, r.ops, r.outcomes);
    forall sig, d | RecordedDigest(after, sig).Some? && AnyAttributed(metas, sig) &&
                    d in content(RecordedDigest(after, sig).value, sig)
      ensures Attributed(metas, d, sig)
    {
      var x :| Attributed(metas, x, sig);
      var s := AttributedFrom(SectionsOf(r), view, x, sig);
      var i := OperatorSectionOf(r, view, content, s);
      AnnotationOf(anno, r.ops, r.outcomes, i);
      if r.outcomes[i].Refreshed? {
        CacheRoundTrip(r.outcomes[i].digest, "");
        FreshAttributed(r, view, content, i, d);
      } else {
        assert AnyAttributed(Metas(view), sig);
        CarriedAttributed(r, view, content, i, d);
      }
    }
    if d :| Attributed(metas, d, "") {
      var s := AttributedFrom(SectionsOf(r), view, d, "");
      var i := OperatorSectionOf(r, view, content, s);
      assert false;
    }
  }

  ghost predicate WholeFor(metas: map<Dest, SpecMeta>, digests: map<string, string>, content: Content, sig: string)
  {
    RecordedDigest(digests, sig).Some? && AnyAttributed(metas, sig) ==>
      forall d :: d in content(RecordedDigest(digests, sig).value, sig) ==> Attributed(metas, d, sig)
  }

  /** A cache hit or failed probe neither repairs nor breaks the agreement of an
      entry: it holds afterwards exactly if it held before. An annotation that is
      ahead of the entries, as a restart between patch and flush leaves it, stays
      ahead of them. */
  lemma HitKeepsWholeIff(r: Round, view: EntryMap, anno: map<string, string>, content: Content, i: nat)
    requires WellFormed(r, view, content) && NoLegacy(Metas(view)) && i < |r.ops| && !r.outcomes[i].Refreshed?
    ensures
      var after := AnnotationsAfter(anno, r.ops, r.outcomes);
      WholeFor(Metas(Resolved(view, SectionsOf(r), {})), after, content, r.ops[i].sig) <==>
      WholeFor(Metas(view), anno, content, r.ops[i].sig)
  {
    var sig := r.ops[i].sig;
    var before, metas := Metas(view), Metas(Resolved(view, SectionsOf(r), {}));
    AnnotationOf(anno, r.ops, r.outcomes, i);
    forall d ensures Attributed(metas, d, sig) <==> Attributed(before, d, sig)
    {
      if Attributed(before, d, sig) { CarriedAttributed(r, view, content, i, d); }
      if Attributed(metas, d, sig) {
        var s := AttributedFrom(SectionsOf(r), view, d, sig);
        var j := OperatorSectionOf(r, view, content, s);
        assert i == j;
      }
    }
    assert AnyAttributed(metas, sig) <==> AnyAttributed(before, sig);
  }

  // -------------------------------------------------------------- the system

  /** The manager, the annotations on each ImageSet, the stored ConfigMaps, and
      the ImageSets whose ConfigMap was not written since their annotations were
      last patched. */
  datatype World = World(sys: Sys, anno: map<Name, map<string, string>>, store: map<Name, ConfigMap>,
                         unflushed: set<Name>)

  datatype WorldEvent =
    | Manager(event: Event)           // any region but the end of a resolve and a load
    | EndRound(round: Round)          // annotations patched, result merged
    | Flush(names: set<Name>)         // these ConfigMaps were written
    | Restart(order: seq<Name>)       // a new manager process loads the ConfigMaps

  function AnnotationsOf(w: World, name: Name): map<string, string>
  {
    if name in w.anno then w.anno[name] else map[]
  }

  function StoredFor(w: World, names: seq<Name>): seq<Stored>
  {
    seq(|names|, i requires 0 <= i < |names| =>
      Stored(names[i], if names[i] in w.store then w.store[names[i]] else ConfigMap(map[], map[]),
             AnnotationsOf(w, names[i])))
  }

  function RoundEvent(w: World, r: Round): Event
    requires w.sys.phase.Resolving? && |r.ops| == |r.outcomes|
  {
    FinishResolve(SectionsOf(r), {}, r.recollect, AnnotationsAfter(AnnotationsOf(w, w.sys.phase.name), r.ops, r.outcomes))
  }

  /** What can happen at all. */
  ghost predicate Physical(w: World, e: WorldEvent, content: Content)
  {
    match e
    case Manager(event) => Enabled(w.sys, event) && !event.FinishResolve? && !event.LoadState?
    case EndRound(r) => w.sys.phase.Resolving? && WellFormed(r, w.sys.phase.view, content)
    case Flush(_) => true
    case Restart(names) => Distinct(names)
  }

  /** Every ConfigMap the new process loads has all that the digests in the
      annotations of its ImageSet yield. */
  ghost predicate RestartSafe(w: World, names: seq<Name>, content: Content)
  {
    forall name :: name in names && name in w.store ==>
      Whole(Metas(w.store[name].entries), AnnotationsOf(w, name), content)
  }

  /** What the safety theorem is about: every restart is a safe one. */
  ghost predicate Possible(w: World, e: WorldEvent, content: Content)
  {
    Physical(w, e, content) && (e.Restart? ==> RestartSafe(w, e.order, content))
  }

  ghost function WorldNext(w: World, e: WorldEvent, content: Content): World
    requires Physical(w, e, content)
  {
    match e
    case Manager(event) => w.(sys := Next(w.sys, event))
    case EndRound(r) =>
      var name := w.sys.phase.name;
      var after := AnnotationsAfter(AnnotationsOf(w, name), r.ops, r.outcomes);
      World(Next(w.sys, RoundEvent(w, r)), w.anno[name := after], w.store,
            if after == AnnotationsOf(w, name) then w.unflushed else w.unflushed + {name})
    case Flush(names) =>
      w.(store := map n | n in w.store.Keys + names :: if n in names then Flushed(w.sys.mem, n) else w.store[n],
         unflushed := w.unflushed - names)
    case Restart(names) => w.(sys := Sys(Load(FRESH, StoredFor(w, names)), Idle))
  }

  /** What holds of one ImageSet in every reachable state. */
  ghost predicate Agrees(w: World, name: Name, content: Content)
  {
    && Whole(OwnedMeta(w.sys.mem, name), AnnotationsOf(w, name), content)
    && Whole(OwnedMeta(w.sys.mem, name), DigestsOf(w.sys.mem, name), content)
    && NoLegacy(OwnedMeta(w.sys.mem, name))
    && (name in w.store ==>
          && Whole(Metas(w.store[name].entries), w.store[name].digests, content)
          && NoLegacy(Metas(w.store[name].entries))
          && (name !in w.unflushed ==> Whole(Metas(w.store[name].entries), AnnotationsOf(w, name), content)))
  }

  ghost predicate WorldInv(w: World, content: Content)
  {
    && OwnersLive(w.sys.mem)
    && (w.sys.phase.Resolving? ==> Metas(w.sys.phase.view) == OwnedMeta(w.sys.mem, w.sys.phase.name))
    && forall name :: Agrees(w, name, content)
  }

  lemma NothingIsWhole(digests: map<string, string>, content: Content)
    ensures Whole(map[], digests, content) && NoLegacy(map[])
  {
  }

  /** Regions of the manager other than the end of a resolve change nothing an
      ImageSet owns, or drop the ImageSet altogether. */
  lemma ManagerStepOwned(s: Sys, e: Event, name: Name)
    requires Enabled(s, e) && OwnersLive(s.mem) && !e.FinishResolve? && !e.LoadState?
    ensures
      var m := Next(s, e).mem;
      || (OwnedMeta(m, name) == OwnedMeta(s.mem, name) && DigestsOf(m, name) == DigestsOf(s.mem, name))
      || (e.StartTick? && OwnedMeta(m, name) == map[])
  {
    match e
    case StartTick(spec, maxRetries) => StartTickOwned(s, spec, maxRetries, name);
    case PhaseD(now) => TickOwned(s.mem, now, name);
    case BeginResolve(_) =>
    case _ =>
      StepSameSpec(s, e);
      SameSpecOwned(s.mem, Next(s, e).mem, name);
  }

  lemma StartTickOwned(s: Sys, spec: set<Name>, maxRetries: int, name: Name)
    requires OwnersLive(s.mem)
    ensures
      var m := Next(s, StartTick(spec, maxRetries)).mem;
      || (OwnedMeta(m, name) == OwnedMeta(s.mem, name) && DigestsOf(m, name) == DigestsOf(s.mem, name))
      || OwnedMeta(m, name) == map[]
  {
    var m := s.mem.(maxRetries := maxRetries);
    SameDataOwnedMax(s.mem, maxRetries, name);
    DropOwned(m, spec, name);
    assert name in spec ==> DigestsOf(DropRemoved(m, spec), name) == DigestsOf(m, name);
  }

  lemma ManagerStep(w: World, e: Event, content: Content)
    requires WorldInv(w, content) && Possible(w, Manager(e), content)
    ensures WorldInv(WorldNext(w, Manager(e), content), content)
  {
    var w' := WorldNext(w, Manager(e), content);
    StepOwnersLive(w.sys, e);
    forall name ensures Agrees(w', name, content)
    {
      assert Agrees(w, name, content);
      ManagerStepOwned(w.sys, e, name);
      NothingIsWhole(AnnotationsOf(w, name), content);
      NothingIsWhole(DigestsOf(w'.sys.mem, name), content);
    }
    if w'.sys.phase.Resolving? {
      if e.BeginResolve? {
        ViewMetas(w.sys.mem, e.name);
      } else {
        ManagerStepOwned(w.sys, e, w.sys.phase.name);
      }
    }
  }

  lemma FinishDigests(s: Sys, e: Event)
    requires s.phase.Resolving? && e.FinishResolve?
    ensures DigestsOf(Next(s, e).mem, s.phase.name) == e.digests
    ensures forall other :: other != s.phase.name ==> DigestsOf(Next(s, e).mem, other) == DigestsOf(s.mem, other)
  {
    var resolved := Resolved(s.phase.view, e.sections, e.blocked);
    var merge := !EqualState(s.phase.view, resolved) || s.phase.view == map[];
    EndResolveDigests(s.mem, s.phase.name, resolved, merge, e.recollect, e.digests);
  }

  lemma FinishOther(s: Sys, e: Event, other: Name)
    requires s.phase.Resolving? && e.FinishResolve? && OwnersLive(s.mem) && other != s.phase.name
    ensures OwnedMeta(Next(s, e).mem, other) == OwnedMeta(s.mem, other)
  {
    FinishOwned(s, e, other);
    MergeOtherOwned(s.mem, Resolved(s.phase.view, e.sections, e.blocked), s.phase.name, other);
  }

  lemma FinishSelf(s: Sys, e: Event)
    requires s.phase.Resolving? && e.FinishResolve? && OwnersLive(s.mem)
    requires Metas(s.phase.view) == OwnedMeta(s.mem, s.phase.name)
    ensures
      var resolved := Resolved(s.phase.view, e.sections, e.blocked);
      var metas := OwnedMeta(Next(s, e).mem, s.phase.name);
      metas == Metas(resolved) || (metas == Metas(s.phase.view) && EqualState(s.phase.view, resolved))
  {
    FinishOwned(s, e, s.phase.name);
    MergeOwns(s.mem, Resolved(s.phase.view, e.sections, e.blocked), s.phase.name);
  }

  lemma EndResolveDigests(m: Memory, name: Name, resolved: EntryMap, merge: bool, recollect: bool,
                          digests: map<string, string>)
    ensures DigestsOf(EndResolve(m, name, resolved, merge, recollect, digests), name) == digests
    ensures forall other :: other != name ==>
      DigestsOf(EndResolve(m, name, resolved, merge, recollect, digests), other) == DigestsOf(m, other)
  {
  }

  /** Unmerged results differ from the view in nothing that matters here. */
  lemma EqualStateWhole(view: EntryMap, resolved: EntryMap, digests: map<string, string>, content: Content)
    requires EqualState(view, resolved) && Whole(Metas(resolved), digests, content) && NoLegacy(Metas(resolved))
    ensures Whole(Metas(view), digests, content) && NoLegacy(Metas(view))
  {
    assert forall d, sig :: Attributed(Metas(view), d, sig) <==> Attributed(Metas(resolved), d, sig);
    forall sig ensures AnyAttributed(Metas(view), sig) <==> AnyAttributed(Metas(resolved), sig)
    {
    }
  }

  lemma RoundAgrees(w: World, r: Round, content: Content)
    requires WorldInv(w, content) && Possible(w, EndRound(r), content)
    ensures Agrees(WorldNext(w, EndRound(r), content), w.sys.phase.name, content)
  {
    var name, view := w.sys.phase.name, w.sys.phase.view;
    var resolved := Resolved(view, SectionsOf(r), {});
    assert Agrees(w, name, content);
    FinishSelf(w.sys, RoundEvent(w, r));
    FinishDigests(w.sys, RoundEvent(w, r));
    RoundKeepsWhole(r, view, AnnotationsOf(w, name), content);
    if EqualState(view, resolved) {
      EqualStateWhole(view, resolved, AnnotationsAfter(AnnotationsOf(w, name), r.ops, r.outcomes), content);
    }
  }

  lemma RoundStep(w: World, r: Round, content: Content)
    requires WorldInv(w, content) && Possible(w, EndRound(r), content)
    ensures WorldInv(WorldNext(w, EndRound(r), content), content)
  {
    StepOwnersLive(w.sys, RoundEvent(w, r));
    forall n ensures Agrees(WorldNext(w, EndRound(r), content), n, content)
    {
      if n == w.sys.phase.name {
        RoundAgrees(w, r, content);
      } else {
        assert Agrees(w, n, content);
        FinishOther(w.sys, RoundEvent(w, r), n);
        FinishDigests(w.sys, RoundEvent(w, r));
      }
    }
  }

  lemma FlushStep(w: World, names: set<Name>, content: Content)
    requires WorldInv(w, content)
    ensures WorldInv(WorldNext(w, Flush(names), content), content)
  {
    var w' := WorldNext(w, Flush(names), content);
    forall n ensures Agrees(w', n, content)
    {
      assert Agrees(w, n, content);
      ViewMetas(w.sys.mem, n);
    }
  }

  /** digests are those stored for name, or its annotations in their place. */
  ghost predicate FromStored(stored: seq<Stored>, name: Name, digests: map<string, string>)
  {
    exists i :: 0 <= i < |stored| && stored[i].name == name &&
      (digests == stored[i].cm.digests || digests == stored[i].annotations)
  }

  lemma {:induction false} LoadedDigests(m: Memory, stored: seq<Stored>, name: Name)
    ensures DigestsOf(LoadAll(m, stored), name) == DigestsOf(m, name) ||
            FromStored(stored, name, DigestsOf(LoadAll(m, stored), name))
  {
    if stored != [] {
      var n := |stored| - 1;
      LoadedDigests(m, stored[..n], name);
      LoadOneDigests(LoadAll(m, stored[..n]), stored[n], name);
      var digests := DigestsOf(LoadAll(m, stored), name);
      if stored[n].name != name && FromStored(stored[..n], name, digests) {
        var i :| 0 <= i < n && stored[..n][i].name == name &&
          (digests == stored[..n][i].cm.digests || digests == stored[..n][i].annotations);
        assert stored[i] == stored[..n][i];
      }
    }
  }

  /** A restart right after every patched ConfigMap was written is safe. */
  lemma FlushedRestartSafe(w: World, names: seq<Name>, content: Content)
    requires WorldInv(w, content) && w.unflushed == {}
    ensures RestartSafe(w, names, content)
  {
    forall name | name in names && name in w.store
      ensures Whole(Metas(w.store[name].entries), AnnotationsOf(w, name), content)
    {
      assert Agrees(w, name, content);
    }
  }

  /** A restart leaves memory, annotations and ConfigMaps in agreement exactly if
      it is safe. */
  lemma RestartKeepsIff(w: World, names: seq<Name>, content: Content)
    requires WorldInv(w, content) && Distinct(names)
    ensures WorldInv(WorldNext(w, Restart(names), content), content) <==> RestartSafe(w, names, content)
  {
    if RestartSafe(w, names, content) {
      RestartStep(w, names, content);
    } else {
      var w' := WorldNext(w, Restart(names), content);
      var name :| name in names && name in w.store &&
        !Whole(Metas(w.store[name].entries), AnnotationsOf(w, name), content);
      var i :| 0 <= i < |names| && names[i] == name;
      RestartOwns(w, names, i, content);
      assert !Agrees(w', name, content);
    }
  }

  lemma RestartOwns(w: World, names: seq<Name>, i: nat, content: Content)
    requires Distinct(names) && i < |names| && names[i] in w.store
    ensures
      var w' := WorldNext(w, Restart(names), content);
      && OwnedMeta(w'.sys.mem, names[i]) == Metas(w.store[names[i]].entries)
      && AnnotationsOf(w', names[i]) == AnnotationsOf(w, names[i])
  {
    var stored := StoredFor(w, names);
    assert DistinctNames(stored);
    LoadAfterPartialFlush(FRESH, stored);
    assert stored[i].cm == w.store[names[i]];
  }

  lemma RestartStep(w: World, names: seq<Name>, content: Content)
    requires WorldInv(w, content) && Possible(w, Restart(names), content)
    ensures WorldInv(WorldNext(w, Restart(names), content), content)
  {
    var stored := StoredFor(w, names);
    assert DistinctNames(stored);
    LoadAfterPartialFlush(FRESH, stored);
    forall n ensures Agrees(WorldNext(w, Restart(names), content), n, content)
    {
      RestartAgrees(w, names, n, content);
    }
  }

  lemma RestartAgrees(w: World, names: seq<Name>, name: Name, content: Content)
    requires WorldInv(w, content) && Possible(w, Restart(names), content)
    ensures Agrees(WorldNext(w, Restart(names), content), name, content)
  {
    var stored := StoredFor(w, names);
    assert DistinctNames(stored);
    var m := Load(FRESH, stored);
    LoadAfterPartialFlush(FRESH, stored);
    assert Agrees(w, name, content);
    NothingIsWhole(AnnotationsOf(w, name), content);
    NothingIsWhole(DigestsOf(m, name), content);
    if i :| 0 <= i < |stored| && stored[i].name == name {
      assert OwnedMeta(m, name) == Metas(stored[i].cm.entries);
      RestartDigests(w, names, i);
    } else {
      NotLoaded(m, stored, name);
    }
  }

  lemma RestartDigests(w: World, names: seq<Name>, i: nat)
    requires Distinct(names) && i < |names|
    ensures
      var digests := DigestsOf(Load(FRESH, StoredFor(w, names)), names[i]);
      digests == map[] || digests == StoredFor(w, names)[i].cm.digests || digests == AnnotationsOf(w, names[i])
  {
    var stored := StoredFor(w, names);
    LoadedDigests(FRESH, stored, names[i]);
    if FromStored(stored, names[i], DigestsOf(Load(FRESH, stored), names[i])) {
      var j :| 0 <= j < |stored| && stored[j].name == names[i] &&
        (DigestsOf(Load(FRESH, stored), names[i]) == stored[j].cm.digests ||
         DigestsOf(Load(FRESH, stored), names[i]) == stored[j].annotations);
      assert names[j] == names[i];
    }
  }

  lemma NotLoaded(m: Memory, stored: seq<Stored>, name: Name)
    requires LoadedFrom(m, stored) && forall i :: 0 <= i < |stored| ==> stored[i].name != name
    ensures OwnedMeta(m, name) == map[]
  {
    forall d ensures !Owns(m, name, d)
    {
      assert !IsOwnerIn(stored, d, name);
    }
  }

  lemma WorldStep(w: World, e: WorldEvent, content: Content)
    requires WorldInv(w, content) && Possible(w, e, content)
    ensures WorldInv(WorldNext(w, e, content), content)
  {
    match e
    case Manager(event) => ManagerStep(w, event, content);
    case EndRound(r) => RoundStep(w, r, content);
    case Flush(names) => FlushStep(w, names, content);
    case Restart(names) => RestartStep(w, names, content);
  }

  // ------------------------------------------------------------- the theorem

  ghost predicate LeadsTo(w: World, e: WorldEvent, w': World, content: Content)
  {
    Physical(w, e, content) && w' == WorldNext(w, e, content)
  }

  ghost predicate PhysicalRun(worlds: seq<World>, events: seq<WorldEvent>, content: Content)
  {
    && |worlds| == |events| + 1
    && worlds[0] == World(Sys(FRESH, Idle), map[], map[], {})
    && forall i :: 0 <= i < |events| ==> LeadsTo(worlds[i], events[i], worlds[i + 1], content)
  }

  ghost predicate RestartsSafe(worlds: seq<World>, events: seq<WorldEvent>, content: Content, n: nat)
    requires n <= |events| < |worlds|
  {
    forall i :: 0 <= i < n && events[i].Restart? ==> RestartSafe(worlds[i], events[i].order, content)
  }

  /** The runs the safety theorem is about. */
  ghost predicate WorldRun(worlds: seq<World>, events: seq<WorldEvent>, content: Content)
  {
    PhysicalRun(worlds, events, content) && RestartsSafe(worlds, events, content, |events|)
  }

  ghost predicate AgreesUpTo(worlds: seq<World>, content: Content, n: nat)
    requires n < |worlds|
  {
    forall i :: 0 <= i <= n ==> WorldInv(worlds[i], content)
  }

  lemma InitialAgrees(content: Content)
    ensures WorldInv(World(Sys(FRESH, Idle), map[], map[], {}), content)
  {
    var w := World(Sys(FRESH, Idle), map[], map[], {});
    forall name ensures Agrees(w, name, content)
    {
      assert OwnedMeta(FRESH, name) == map[];
      NothingIsWhole(map[], content);
    }
  }

  lemma StepAgreesIff(w: World, e: WorldEvent, content: Content)
    requires WorldInv(w, content) && Physical(w, e, content)
    ensures WorldInv(WorldNext(w, e, content), content) <==> (e.Restart? ==> RestartSafe(w, e.order, content))
  {
    if e.Restart? {
      RestartKeepsIff(w, e.order, content);
    } else {
      WorldStep(w, e, content);
    }
  }

  /** Memory, annotations and ConfigMaps agree in all states of a run exactly if
      every restart in it is safe. */
  lemma {:induction false} RunAgreesIff(worlds: seq<World>, events: seq<WorldEvent>, content: Content, n: nat)
    requires PhysicalRun(worlds, events, content) && n <= |events|
    ensures AgreesUpTo(worlds, content, n) <==> RestartsSafe(worlds, events, content, n)
  {
    if n == 0 {
      InitialAgrees(content);
    } else {
      RunAgreesIff(worlds, events, content, n - 1);
      AgreesMore(worlds, content, n);
      RestartsMore(worlds, events, content, n);
      if AgreesUpTo(worlds, content, n - 1) {
        assert LeadsTo(worlds[n - 1], events[n - 1], worlds[n - 1 + 1], content);
        StepAgreesIff(worlds[n - 1], events[n - 1], content);
      }
    }
  }

  lemma AgreesMore(worlds: seq<World>, content: Content, n: nat)
    requires 0 < n < |worlds|
    ensures AgreesUpTo(worlds, content, n) <==> AgreesUpTo(worlds, content, n - 1) && WorldInv(worlds[n], content)
  {
  }

  lemma RestartsMore(worlds: seq<World>, events: seq<WorldEvent>, content: Content, n: nat)
    requires 0 < n <= |events| < |worlds|
    ensures RestartsSafe(worlds, events, content, n) <==>
      RestartsSafe(worlds, events, content, n - 1) &&
      (events[n - 1].Restart? ==> RestartSafe(worlds[n - 1], events[n - 1].order, content))
  {
  }

  lemma WorldRunInv(worlds: seq<World>, events: seq<WorldEvent>, content: Content, i: nat)
    requires WorldRun(worlds, events, content) && i <= |events|
    ensures WorldInv(worlds[i], content)
  {
    RunAgreesIff(worlds, events, content, |events|);
  }

  /** Whenever the gate lets a catalog job be created for an operator entry, at
      the digest stored with the entries, every image the catalog at that digest
      advertises is in the state the gate read, mirrored or permanently failed. */
  lemma CatalogNeverAdvertisesUnmirrored(worlds: seq<World>, events: seq<WorldEvent>, content: Content, i: nat,
                                         name: Name, operators: seq<Operator>, op: Operator, observed: bool,
                                         digest: string, d: Dest)
    requires WorldRun(worlds, events, content) && i <= |events|
    requires name in worlds[i].store && op in operators && op.catalog != ""
    requires Complete(worlds[i].store[name], operators, observed)
    requires RecordedDigest(worlds[i].store[name].digests, op.sig) == Some(digest)
    requires d in content(digest, op.sig)
    ensures
      var entries := worlds[i].store[name].entries;
      d in entries && (entries[d].state == Mirrored || entries[d].permanentlyFailed)
  {
    WorldRunInv(worlds, events, content, i);
    assert Agrees(worlds[i], name, content);
    var cm := worlds[i].store[name];
    if x :| x in cm.entries && cm.entries[x].meta.origin == OriginOperator && cm.entries[x].meta.entrySig == "" {
      assert Attributed(Metas(cm.entries), x, "");
      assert false;
    }
    var x :| x in cm.entries && cm.entries[x].meta.origin == OriginOperator && cm.entries[x].meta.entrySig == op.sig;
    assert Attributed(Metas(cm.entries), x, op.sig);
    assert AnyAttributed(Metas(cm.entries), op.sig);
    assert Attributed(Metas(cm.entries), d, op.sig);
  }
}

/** What the regions do to a working set of a single destination: the building
    blocks of the runs that show where a claim stops being true. */
module SingleImage {
  import opened Options
  import opened ImageState
  import opened ManagerModel
  import opened Ownership
  import opened Resolve
  import opened Runs

  /** Nothing is live; the flag of d is as given. */
  ghost predicate Empty(m: Memory, d: Dest, flagged: bool)
  {
    && m.imageState == map[] && m.owners == map[] && m.ownerMeta == map[]
    && m.queue == [] && (d in m.mirrored <==> flagged)
  }

  /** Only d is live, with entry e, owned by name alone. */
  ghost predicate Owned(m: Memory, name: Name, d: Dest, e: Entry, flagged: bool)
  {
    && m.imageState == map[d := e] && m.owners == map[d := [name]] && m.ownerMeta == map[d := map[name := e.meta]]
    && m.queue == [] && (d in m.mirrored <==> flagged)
  }

  /** Only d is live, with entry e, nobody owns it, and its flag is set. */
  ghost predicate Left(m: Memory, d: Dest, e: Entry)
  {
    && m.imageState == map[d := e] && m.owners == map[] && m.ownerMeta == map[]
    && m.queue == [] && d in m.mirrored
  }

  lemma OwnedView(m: Memory, name: Name, d: Dest, e: Entry, flagged: bool)
    requires Owned(m, name, d, e, flagged)
    ensures View(m, name) == map[d := e]
  {
    assert OwnerView(m, d, name) == e;
  }

  /** What one freshly resolved image yields. */
  lemma FreshImage(view: EntryMap, s: Section, img: TargetImage)
    requires s.Fresh? && s.images == [img] && Unowned(view) == map[]
    ensures MergeFresh(map[], s, s.images, view) == map[img.dest := FreshEntry(s, img, view)]
  {
    assert s.images[..0] == [];
    assert MergeFresh(map[], s, [], view) == map[];
  }

  lemma FreshSection(view: EntryMap, s: Section, img: TargetImage)
    requires s.Fresh? && s.images == [img] && Unowned(view) == map[]
    ensures Resolved(view, [s], {}) == map[img.dest := FreshEntry(s, img, view)]
  {
    FreshImage(view, s, img);
    OneSection(view, s);
  }

  lemma OneSection(view: EntryMap, s: Section)
    ensures RunSections(Unowned(view), [s], view) == RunSection(Unowned(view), s, view)
  {
    assert [s][..0] == [];
    assert RunSections(Unowned(view), [], view) == Unowned(view);
  }

  lemma MergeAdds(m: Memory, name: Name, d: Dest, e: Entry, flagged: bool)
    requires Empty(m, d, flagged)
    ensures Owned(Merged(m, map[d := e], name), name, d, e, flagged)
  {
    var resolved := map[d := e];
    var m' := MergeResolved(m, resolved, name);
    assert MergedOwners(m, resolved, name, d) == [name];
    assert m'.imageState == map[d := e];
    assert m'.owners == map[d := [name]];
    RecordAdds(m', name, d, e);
  }

  lemma RecordAdds(m: Memory, name: Name, d: Dest, e: Entry)
    requires m.ownerMeta == map[]
    ensures RecordOwnerMeta(m, name, map[d := e]).ownerMeta == map[d := map[name := e.meta]]
  {
    var metas := RecordedMeta(m, name, map[d := e], d);
    assert metas == map[name := e.meta] && name in metas;
  }

  lemma MergeRemoves(m: Memory, name: Name, d: Dest, e: Entry)
    requires Owned(m, name, d, e, true)
    ensures Left(Merged(m, map[], name), d, e)
  {
    var m' := MergeResolved(m, map[], name);
    assert [name][..0] == [];
    assert Without([name], name) == [];
    assert m'.imageState == map[d := e];
    assert m'.owners == map[];
    assert RecordedMeta(m', name, map[], d) == map[];
    assert RecordOwnerMeta(m', name, map[]).ownerMeta == map[];
  }

  /** One resolve round, from the view to the merged memory. */
  lemma RoundMerges(s: Sys, name: Name, sections: seq<Section>, digests: map<string, string>, resolved: EntryMap)
    requires s.phase.Idle? && resolved == Resolved(View(s.mem, name), sections, {})
    requires !EqualState(View(s.mem, name), resolved) || View(s.mem, name) == map[]
    ensures
      var e := FinishResolve(sections, {}, false, digests);
      var s1 := Next(s, BeginResolve(name));
      && Enabled(s, BeginResolve(name)) && Enabled(s1, e)
      && Next(s1, e).phase.Idle? && SameData(Next(s1, e).mem, Merged(s.mem, resolved, name))
  {
    EndResolveIsCore(s.mem, name, resolved, true, false, digests);
  }

  function Success(d: Dest): Report
  {
    Report(d, "pod", "", "", 0)
  }

  function Done(e: Entry): Entry
  {
    e.(state := Mirrored, lastError := "", nextRetryAt := None)
  }

  lemma ReportMirrors(m: Memory, name: Name, d: Dest, e: Entry)
    requires Owned(m, name, d, e, false) && e.state == Pending
    ensures Owned(ApplyStatus(m, Success(d)), name, d, Done(e), true)
  {
    var c := ReportChange(e, Success(d), EffectiveMaxRetries(m.maxRetries));
    assert c.entry == Done(e) && c.flag == Some(true);
    assert Put(m, d, c).imageState == map[d := Done(e)];
  }

  lemma DrainOne(m: Memory, r: Report)
    requires m.queue == []
    ensures Drain(m.(queue := [r])) == ApplyStatus(m, r)
  {
    assert [r][..0] == [];
    assert ApplyAll(m, []) == m;
    assert m.(queue := [r]).(queue := []) == m;
  }

  /** A success is acknowledged and applied. */
  lemma ReportRound(s: Sys, name: Name, d: Dest, e: Entry)
    requires s.phase.Idle? && Owned(s.mem, name, d, e, false) && e.state == Pending
    ensures
      var s2 := Next(Next(s, Acknowledge(Success(d))), DrainQueue);
      s2.phase.Idle? && Owned(s2.mem, name, d, Done(e), true)
  {
    var r := Success(d);
    assert s.mem.queue + [r] == [r];
    DrainOne(s.mem, r);
    ReportMirrors(s.mem, name, d, e);
  }

  /** The tick takes d out and leaves its flag. */
  lemma SweepStep(s: Sys, d: Dest, e: Entry, now: int)
    requires s.phase.Idle? && Left(s.mem, d, e)
    ensures Next(s, PhaseD(now)).phase.Idle? && Empty(Next(s, PhaseD(now)).mem, d, true)
  {
    assert Orphaned(s.mem, d);
    assert Orphans(s.mem).Keys == {d};
  }
}

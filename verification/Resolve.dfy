/** Resolving one ImageSet: which entries its spec yields, given the entries it
    had before and what each spec entry's probe returned. */
module Resolve {
  import opened Options
  import opened ImageState

  datatype TargetImage = TargetImage(source: string, dest: Dest, bundleRef: string, isBundleImage: bool)

  /** The outcome of one spec entry, in the order the sections run. */
  datatype Section =
    | CarryOver(origin: Origin, sig: string, originRef: string)  // cache hit or failed probe
    | CarryOverHelm(originRef: string)                           // chart that failed to resolve
    | Fresh(origin: Origin, sig: string, originRef: string, catalog: string, images: seq<TargetImage>)

  const BUNDLE_SEPARATOR := " \U{2014} "

  predicate HasPrefix(s: string, prefix: string)
  {
    prefix <= s
  }

  /** CatalogFromOriginRef: everything before the first space. */
  function CatalogFromOriginRef(ref: string): string
  {
    if ref == "" || ref[0] == ' ' then "" else [ref[0]] + CatalogFromOriginRef(ref[1..])
  }

  /** The entry mergeIntoStateWithSig writes for one image. */
  function FreshEntry(s: Section, img: TargetImage, prev: EntryMap): Entry
    requires s.Fresh?
  {
    var ref := if img.bundleRef == "" then s.originRef else s.originRef + BUNDLE_SEPARATOR + img.bundleRef;
    var meta := SpecMeta(s.origin, s.sig, ref, s.catalog, img.isBundleImage);
    var e := Entry(img.source, Pending, "", 0, meta, false, None, false, "");
    if img.dest in prev && (prev[img.dest].meta.origin == s.origin || prev[img.dest].meta.origin == OriginUnknown) then
      var prior := prev[img.dest];
      var e1 := if ',' in img.source && ',' !in prior.source then e.(source := prior.source) else e;
      var stale := s.origin == OriginHelmChart && prior.meta.entrySig != "" && prior.meta.entrySig != s.sig;
      if prior.state == Mirrored && !stale
      then e1.(state := Mirrored, retryCount := prior.retryCount, lastError := prior.lastError)
      else e1
    else e
  }

  /** mergeIntoStateWithSig: a later image of the same destination wins. */
  function MergeFresh(dst: EntryMap, s: Section, images: seq<TargetImage>, prev: EntryMap): EntryMap
    requires s.Fresh?
  {
    if images == [] then dst else
      var last := images[|images| - 1];
      MergeFresh(dst, s, images[..|images| - 1], prev)[last.dest := FreshEntry(s, last, prev)]
  }

  /** carryOverByOriginAndSig applies to e. */
  predicate Carries(s: Section, e: Entry)
    requires s.CarryOver?
  {
    e.meta.origin == s.origin && (e.meta.entrySig == "" || e.meta.entrySig == s.sig)
  }

  function CarriedEntry(s: Section, e: Entry): Entry
    requires s.CarryOver?
  {
    var sig := if e.meta.entrySig == "" then s.sig else e.meta.entrySig;
    var ref := if e.meta.originRef == "" && s.originRef != "" then s.originRef else e.meta.originRef;
    var catalog := if e.meta.origin == OriginOperator && e.meta.catalog == "" then CatalogFromOriginRef(ref)
                   else e.meta.catalog;
    e.(meta := e.meta.(entrySig := sig, originRef := ref, catalog := catalog))
  }

  /** carryOverHelmEntries applies to e. */
  predicate CarriesHelm(s: Section, e: Entry)
    requires s.CarryOverHelm?
  {
    (e.meta.origin == OriginHelm || e.meta.origin == OriginHelmChart) &&
    (e.meta.originRef == "" || HasPrefix(e.meta.originRef, s.originRef))
  }

  function HelmEntry(s: Section, e: Entry): Entry
    requires s.CarryOverHelm?
  {
    if e.meta.originRef == "" then e.(meta := e.meta.(originRef := s.originRef)) else e
  }

  function RunSection(dst: EntryMap, s: Section, prev: EntryMap): EntryMap
  {
    match s
    case CarryOver(_, _, _) =>
      dst + (map d | d in prev && d !in dst && Carries(s, prev[d]) :: CarriedEntry(s, prev[d]))
    case CarryOverHelm(_) =>
      dst + (map d | d in prev && d !in dst && CarriesHelm(s, prev[d]) :: HelmEntry(s, prev[d]))
    case Fresh(_, _, _, _, images) => MergeFresh(dst, s, images, prev)
  }

  function RunSections(dst: EntryMap, sections: seq<Section>, prev: EntryMap): EntryMap
  {
    if sections == [] then dst
    else RunSection(RunSections(dst, sections[..|sections| - 1], prev), sections[|sections| - 1], prev)
  }

  /** Entries of unknown origin, which no section owns. */
  function Unowned(prev: EntryMap): EntryMap
  {
    map d | d in prev && prev[d].meta.origin == OriginUnknown :: prev[d]
  }

  /** resolveImageSet, with the sources spec.mirror.blockedImages matches. */
  function Resolved(prev: EntryMap, sections: seq<Section>, blocked: set<string>): EntryMap
  {
    var all := RunSections(Unowned(prev), sections, prev);
    map d | d in all && all[d].source !in blocked :: all[d]
  }

  /** equalState: the fields it compares. */
  predicate EqualState(a: EntryMap, b: EntryMap)
  {
    a.Keys == b.Keys &&
    forall d :: d in a ==>
      && a[d].source == b[d].source && a[d].state == b[d].state
      && a[d].meta.origin == b[d].meta.origin && a[d].meta.entrySig == b[d].meta.entrySig
      && a[d].retryCount == b[d].retryCount && a[d].lastError == b[d].lastError
      && a[d].meta.originRef == b[d].meta.originRef
  }

  // --------------------------------------------------------------- properties

  predicate Produces(s: Section, d: Dest)
  {
    s.Fresh? && exists img :: img in s.images && img.dest == d
  }

  lemma {:induction false} MergeFreshFacts(dst: EntryMap, s: Section, images: seq<TargetImage>, prev: EntryMap, d: Dest)
    requires s.Fresh?
    ensures
      var out := MergeFresh(dst, s, images, prev);
      if exists img :: img in images && img.dest == d
      then d in out && exists img :: img in images && img.dest == d && out[d] == FreshEntry(s, img, prev)
      else (d in out <==> d in dst) && (d in dst ==> out[d] == dst[d])
  {
    if images != [] {
      var n := |images| - 1;
      MergeFreshFacts(dst, s, images[..n], prev, d);
      assert images == images[..n] + [images[n]];
      if images[n].dest == d {
        assert images[n] in images;
      } else {
        assert forall img :: img in images && img.dest == d <==> img in images[..n] && img.dest == d;
      }
    }
  }

  /** A destination the ImageSet did not have before starts Pending. */
  lemma {:induction false} NewStartsPending(dst: EntryMap, sections: seq<Section>, prev: EntryMap, d: Dest)
    requires d !in prev && (d in dst ==> dst[d].state == Pending)
    requires d in RunSections(dst, sections, prev)
    ensures RunSections(dst, sections, prev)[d].state == Pending
  {
    if sections != [] {
      var n := |sections| - 1;
      var before, s := RunSections(dst, sections[..n], prev), sections[n];
      if d in before {
        NewStartsPending(dst, sections[..n], prev, d);
      }
      if s.Fresh? {
        MergeFreshFacts(before, s, s.images, prev, d);
      }
    }
  }

  lemma ResolvedNewPending(prev: EntryMap, sections: seq<Section>, blocked: set<string>, d: Dest)
    requires d !in prev && d in Resolved(prev, sections, blocked)
    ensures Resolved(prev, sections, blocked)[d].state == Pending
  {
    NewStartsPending(Unowned(prev), sections, prev, d);
  }

  /** An entry whose signature a cache hit or failed probe carries over keeps its
      identity, unless a fresh section writes the same destination. */
  lemma {:induction false} CarriedThrough(dst: EntryMap, sections: seq<Section>, prev: EntryMap, d: Dest)
    requires d in prev && prev[d].meta.entrySig != ""
    requires prev[d].meta.origin == OriginRelease || prev[d].meta.origin == OriginOperator
    requires forall s :: s in sections ==> !Produces(s, d)
    requires d !in dst
    ensures
      var out := RunSections(dst, sections, prev);
      && (d in out ==> CarriedForm(prev[d], out[d]))
      && ((exists s :: s in sections && s.CarryOver? && Carries(s, prev[d])) ==> d in out)
  {
    if sections != [] {
      var n := |sections| - 1;
      var before, s := RunSections(dst, sections[..n], prev), sections[n];
      assert sections == sections[..n] + [s];
      CarriedThrough(dst, sections[..n], prev, d);
      assert !Produces(s, d);
      CarriedStep(before, s, prev, d);
    }
  }

  /** What one section does to an entry that no section produces. */
  lemma CarriedStep(before: EntryMap, s: Section, prev: EntryMap, d: Dest)
    requires d in prev && prev[d].meta.entrySig != "" && !Produces(s, d)
    requires prev[d].meta.origin == OriginRelease || prev[d].meta.origin == OriginOperator
    requires d in before ==> CarriedForm(prev[d], before[d])
    ensures
      var out := RunSection(before, s, prev);
      && (d in out ==> CarriedForm(prev[d], out[d]))
      && (d in before || (s.CarryOver? && Carries(s, prev[d])) ==> d in out)
  {
    if s.Fresh? {
      MergeFreshFacts(before, s, s.images, prev, d);
    }
  }

  /** out is e with at most its display metadata filled in. */
  predicate CarriedForm(e: Entry, out: Entry)
  {
    SameLifecycle(e, out) && out.source == e.source &&
    out.meta.origin == e.meta.origin && out.meta.entrySig == e.meta.entrySig
  }

  lemma ResolvedCarries(prev: EntryMap, sections: seq<Section>, blocked: set<string>, d: Dest)
    requires d in prev && prev[d].meta.entrySig != "" && prev[d].source !in blocked
    requires prev[d].meta.origin == OriginRelease || prev[d].meta.origin == OriginOperator
    requires forall s :: s in sections ==> !Produces(s, d)
    requires exists s :: s in sections && s.CarryOver? && Carries(s, prev[d])
    ensures d in Resolved(prev, sections, blocked)
    ensures CarriedForm(prev[d], Resolved(prev, sections, blocked)[d])
  {
    CarriedThrough(Unowned(prev), sections, prev, d);
  }

  // --------------------------------------------------------------- provenance

  /** Where an entry of the resolved state comes from. */
  ghost predicate Provenance(sections: seq<Section>, prev: EntryMap, d: Dest, e: Entry)
  {
    || (d in prev && e == prev[d] && e.meta.origin == OriginUnknown)
    || (exists s :: s in sections && s.CarryOver? && d in prev && Carries(s, prev[d]) && e == CarriedEntry(s, prev[d]))
    || (e.meta.origin == OriginHelm || e.meta.origin == OriginHelmChart)
    || (exists s, img :: s in sections && s.Fresh? && img in s.images && img.dest == d && e == FreshEntry(s, img, prev))
  }

  lemma ProvenanceMore(sections: seq<Section>, s: Section, prev: EntryMap, d: Dest, e: Entry)
    requires Provenance(sections, prev, d, e)
    ensures Provenance(sections + [s], prev, d, e)
  {
    var more := sections + [s];
    if x :| x in sections && x.CarryOver? && d in prev && Carries(x, prev[d]) && e == CarriedEntry(x, prev[d]) {
      assert x in more;
    } else if x, img :| x in sections && x.Fresh? && img in x.images && img.dest == d && e == FreshEntry(x, img, prev) {
      assert x in more;
    }
  }

  lemma {:induction false} ResolvedProvenance(sections: seq<Section>, prev: EntryMap, d: Dest)
    requires d in RunSections(Unowned(prev), sections, prev)
    ensures Provenance(sections, prev, d, RunSections(Unowned(prev), sections, prev)[d])
  {
    if sections != [] {
      var n := |sections| - 1;
      var before, s := RunSections(Unowned(prev), sections[..n], prev), sections[n];
      var e := RunSections(Unowned(prev), sections, prev)[d];
      assert sections == sections[..n] + [s];
      if s.Fresh? {
        MergeFreshFacts(before, s, s.images, prev, d);
      }
      if d in before && e == before[d] {
        ResolvedProvenance(sections[..n], prev, d);
        ProvenanceMore(sections[..n], s, prev, d, e);
      } else {
        assert s in sections;
      }
    }
  }

  /** A freshly resolved image stays as its section wrote it when no other
      section writes the same destination. */
  lemma {:induction false} FreshStays(dst: EntryMap, sections: seq<Section>, prev: EntryMap, k: nat, d: Dest)
    requires k < |sections| && Produces(sections[k], d)
    requires forall i :: 0 <= i < |sections| && i != k ==> !Produces(sections[i], d)
    ensures
      var out := RunSections(dst, sections, prev);
      d in out && out[d].meta.origin == sections[k].origin && out[d].meta.entrySig == sections[k].sig
  {
    var n := |sections| - 1;
    var before := RunSections(dst, sections[..n], prev);
    if k == n {
      FreshWrites(before, sections[n], prev, d);
    } else {
      FreshStays(dst, sections[..n], prev, k, d);
      SectionKeeps(before, sections[n], prev, d);
    }
  }

  lemma FreshWrites(dst: EntryMap, s: Section, prev: EntryMap, d: Dest)
    requires Produces(s, d)
    ensures
      var out := RunSection(dst, s, prev);
      d in out && out[d].meta.origin == s.origin && out[d].meta.entrySig == s.sig
  {
    MergeFreshFacts(dst, s, s.images, prev, d);
  }

  lemma SectionKeeps(dst: EntryMap, s: Section, prev: EntryMap, d: Dest)
    requires d in dst && !Produces(s, d)
    ensures d in RunSection(dst, s, prev) && RunSection(dst, s, prev)[d] == dst[d]
  {
    if s.Fresh? {
      MergeFreshFacts(dst, s, s.images, prev, d);
    }
  }
}

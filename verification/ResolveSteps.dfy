/** A resolve carried out step by step: the loops that build the new state of one
    ImageSet, proved to give what Resolve says. */
module ResolveSteps {
  import opened Options
  import opened ImageState
  import opened Resolve

  lemma MergeFreshMore(dst: EntryMap, s: Section, prev: EntryMap, i: nat)
    requires s.Fresh? && i < |s.images|
    ensures MergeFresh(dst, s, s.images[..i + 1], prev) ==
      MergeFresh(dst, s, s.images[..i], prev)[s.images[i].dest := FreshEntry(s, s.images[i], prev)]
  {
    var upTo := s.images[..i + 1];
    assert upTo[..|upTo| - 1] == s.images[..i] && upTo[|upTo| - 1] == s.images[i];
  }

  method MergeIntoStateWithSig(dst: EntryMap, s: Section, prev: EntryMap) returns (out: EntryMap)
    requires s.Fresh?
    ensures out == MergeFresh(dst, s, s.images, prev)
  {
    out := dst;
    for i := 0 to |s.images|
      invariant out == MergeFresh(dst, s, s.images[..i], prev)
    {
      MergeFreshMore(dst, s, prev, i);
      out := out[s.images[i].dest := FreshEntry(s, s.images[i], prev)];
    }
    assert s.images[..|s.images|] == s.images;
  }

  /** carryOverByOriginAndSig, in any map order. */
  method CarryOverByOriginAndSig(dst: EntryMap, s: Section, prev: EntryMap) returns (out: EntryMap)
    requires s.CarryOver?
    ensures out == RunSection(dst, s, prev)
  {
    out := dst;
    var todo := prev.Keys;
    ghost var done: set<Dest> := {};
    while todo != {}
      invariant todo !! done && todo + done == prev.Keys
      invariant out == dst + (map d | d in done && d !in dst && Carries(s, prev[d]) :: CarriedEntry(s, prev[d]))
    {
      var d :| d in todo;
      if d !in out && Carries(s, prev[d]) {
        out := out[d := CarriedEntry(s, prev[d])];
      }
      todo, done := todo - {d}, done + {d};
    }
    assert done == prev.Keys;
  }

  /** carryOverHelmEntries, in any map order. */
  method CarryOverHelmEntries(dst: EntryMap, s: Section, prev: EntryMap) returns (out: EntryMap)
    requires s.CarryOverHelm?
    ensures out == RunSection(dst, s, prev)
  {
    out := dst;
    var todo := prev.Keys;
    ghost var done: set<Dest> := {};
    while todo != {}
      invariant todo !! done && todo + done == prev.Keys
      invariant out == dst + (map d | d in done && d !in dst && CarriesHelm(s, prev[d]) :: HelmEntry(s, prev[d]))
    {
      var d :| d in todo;
      if d !in out && CarriesHelm(s, prev[d]) {
        out := out[d := HelmEntry(s, prev[d])];
      }
      todo, done := todo - {d}, done + {d};
    }
    assert done == prev.Keys;
  }

  /** filterBlockedImages, in any map order. */
  method FilterBlockedImages(state: EntryMap, blocked: set<string>) returns (out: EntryMap)
    ensures out == map d | d in state && state[d].source !in blocked :: state[d]
  {
    out := state;
    var todo := state.Keys;
    ghost var done: set<Dest> := {};
    while todo != {}
      invariant todo !! done && todo + done == state.Keys
      invariant out == map d | d in state && !(d in done && state[d].source in blocked) :: state[d]
    {
      var d :| d in todo;
      if state[d].source in blocked {
        out := out - {d};
      }
      todo, done := todo - {d}, done + {d};
    }
    assert done == state.Keys;
  }

  /** The state a resolve of one ImageSet ends with, from its sections. */
  method ResolveImageSet(prev: EntryMap, sections: seq<Section>, blocked: set<string>) returns (out: EntryMap)
    ensures out == Resolved(prev, sections, blocked)
  {
    out := Unowned(prev);
    for i := 0 to |sections|
      invariant out == RunSections(Unowned(prev), sections[..i], prev)
    {
      assert sections[..i + 1][..i] == sections[..i];
      match sections[i] {
        case CarryOver(_, _, _) => out := CarryOverByOriginAndSig(out, sections[i], prev);
        case CarryOverHelm(_) => out := CarryOverHelmEntries(out, sections[i], prev);
        case Fresh(_, _, _, _, _) => out := MergeIntoStateWithSig(out, sections[i], prev);
      }
    }
    assert sections[..|sections|] == sections;
    out := FilterBlockedImages(out, blocked);
  }
}

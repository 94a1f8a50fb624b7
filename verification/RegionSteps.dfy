/** How the loops of the manager's regions progress, one destination at a time. */
module RegionSteps {
  import opened Options
  import opened ImageState
  import opened ManagerModel
  import opened Persistence

  lemma ResyncMore(m: Memory, name: Name, within: set<Dest>, d: Dest)
    requires d in m.imageState && d !in within
    ensures
      var p := ResyncOn(m, name, within);
      d in p.imageState && p.imageState[d] == m.imageState[d] && (ResyncHits(p, name, d) <==> ResyncHits(m, name, d))
    ensures ResyncHits(m, name, d) ==>
      var p := ResyncOn(m, name, within);
      && ResyncOn(m, name, within + {d}) ==
         p.(imageState := p.imageState[d := Resynced(m.imageState[d])], mirrored := p.mirrored - {d})
      && ResyncSet(m, name, within + {d}) != {}
    ensures !ResyncHits(m, name, d) ==>
      && ResyncOn(m, name, within + {d}) == ResyncOn(m, name, within)
      && ResyncSet(m, name, within + {d}) == ResyncSet(m, name, within)
  {
    if ResyncHits(m, name, d) {
      assert ResyncSet(m, name, within + {d}) == ResyncSet(m, name, within) + {d};
    } else {
      assert ResyncSet(m, name, within + {d}) == ResyncSet(m, name, within);
    }
  }

  lemma ResyncNone(m: Memory, name: Name)
    ensures ResyncOn(m, name, {}) == m && ResyncSet(m, name, {}) == {}
  {
    assert ResyncOn(m, name, {}).imageState == m.imageState;
  }

  lemma RecollectMore(m: Memory, name: Name, within: set<Dest>, d: Dest)
    requires d in m.imageState && d !in within
    ensures
      var p := RecollectOn(m, name, within);
      d in p.imageState && p.imageState[d] == m.imageState[d] && (RecollectHits(p, name, d) <==> RecollectHits(m, name, d))
    ensures RecollectHits(m, name, d) ==>
      var p := RecollectOn(m, name, within);
      && RecollectOn(m, name, within + {d}) ==
         p.(imageState := p.imageState[d := ResetPending(m.imageState[d]).(lastError := "")])
      && RecollectSet(m, name, within + {d}) != {}
    ensures !RecollectHits(m, name, d) ==>
      && RecollectOn(m, name, within + {d}) == RecollectOn(m, name, within)
      && RecollectSet(m, name, within + {d}) == RecollectSet(m, name, within)
  {
    if RecollectHits(m, name, d) {
      assert RecollectSet(m, name, within + {d}) == RecollectSet(m, name, within) + {d};
    } else {
      assert RecollectSet(m, name, within + {d}) == RecollectSet(m, name, within);
    }
  }

  lemma RecollectNone(m: Memory, name: Name)
    ensures RecollectOn(m, name, {}) == m && RecollectSet(m, name, {}) == {}
  {
    assert RecollectOn(m, name, {}).imageState == m.imageState;
  }

  // --------------------------------------------------------------------- tick

  lemma TickNone(m: Memory, now: int)
    ensures TickOn(m, now, {}) == m
  {
    assert TickOn(m, now, {}).imageState == m.imageState;
    assert TickOn(m, now, {}).owners == m.owners;
    assert TickOn(m, now, {}).ownerMeta == m.ownerMeta;
    assert TickChanged(m, now, {}) == {};
  }

  lemma LoadAllMore(m: Memory, stored: seq<Stored>, i: nat)
    requires i < |stored|
    ensures LoadAll(m, stored[..i + 1]) == LoadOne(LoadAll(m, stored[..i]), stored[i])
  {
    assert stored[..i + 1][..i] == stored[..i];
  }

  lemma TickOrphan(m: Memory, now: int, within: set<Dest>, d: Dest)
    requires Orphaned(m, d) && d !in within
    ensures
      var p := TickOn(m, now, within);
      TickOn(m, now, within + {d}) ==
        p.(imageState := p.imageState - {d}, owners := p.owners - {d}, ownerMeta := p.ownerMeta - {d},
           stateDirty := true)
  {
    var p, q := TickOn(m, now, within), TickOn(m, now, within + {d});
    assert q.imageState == p.imageState - {d};
    assert q.owners == p.owners - {d};
    assert q.ownerMeta == p.ownerMeta - {d};
    assert q.mirrored == p.mirrored;
    assert d in TickChanged(m, now, within + {d});
  }

  lemma TickOwnedStep(m: Memory, now: int, within: set<Dest>, d: Dest)
    requires d in m.imageState && !Orphaned(m, d) && d !in within
    ensures
      var p := TickOn(m, now, within);
      var e := TickEntry(m.imageState[d], d in m.mirrored, now, EffectiveMaxRetries(m.maxRetries));
      TickOn(m, now, within + {d}) ==
        p.(imageState := p.imageState[d := e],
           mirrored := if m.imageState[d].state == Mirrored then p.mirrored + {d} else p.mirrored,
           stateDirty := p.stateDirty || e != m.imageState[d])
  {
    TickOwnedEntries(m, now, within, d);
    TickOwnedFlags(m, now, within, d);
    TickChangedMore(m, now, within, d);
  }

  lemma TickOwnedEntries(m: Memory, now: int, within: set<Dest>, d: Dest)
    requires d in m.imageState && !Orphaned(m, d) && d !in within
    ensures
      var e := TickEntry(m.imageState[d], d in m.mirrored, now, EffectiveMaxRetries(m.maxRetries));
      TickOn(m, now, within + {d}).imageState == TickOn(m, now, within).imageState[d := e]
  {
  }

  lemma TickOwnedFlags(m: Memory, now: int, within: set<Dest>, d: Dest)
    requires d in m.imageState && !Orphaned(m, d) && d !in within
    ensures
      var p, q := TickOn(m, now, within), TickOn(m, now, within + {d});
      && q.mirrored == (if m.imageState[d].state == Mirrored then p.mirrored + {d} else p.mirrored)
      && q.owners == p.owners && q.ownerMeta == p.ownerMeta
  {
  }

  lemma TickChangedMore(m: Memory, now: int, within: set<Dest>, d: Dest)
    requires d in m.imageState && !Orphaned(m, d) && d !in within
    ensures
      var e := TickEntry(m.imageState[d], d in m.mirrored, now, EffectiveMaxRetries(m.maxRetries));
      TickChanged(m, now, within + {d}) == TickChanged(m, now, within) + (if e != m.imageState[d] then {d} else {})
  {
  }

  /** Orphans among the destinations reached so far. */
  function OrphansIn(m: Memory, within: set<Dest>): EntryMap
  {
    map d | d in within && Orphaned(m, d) :: m.imageState[d]
  }

  lemma OrphansMore(m: Memory, within: set<Dest>, d: Dest)
    ensures OrphansIn(m, within + {d}) ==
      if Orphaned(m, d) then OrphansIn(m, within)[d := m.imageState[d]] else OrphansIn(m, within)
  {
  }

  /** What the loop still sees of a destination it has not reached. */
  lemma TickUntouched(m: Memory, now: int, within: set<Dest>, d: Dest)
    requires d in m.imageState && d !in within
    ensures
      var p := TickOn(m, now, within);
      && d in p.imageState && p.imageState[d] == m.imageState[d]
      && OwnersOf(p.owners, d) == OwnersOf(m.owners, d) && (d in p.mirrored <==> d in m.mirrored)
      && p.inProgress == m.inProgress && p.maxRetries == m.maxRetries
  {
  }

  // ------------------------------------------------------------ resolve merge

  /** Step 1 of the merge, carried out for the resolved destinations in `added`. */
  function AddOn(m: Memory, resolved: EntryMap, name: Name, added: set<Dest>): Memory
    requires added <= resolved.Keys
  {
    m.(imageState := map d | d in m.imageState.Keys + added ::
         if d in added then MergedEntry(m, resolved, name, d) else m.imageState[d],
       owners := map d | d in m.owners.Keys + added ::
         if d in added then AddOwner(OwnersOf(m.owners, d), name) else m.owners[d])
  }

  lemma AddNone(m: Memory, resolved: EntryMap, name: Name)
    ensures AddOn(m, resolved, name, {}) == m
  {
    assert AddOn(m, resolved, name, {}).imageState == m.imageState;
    assert AddOn(m, resolved, name, {}).owners == m.owners;
  }

  lemma AddMore(m: Memory, resolved: EntryMap, name: Name, added: set<Dest>, d: Dest)
    requires added <= resolved.Keys && d in resolved && d !in added
    ensures
      var p := AddOn(m, resolved, name, added);
      && AddOn(m, resolved, name, added + {d}) ==
         p.(imageState := p.imageState[d := MergedEntry(p, resolved, name, d)],
            owners := p.owners[d := AddOwner(OwnersOf(p.owners, d), name)])
  {
    var p, q := AddOn(m, resolved, name, added), AddOn(m, resolved, name, added + {d});
    assert OwnersOf(p.owners, d) == OwnersOf(m.owners, d);
    assert d in p.imageState <==> d in m.imageState;
    assert MergedEntry(p, resolved, name, d) == MergedEntry(m, resolved, name, d);
    assert q.imageState == p.imageState[d := MergedEntry(p, resolved, name, d)];
    assert q.owners == p.owners[d := AddOwner(OwnersOf(p.owners, d), name)];
  }

  /** removeOwner on a map of owners. */
  function RemoveOwner(owners: map<Dest, seq<Name>>, d: Dest, name: Name): map<Dest, seq<Name>>
  {
    if !HasOwner(owners, d, name) then owners
    else if Without(owners[d], name) == [] then owners - {d}
    else owners[d := Without(owners[d], name)]
  }

  /** Step 2 of the merge, carried out for the destinations in `gone`. */
  function RemoveOn(owners: map<Dest, seq<Name>>, name: Name, gone: set<Dest>): map<Dest, seq<Name>>
  {
    map d | d in owners && !(d in gone && HasOwner(owners, d, name) && Without(owners[d], name) == []) ::
      if d in gone then Without(owners[d], name) else owners[d]
  }

  lemma RemoveNone(owners: map<Dest, seq<Name>>, name: Name)
    ensures RemoveOn(owners, name, {}) == owners
  {
  }

  lemma RemoveMore(owners: map<Dest, seq<Name>>, name: Name, gone: set<Dest>, d: Dest)
    requires d !in gone
    ensures RemoveOn(owners, name, gone + {d}) == RemoveOwner(RemoveOn(owners, name, gone), d, name)
  {
    var p, q := RemoveOn(owners, name, gone), RemoveOn(owners, name, gone + {d});
    WithoutFacts(OwnersOf(owners, d), name);
    assert OwnersOf(p, d) == OwnersOf(owners, d);
    assert q == RemoveOwner(p, d, name);
  }

  /** Both steps together are the merge. */
  lemma MergeSteps(m: Memory, resolved: EntryMap, name: Name)
    ensures
      var p := AddOn(m, resolved, name, resolved.Keys);
      MergeResolved(m, resolved, name) ==
        p.(owners := RemoveOn(p.owners, name, p.imageState.Keys - resolved.Keys))
  {
    var p, q := AddOn(m, resolved, name, resolved.Keys), MergeResolved(m, resolved, name);
    var gone := p.imageState.Keys - resolved.Keys;
    assert q.imageState == p.imageState;
    forall d
      ensures d in q.owners <==> d in RemoveOn(p.owners, name, gone)
      ensures d in q.owners ==> q.owners[d] == RemoveOn(p.owners, name, gone)[d]
    {
      MergeStepsAt(m, resolved, name, d);
    }
    assert q.owners == RemoveOn(p.owners, name, gone);
  }

  lemma MergeStepsAt(m: Memory, resolved: EntryMap, name: Name, d: Dest)
    ensures
      var p, q := AddOn(m, resolved, name, resolved.Keys), MergeResolved(m, resolved, name);
      var r := RemoveOn(p.owners, name, p.imageState.Keys - resolved.Keys);
      (d in q.owners <==> d in r) && (d in q.owners ==> q.owners[d] == r[d])
  {
    WithoutFacts(OwnersOf(m.owners, d), name);
  }

  // -------------------------------------------------------------- owner meta

  /** recordOwnerMetaLocked on one destination's records. */
  function PutMeta(metas: map<Dest, map<Name, SpecMeta>>, d: Dest, rec: map<Name, SpecMeta>): map<Dest, map<Name, SpecMeta>>
  {
    if rec == map[] then metas - {d} else metas[d := rec]
  }

  function RecordOn(m: Memory, name: Name, resolved: EntryMap, within: set<Dest>): map<Dest, map<Name, SpecMeta>>
  {
    map d | d in m.ownerMeta.Keys + within && (d in within ==> RecordedMeta(m, name, resolved, d) != map[])
          :: if d in within then RecordedMeta(m, name, resolved, d) else m.ownerMeta[d]
  }

  lemma RecordNone(m: Memory, name: Name, resolved: EntryMap)
    ensures RecordOn(m, name, resolved, {}) == m.ownerMeta
  {
  }

  lemma RecordMore(m: Memory, name: Name, resolved: EntryMap, within: set<Dest>, d: Dest)
    requires d !in within
    ensures MetaOf(RecordOn(m, name, resolved, within), d) == MetaOf(m.ownerMeta, d)
    ensures RecordOn(m, name, resolved, within + {d}) ==
      PutMeta(RecordOn(m, name, resolved, within), d, RecordedMeta(m, name, resolved, d))
  {
    var p, q := RecordOn(m, name, resolved, within), RecordOn(m, name, resolved, within + {d});
    assert q == PutMeta(p, d, RecordedMeta(m, name, resolved, d));
  }

  lemma RecordDone(m: Memory, name: Name, resolved: EntryMap)
    ensures RecordOn(m, name, resolved, m.ownerMeta.Keys + resolved.Keys) == RecordOwnerMeta(m, name, resolved).ownerMeta
  {
  }

  // -------------------------------------------------------- removed ImageSets

  lemma DropNone(m: Memory, spec: set<Name>)
    ensures DropOn(m, spec, {}) == m
  {
    var p := DropOn(m, spec, {});
    assert p.imageState == m.imageState;
    assert p.owners == m.owners;
    assert p.ownerMeta == m.ownerMeta;
  }

  /** What the loop still sees of a destination it has not reached. */
  lemma DropUntouched(m: Memory, spec: set<Name>, within: set<Dest>, d: Dest)
    requires d in m.owners && d !in within
    ensures
      var p := DropOn(m, spec, within);
      d in p.owners && p.owners[d] == m.owners[d] && MetaOf(p.ownerMeta, d) == MetaOf(m.ownerMeta, d) &&
      (d in p.ownerMeta <==> d in m.ownerMeta)
  {
  }

  lemma DropSame(m: Memory, spec: set<Name>, within: set<Dest>, d: Dest)
    requires d in m.owners && d !in within && KeepNames(m.owners[d], spec) == m.owners[d]
    ensures DropOn(m, spec, within + {d}) == DropOn(m, spec, within)
  {
    var p, q := DropOn(m, spec, within), DropOn(m, spec, within + {d});
    assert Shrunk(m, spec, within + {d}) == Shrunk(m, spec, within);
    assert q.owners == p.owners;
    assert q.ownerMeta == p.ownerMeta;
    assert q.imageState == p.imageState;
  }

  lemma DropOwners(m: Memory, spec: set<Name>, within: set<Dest>, d: Dest)
    requires d in m.owners && d !in within && KeepNames(m.owners[d], spec) != m.owners[d]
    ensures DropOn(m, spec, within + {d}).owners ==
      var names := KeepNames(m.owners[d], spec);
      if names == [] then DropOn(m, spec, within).owners - {d} else DropOn(m, spec, within).owners[d := names]
  {
  }

  lemma DropMetas(m: Memory, spec: set<Name>, within: set<Dest>, d: Dest)
    requires d in m.owners && d !in within && KeepNames(m.owners[d], spec) != m.owners[d]
    ensures DropOn(m, spec, within + {d}).ownerMeta ==
      var metas := DropOn(m, spec, within).ownerMeta;
      if KeepNames(m.owners[d], spec) == [] then metas - {d}
      else if d in m.ownerMeta then PutMeta(metas, d, PrunedMeta(m, spec, d)) else metas
  {
    var a, b := DropOn(m, spec, within).ownerMeta, DropOn(m, spec, within + {d}).ownerMeta;
    forall x | x != d ensures (x in b <==> x in a) && (x in a ==> b[x] == a[x]) { DropMetaOther(m, spec, within, d, x); }
    DropMetaOwn(m, spec, within, d);
    var c := if KeepNames(m.owners[d], spec) == [] then a - {d}
             else if d in m.ownerMeta then PutMeta(a, d, PrunedMeta(m, spec, d)) else a;
    assert b.Keys == c.Keys;
  }

  lemma DropMetaOwn(m: Memory, spec: set<Name>, within: set<Dest>, d: Dest)
    requires d in m.owners && d !in within && KeepNames(m.owners[d], spec) != m.owners[d]
    ensures
      var a, b := DropOn(m, spec, within).ownerMeta, DropOn(m, spec, within + {d}).ownerMeta;
      && (d in a <==> d in m.ownerMeta)
      && (d in b <==> KeepNames(m.owners[d], spec) != [] && d in m.ownerMeta && PrunedMeta(m, spec, d) != map[])
      && (d in b ==> b[d] == PrunedMeta(m, spec, d))
  {
    assert d in Shrunk(m, spec, within + {d}) && d !in Shrunk(m, spec, within);
  }

  lemma DropMetaOther(m: Memory, spec: set<Name>, within: set<Dest>, d: Dest, x: Dest)
    requires x != d
    ensures
      var a, b := DropOn(m, spec, within).ownerMeta, DropOn(m, spec, within + {d}).ownerMeta;
      (x in b <==> x in a) && (x in a ==> b[x] == a[x])
  {
    assert x in Shrunk(m, spec, within + {d}) <==> x in Shrunk(m, spec, within);
  }

  lemma DropEntries(m: Memory, spec: set<Name>, within: set<Dest>, d: Dest)
    requires d in m.owners && d !in within && KeepNames(m.owners[d], spec) != m.owners[d]
    ensures
      var p, q := DropOn(m, spec, within), DropOn(m, spec, within + {d});
      && q.stateDirty
      && (KeepNames(m.owners[d], spec) == [] ==>
            q.imageState == p.imageState - {d} && q.mirrored == p.mirrored - {d})
      && (KeepNames(m.owners[d], spec) != [] ==> q.imageState == p.imageState && q.mirrored == p.mirrored)
  {
    assert d in Shrunk(m, spec, within + {d});
  }

  lemma DropShrink(m: Memory, spec: set<Name>, within: set<Dest>, d: Dest)
    requires d in m.owners && d !in within && KeepNames(m.owners[d], spec) != m.owners[d]
    requires KeepNames(m.owners[d], spec) != []
    ensures
      var p := DropOn(m, spec, within);
      DropOn(m, spec, within + {d}) ==
        p.(owners := p.owners[d := KeepNames(m.owners[d], spec)],
           ownerMeta := if d in m.ownerMeta then PutMeta(p.ownerMeta, d, PrunedMeta(m, spec, d)) else p.ownerMeta,
           stateDirty := true)
  {
    DropOwners(m, spec, within, d);
    DropMetas(m, spec, within, d);
    DropEntries(m, spec, within, d);
  }

  lemma DropLast(m: Memory, spec: set<Name>, within: set<Dest>, d: Dest)
    requires d in m.owners && d !in within && Abandoned(m, spec, d)
    ensures
      var p := DropOn(m, spec, within);
      DropOn(m, spec, within + {d}) ==
        p.(imageState := p.imageState - {d}, owners := p.owners - {d}, ownerMeta := p.ownerMeta - {d},
           mirrored := p.mirrored - {d}, stateDirty := true)
  {
    DropOwners(m, spec, within, d);
    DropMetas(m, spec, within, d);
    DropEntries(m, spec, within, d);
  }

  // -------------------------------------------------------------------- flush

  /** The part of one ImageSet's ConfigMap built from the destinations in `within`. */
  function FlushOn(m: Memory, name: Name, within: set<Dest>): EntryMap
  {
    map d | d in within && d in m.imageState && HasOwner(m.owners, d, name) :: OwnerView(m, d, name)
  }

  lemma FlushMore(m: Memory, name: Name, within: set<Dest>, d: Dest)
    requires d in m.imageState
    ensures FlushOn(m, name, within + {d}) ==
      if HasOwner(m.owners, d, name) then FlushOn(m, name, within)[d := OwnerView(m, d, name)]
      else FlushOn(m, name, within)
  {
  }

  lemma FlushDone(m: Memory, name: Name)
    ensures FlushOn(m, name, m.imageState.Keys) == View(m, name)
  {
  }

  function IndexOn(m: Memory, within: set<Dest>): SharedIndex
  {
    map d | d in within && d in m.imageState && |OwnersOf(m.owners, d)| > 1 :: OwnersOf(m.owners, d)
  }

  lemma IndexMore(m: Memory, within: set<Dest>, d: Dest)
    requires d in m.imageState
    ensures IndexOn(m, within + {d}) ==
      if |OwnersOf(m.owners, d)| > 1 then IndexOn(m, within)[d := OwnersOf(m.owners, d)] else IndexOn(m, within)
  {
  }

  /** The ConfigMaps after those of `names` were written. */
  function Written(m: Memory, store: map<Name, ConfigMap>, names: set<Name>): map<Name, ConfigMap>
  {
    map n | n in store.Keys + names :: if n in names then Flushed(m, n) else store[n]
  }

  lemma WrittenMore(m: Memory, store: map<Name, ConfigMap>, names: set<Name>, n: Name)
    ensures Written(m, store, names + {n}) == Written(m, store, names)[n := Flushed(m, n)]
    ensures Written(m, store, {}) == store
  {
  }

  // --------------------------------------------------------------------- load

  function LoadEntriesOn(m: Memory, s: Stored, within: set<Dest>): EntryMap
    requires within <= s.cm.entries.Keys
  {
    map d | d in m.imageState.Keys + within :: if d in within then LoadedEntry(m, s.cm, d) else m.imageState[d]
  }

  function LoadOwnersOn(owners: map<Dest, seq<Name>>, name: Name, within: set<Dest>): map<Dest, seq<Name>>
  {
    map d | d in owners.Keys + within :: if d in within then AddOwner(OwnersOf(owners, d), name) else owners[d]
  }

  function LoadMetasOn(metas: map<Dest, map<Name, SpecMeta>>, s: Stored, within: set<Dest>): map<Dest, map<Name, SpecMeta>>
    requires within <= s.cm.entries.Keys
  {
    map d | d in metas.Keys + within ::
      if d in within then MetaOf(metas, d)[s.name := s.cm.entries[d].meta] else metas[d]
  }

  /** Loading one ConfigMap, carried out for the entries in `within`. */
  function LoadOn(m: Memory, s: Stored, within: set<Dest>): Memory
    requires within <= s.cm.entries.Keys
  {
    m.(imageState := LoadEntriesOn(m, s, within),
       owners := LoadOwnersOn(m.owners, s.name, within),
       ownerMeta := LoadMetasOn(m.ownerMeta, s, within))
  }

  lemma LoadNone(m: Memory, s: Stored)
    ensures LoadOn(m, s, {}) == m
  {
    assert LoadEntriesOn(m, s, {}) == m.imageState;
    assert LoadOwnersOn(m.owners, s.name, {}) == m.owners;
    assert LoadMetasOn(m.ownerMeta, s, {}) == m.ownerMeta;
  }

  lemma LoadMoreEntries(m: Memory, s: Stored, within: set<Dest>, d: Dest)
    requires within <= s.cm.entries.Keys && d in s.cm.entries && d !in within
    ensures
      var p := LoadEntriesOn(m, s, within);
      LoadEntriesOn(m, s, within + {d}) ==
        p[d := if d in p then MergeLoadedEntry(p[d], s.cm.entries[d]) else s.cm.entries[d]]
  {
  }

  lemma LoadMoreOwners(owners: map<Dest, seq<Name>>, name: Name, within: set<Dest>, d: Dest)
    requires d !in within
    ensures
      var p := LoadOwnersOn(owners, name, within);
      LoadOwnersOn(owners, name, within + {d}) == p[d := AddOwner(OwnersOf(p, d), name)]
  {
    assert OwnersOf(LoadOwnersOn(owners, name, within), d) == OwnersOf(owners, d);
  }

  lemma LoadMoreMetas(metas: map<Dest, map<Name, SpecMeta>>, s: Stored, within: set<Dest>, d: Dest)
    requires within <= s.cm.entries.Keys && d in s.cm.entries && d !in within
    ensures
      var p := LoadMetasOn(metas, s, within);
      LoadMetasOn(metas, s, within + {d}) == p[d := MetaOf(p, d)[s.name := s.cm.entries[d].meta]]
  {
    assert MetaOf(LoadMetasOn(metas, s, within), d) == MetaOf(metas, d);
  }

  lemma LoadMore(m: Memory, s: Stored, within: set<Dest>, d: Dest)
    requires within <= s.cm.entries.Keys && d in s.cm.entries && d !in within
    ensures
      var p := LoadOn(m, s, within);
      LoadOn(m, s, within + {d}) ==
        p.(imageState := p.imageState[d := if d in p.imageState
                                           then MergeLoadedEntry(p.imageState[d], s.cm.entries[d]) else s.cm.entries[d]],
           owners := p.owners[d := AddOwner(OwnersOf(p.owners, d), s.name)],
           ownerMeta := p.ownerMeta[d := MetaOf(p.ownerMeta, d)[s.name := s.cm.entries[d].meta]])
  {
    LoadMoreEntries(m, s, within, d);
    LoadMoreOwners(m.owners, s.name, within, d);
    LoadMoreMetas(m.ownerMeta, s, within, d);
  }

  lemma LoadDone(m: Memory, s: Stored)
    ensures LoadOne(m, s) == LoadOn(m, s, s.cm.entries.Keys).(catalogDigests := LoadOne(m, s).catalogDigests)
  {
    var p, q := LoadOne(m, s), LoadOn(m, s, s.cm.entries.Keys);
    assert p.imageState == q.imageState;
    assert p.owners == q.owners;
    assert p.ownerMeta == q.ownerMeta;
  }
}

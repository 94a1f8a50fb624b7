/** Storing the working set as one ConfigMap per ImageSet and loading it back. */
module Persistence {
  import opened Options
  import opened ImageState
  import opened ManagerModel
  import opened Ownership

  /** What loading reads for one ImageSet: its ConfigMap, and the catalog-digest
      annotations adopted when the ConfigMap predates recorded digests. */
  datatype Stored = Stored(name: Name, cm: ConfigMap, annotations: map<string, string>)

  function DigestsOf(m: Memory, name: Name): map<string, string>
  {
    if name in m.catalogDigests then m.catalogDigests[name] else map[]
  }

  /** The ConfigMap flushPartitionedState writes for one ImageSet. */
  function Flushed(m: Memory, name: Name): ConfigMap
  {
    ConfigMap(View(m, name), DigestsOf(m, name))
  }

  /** The shared-image index it writes. */
  function FlushedIndex(m: Memory): SharedIndex
  {
    map d | d in m.imageState && |OwnersOf(m.owners, d)| > 1 :: OwnersOf(m.owners, d)
  }

  /** countedLocked */
  function Counted(m: Memory, spec: seq<Name>): EntryMap
  {
    map d | d in m.imageState && (exists n :: n in OwnersOf(m.owners, d) && n in spec) :: m.imageState[d]
  }

  // --------------------------------------------------------------------- load

  /** mergeLoadedEntry: the copy that reflects more progress. */
  function MergeLoadedEntry(existing: Entry, incoming: Entry): Entry
  {
    if incoming.state == Mirrored then incoming
    else if existing.state == Mirrored then existing
    else if incoming.retryCount > existing.retryCount then incoming
    else existing
  }

  function LoadedEntry(m: Memory, cm: ConfigMap, d: Dest): Entry
    requires d in m.imageState || d in cm.entries
  {
    if d !in cm.entries then m.imageState[d]
    else if d !in m.imageState then cm.entries[d]
    else MergeLoadedEntry(m.imageState[d], cm.entries[d])
  }

  function LoadOne(m: Memory, s: Stored): Memory
  {
    m.(imageState := map d | d in m.imageState.Keys + s.cm.entries.Keys :: LoadedEntry(m, s.cm, d),
       owners := map d | d in m.owners.Keys + s.cm.entries.Keys ::
         if d in s.cm.entries then AddOwner(OwnersOf(m.owners, d), s.name) else m.owners[d],
       ownerMeta := map d | d in m.ownerMeta.Keys + s.cm.entries.Keys ::
         if d in s.cm.entries then MetaOf(m.ownerMeta, d)[s.name := s.cm.entries[d].meta] else m.ownerMeta[d],
       catalogDigests := m.catalogDigests[s.name :=
         if s.cm.digests == map[] && s.cm.entries != map[] then s.annotations else s.cm.digests])
  }

  function LoadAll(m: Memory, stored: seq<Stored>): Memory
  {
    if stored == [] then m else LoadOne(LoadAll(m, stored[..|stored| - 1]), stored[|stored| - 1])
  }

  /** loadPartitionedState: replaces state, owners, metadata and digests. */
  function Load(m: Memory, stored: seq<Stored>): Memory
  {
    LoadAll(m.(imageState := map[], owners := map[], ownerMeta := map[], catalogDigests := map[]), stored)
  }

  ghost predicate DistinctNames(stored: seq<Stored>)
  {
    forall i, j :: 0 <= i < j < |stored| ==> stored[i].name != stored[j].name
  }

  predicate HasCopy(stored: seq<Stored>, d: Dest, i: int)
  {
    0 <= i < |stored| && d in stored[i].cm.entries
  }

  /** The ConfigMap of stored[i] gives its ImageSet d, with its own metadata. */
  ghost predicate CopyLoaded(m: Memory, s: Stored, d: Dest)
    requires d in s.cm.entries
  {
    && d in m.imageState
    && HasOwner(m.owners, d, s.name)
    && s.name in MetaOf(m.ownerMeta, d)
    && MetaOf(m.ownerMeta, d)[s.name] == s.cm.entries[d].meta
  }

  ghost predicate IsCopy(stored: seq<Stored>, d: Dest, e: Entry)
  {
    exists i :: HasCopy(stored, d, i) && e == stored[i].cm.entries[d]
  }

  ghost predicate IsOwnerIn(stored: seq<Stored>, d: Dest, n: Name)
  {
    exists i :: HasCopy(stored, d, i) && stored[i].name == n
  }

  /** The ConfigMaps present determine, ImageSet by ImageSet, what is owned. */
  ghost predicate LoadedFrom(m: Memory, stored: seq<Stored>)
  {
    && OwnersLive(m)
    && (forall d :: d in m.imageState ==> IsCopy(stored, d, m.imageState[d]))
    && (forall d, i :: HasCopy(stored, d, i) ==> CopyLoaded(m, stored[i], d))
    && (forall d, n :: HasOwner(m.owners, d, n) ==> IsOwnerIn(stored, d, n))
  }

  /** e reflects at least the progress of the copy c. */
  predicate AtLeast(e: Entry, c: Entry)
  {
    e.state == Mirrored || (c.state != Mirrored && c.retryCount <= e.retryCount)
  }

  /** Of diverging copies, Mirrored wins, then the higher retry count. */
  ghost predicate MostProgress(m: Memory, stored: seq<Stored>)
  {
    forall d, i :: HasCopy(stored, d, i) && d in m.imageState ==> AtLeast(m.imageState[d], stored[i].cm.entries[d])
  }

  lemma LoadOneOwners(m: Memory, s: Stored, d: Dest, n: Name)
    ensures HasOwner(LoadOne(m, s).owners, d, n) <==>
      HasOwner(m.owners, d, n) || (n == s.name && d in s.cm.entries)
  {
  }

  lemma LoadOneMeta(m: Memory, s: Stored, d: Dest)
    ensures MetaOf(LoadOne(m, s).ownerMeta, d) ==
      if d in s.cm.entries then MetaOf(m.ownerMeta, d)[s.name := s.cm.entries[d].meta] else MetaOf(m.ownerMeta, d)
  {
  }

  lemma LoadOneLive(m: Memory, s: Stored)
    requires OwnersLive(m)
    ensures OwnersLive(LoadOne(m, s))
  {
    forall d | d in LoadOne(m, s).owners ensures Distinct(LoadOne(m, s).owners[d])
    {
      assert Distinct(OwnersOf(m.owners, d));
    }
  }

  lemma LoadOneCopies(m: Memory, front: seq<Stored>, s: Stored, d: Dest)
    requires d in m.imageState ==> IsCopy(front, d, m.imageState[d])
    requires d in m.imageState || d in s.cm.entries
    ensures IsCopy(front + [s], d, LoadedEntry(m, s.cm, d))
  {
    var all := front + [s];
    if d in s.cm.entries && LoadedEntry(m, s.cm, d) == s.cm.entries[d] {
      assert HasCopy(all, d, |front|);
    } else {
      var i :| HasCopy(front, d, i) && m.imageState[d] == front[i].cm.entries[d];
      assert HasCopy(all, d, i) && all[i] == front[i];
    }
  }

  lemma LoadOneOwned(m: Memory, front: seq<Stored>, s: Stored, d: Dest, i: int)
    requires DistinctNames(front + [s]) && HasCopy(front + [s], d, i)
    requires i < |front| ==> CopyLoaded(m, front[i], d)
    ensures CopyLoaded(LoadOne(m, s), (front + [s])[i], d)
  {
    var all := front + [s];
    LoadOneOwners(m, s, d, all[i].name);
    LoadOneMeta(m, s, d);
    if i < |front| { assert all[i].name != all[|front|].name; }
  }

  lemma LoadOneOwnerIn(m: Memory, front: seq<Stored>, s: Stored, d: Dest, n: Name)
    requires HasOwner(LoadOne(m, s).owners, d, n)
    requires HasOwner(m.owners, d, n) ==> IsOwnerIn(front, d, n)
    ensures IsOwnerIn(front + [s], d, n)
  {
    var all := front + [s];
    LoadOneOwners(m, s, d, n);
    if HasOwner(m.owners, d, n) {
      var i :| HasCopy(front, d, i) && front[i].name == n;
      assert HasCopy(all, d, i) && all[i] == front[i];
    } else {
      assert HasCopy(all, d, |front|);
    }
  }

  lemma LoadOneStep(m: Memory, front: seq<Stored>, s: Stored)
    requires DistinctNames(front + [s]) && LoadedFrom(m, front)
    ensures LoadedFrom(LoadOne(m, s), front + [s])
  {
    var all, m' := front + [s], LoadOne(m, s);
    LoadOneLive(m, s);
    forall d | d in m'.imageState ensures IsCopy(all, d, m'.imageState[d])
    {
      LoadOneCopies(m, front, s, d);
    }
    forall d, i | HasCopy(all, d, i) ensures CopyLoaded(m', all[i], d)
    {
      if i < |front| { assert HasCopy(front, d, i); }
      LoadOneOwned(m, front, s, d, i);
    }
    forall d, n | HasOwner(m'.owners, d, n) ensures IsOwnerIn(all, d, n)
    {
      LoadOneOwnerIn(m, front, s, d, n);
    }
  }

  lemma LoadOneProgressAt(m: Memory, front: seq<Stored>, s: Stored, d: Dest, i: int)
    requires HasCopy(front + [s], d, i)
    requires i < |front| ==> d in m.imageState && AtLeast(m.imageState[d], front[i].cm.entries[d])
    ensures AtLeast(LoadedEntry(m, s.cm, d), (front + [s])[i].cm.entries[d])
  {
  }

  lemma LoadOneProgress(m: Memory, front: seq<Stored>, s: Stored)
    requires LoadedFrom(m, front) && MostProgress(m, front)
    ensures MostProgress(LoadOne(m, s), front + [s])
  {
    forall d, i | HasCopy(front + [s], d, i) && d in LoadOne(m, s).imageState
      ensures AtLeast(LoadOne(m, s).imageState[d], (front + [s])[i].cm.entries[d])
    {
      if i < |front| {
        assert HasCopy(front, d, i);
        assert CopyLoaded(m, front[i], d);
      }
      LoadOneProgressAt(m, front, s, d, i);
    }
  }

  lemma {:induction false} LoadAllFacts(m: Memory, stored: seq<Stored>)
    requires DistinctNames(stored)
    requires m.imageState == map[] && m.owners == map[] && m.ownerMeta == map[]
    ensures LoadedFrom(LoadAll(m, stored), stored) && MostProgress(LoadAll(m, stored), stored)
  {
    if stored != [] {
      var n := |stored| - 1;
      var front := stored[..n];
      assert stored == front + [stored[n]];
      assert DistinctNames(front);
      LoadAllFacts(m, front);
      LoadOneStep(LoadAll(m, front), front, stored[n]);
      LoadOneProgress(LoadAll(m, front), front, stored[n]);
    }
  }

  /** After a crash that left any mixture of old and new ConfigMaps, each
      ImageSet loads its own last-written ownership and metadata, and a
      destination any copy shows Mirrored loads Mirrored. */
  lemma LoadAfterPartialFlush(m: Memory, stored: seq<Stored>)
    requires DistinctNames(stored)
    ensures LoadedFrom(Load(m, stored), stored) && MostProgress(Load(m, stored), stored)
    ensures forall i :: 0 <= i < |stored| ==>
      OwnedMeta(Load(m, stored), stored[i].name) ==
        (map d | d in stored[i].cm.entries :: stored[i].cm.entries[d].meta)
  {
    LoadAllFacts(m.(imageState := map[], owners := map[], ownerMeta := map[], catalogDigests := map[]), stored);
    var m' := Load(m, stored);
    forall i | 0 <= i < |stored|
      ensures OwnedMeta(m', stored[i].name) == (map d | d in stored[i].cm.entries :: stored[i].cm.entries[d].meta)
    {
      LoadedOwnedMeta(m', stored, i);
    }
  }

  lemma LoadedOwnedMeta(m: Memory, stored: seq<Stored>, i: int)
    requires DistinctNames(stored) && LoadedFrom(m, stored) && 0 <= i < |stored|
    ensures OwnedMeta(m, stored[i].name) == (map d | d in stored[i].cm.entries :: stored[i].cm.entries[d].meta)
  {
    forall d
      ensures Owns(m, stored[i].name, d) <==> d in stored[i].cm.entries
      ensures d in stored[i].cm.entries ==>
        Owns(m, stored[i].name, d) && OwnerView(m, d, stored[i].name).meta == stored[i].cm.entries[d].meta
    {
      if Owns(m, stored[i].name, d) {
        assert IsOwnerIn(stored, d, stored[i].name);
      }
      if d in stored[i].cm.entries {
        assert HasCopy(stored, d, i);
        assert CopyLoaded(m, stored[i], d);
      }
    }
    OwnedMetaIs(m, stored[i].name, map d | d in stored[i].cm.entries :: stored[i].cm.entries[d].meta);
  }

  // --------------------------------------------------------------- round trip

  /** stored is what a complete flush of m leaves for the names it lists. */
  ghost predicate CompleteFlush(m: Memory, stored: seq<Stored>)
  {
    && DistinctNames(stored)
    && (forall i :: 0 <= i < |stored| ==> stored[i].cm == Flushed(m, stored[i].name))
  }

  /** All copies a complete flush wrote agree up to metadata. */
  lemma FlushedCopy(m: Memory, stored: seq<Stored>, d: Dest, e: Entry)
    requires CompleteFlush(m, stored) && IsCopy(stored, d, e)
    ensures d in m.imageState && e == m.imageState[d].(meta := e.meta)
  {
    var j :| HasCopy(stored, d, j) && e == stored[j].cm.entries[d];
    assert e == OwnerView(m, d, stored[j].name);
  }

  lemma RoundTripAt(m: Memory, m': Memory, stored: seq<Stored>, i: int, d: Dest)
    requires CompleteFlush(m, stored) && LoadedFrom(m', stored) && 0 <= i < |stored|
    requires d in stored[i].cm.entries
    ensures d in View(m', stored[i].name) && View(m', stored[i].name)[d] == stored[i].cm.entries[d]
  {
    assert HasCopy(stored, d, i);
    assert CopyLoaded(m', stored[i], d);
    FlushedCopy(m, stored, d, m'.imageState[d]);
    FlushedCopy(m, stored, d, stored[i].cm.entries[d]);
    assert OwnerView(m', d, stored[i].name) == m'.imageState[d].(meta := stored[i].cm.entries[d].meta);
  }

  lemma RoundTripOnly(m': Memory, stored: seq<Stored>, i: int, d: Dest)
    requires DistinctNames(stored) && LoadedFrom(m', stored) && 0 <= i < |stored|
    requires d in View(m', stored[i].name)
    ensures d in stored[i].cm.entries
  {
    assert IsOwnerIn(stored, d, stored[i].name);
  }

  lemma SameMap(a: EntryMap, b: EntryMap)
    requires forall d :: d in b ==> d in a && a[d] == b[d]
    requires forall d :: d in a ==> d in b
    ensures a == b
  {
  }

  lemma RoundTripView(m: Memory, m': Memory, stored: seq<Stored>, i: int)
    requires CompleteFlush(m, stored) && LoadedFrom(m', stored) && 0 <= i < |stored|
    ensures View(m', stored[i].name) == stored[i].cm.entries
  {
    var after, before := View(m', stored[i].name), stored[i].cm.entries;
    assert forall d :: d in before ==> d in after && after[d] == before[d] by {
      forall d | d in before ensures d in after && after[d] == before[d]
      {
        RoundTripAt(m, m', stored, i, d);
      }
    }
    assert forall d :: d in after ==> d in before by {
      forall d | d in after ensures d in before
      {
        RoundTripOnly(m', stored, i, d);
      }
    }
    SameMap(after, before);
  }

  /** After a complete flush, loading restores every ImageSet's view exactly:
      ownership, lifecycle and its own metadata. */
  lemma FlushLoadRoundTrip(m: Memory, stored: seq<Stored>, i: int)
    requires CompleteFlush(m, stored) && 0 <= i < |stored|
    ensures View(Load(FRESH, stored), stored[i].name) == View(m, stored[i].name)
  {
    LoadAfterPartialFlush(FRESH, stored);
    RoundTripView(m, Load(FRESH, stored), stored, i);
  }

  lemma LoadOneDigests(m: Memory, s: Stored, name: Name)
    ensures DigestsOf(LoadOne(m, s), name) ==
      if s.name != name then DigestsOf(m, name)
      else if s.cm.digests == map[] && s.cm.entries != map[] then s.annotations else s.cm.digests
  {
  }

  lemma {:induction false} DigestsLoaded(m: Memory, stored: seq<Stored>, i: nat)
    requires DistinctNames(stored) && i < |stored|
    ensures DigestsOf(LoadAll(m, stored), stored[i].name) ==
      if stored[i].cm.digests == map[] && stored[i].cm.entries != map[] then stored[i].annotations
      else stored[i].cm.digests
  {
    var n := |stored| - 1;
    LoadOneDigests(LoadAll(m, stored[..n]), stored[n], stored[i].name);
    if i < n {
      DigestsLoaded(m, stored[..n], i);
      assert stored[..n][i] == stored[i] && stored[n].name != stored[i].name;
    }
  }

  /** ... and the catalog digests its entries were resolved from; only entries
      without any recorded digest adopt the annotations. */
  lemma FlushLoadDigests(m: Memory, stored: seq<Stored>, i: nat)
    requires CompleteFlush(m, stored) && i < |stored|
    ensures
      var name := stored[i].name;
      DigestsOf(Load(FRESH, stored), name) ==
        if DigestsOf(m, name) == map[] && View(m, name) != map[] then stored[i].annotations else DigestsOf(m, name)
  {
    DigestsLoaded(FRESH.(imageState := map[], owners := map[], ownerMeta := map[], catalogDigests := map[]), stored, i);
  }

  /** ... and the shared index is exactly the destinations with several owners. */
  lemma FlushedIndexExact(m: Memory, d: Dest)
    requires OwnersLive(m)
    ensures IsShared(FlushedIndex(m), d) <==>
      exists a, b :: a != b && Owns(m, a, d) && Owns(m, b, d)
    ensures d in FlushedIndex(m) ==> IsShared(FlushedIndex(m), d)
  {
    var names := OwnersOf(m.owners, d);
    if IsShared(FlushedIndex(m), d) {
      assert names[0] != names[1];
      assert Owns(m, names[0], d) && Owns(m, names[1], d);
    }
    if a, b :| a != b && Owns(m, a, d) && Owns(m, b, d) {
      var i :| 0 <= i < |names| && names[i] == a;
      var j :| 0 <= j < |names| && names[j] == b;
    }
  }

  // ------------------------------------------------------------------ summary

  /** The controller's slow path: all ConfigMaps merged by destination. */
  function MergedStates(stored: seq<Stored>): EntryMap
  {
    if stored == [] then map[] else MergedStates(stored[..|stored| - 1]) + stored[|stored| - 1].cm.entries
  }

  lemma {:induction false} MergedStatesFacts(stored: seq<Stored>, d: Dest)
    ensures d in MergedStates(stored) <==> exists i :: HasCopy(stored, d, i)
    ensures d in MergedStates(stored) ==>
      exists i :: HasCopy(stored, d, i) && MergedStates(stored)[d] == stored[i].cm.entries[d]
  {
    if stored != [] {
      var n := |stored| - 1;
      var front := stored[..n];
      MergedStatesFacts(front, d);
      if d in stored[n].cm.entries {
        assert HasCopy(stored, d, n);
      } else if d in MergedStates(front) {
        var i :| HasCopy(front, d, i) && MergedStates(front)[d] == front[i].cm.entries[d];
        assert HasCopy(stored, d, i) && stored[i] == front[i];
      }
      if i :| HasCopy(stored, d, i) {
        if i < n { assert HasCopy(front, d, i); }
      }
    }
  }

  lemma CountsSame(a: EntryMap, b: EntryMap)
    requires a.Keys == b.Keys && forall d :: d in a ==> KindOf(a[d]) == KindOf(b[d])
    ensures CountsOf(a) == CountsOf(b)
  {
    forall k ensures OfKind(a, a.Keys, k) == OfKind(b, b.Keys, k)
    {
    }
    assert |a| == |a.Keys| && |b| == |b.Keys|;
  }

  lemma CountedIff(m: Memory, stored: seq<Stored>, spec: seq<Name>, d: Dest)
    requires CompleteFlush(m, stored)
    requires forall n :: n in spec <==> exists i :: 0 <= i < |stored| && stored[i].name == n
    ensures d in Counted(m, spec) <==> exists i :: HasCopy(stored, d, i)
  {
    if d in Counted(m, spec) {
      var n :| n in OwnersOf(m.owners, d) && n in spec;
      var i :| 0 <= i < |stored| && stored[i].name == n;
      assert HasCopy(stored, d, i);
    }
    if i :| HasCopy(stored, d, i) {
      assert stored[i].name in OwnersOf(m.owners, d) && stored[i].name in spec;
    }
  }

  /** After a complete flush the manager's stored counts equal what the
      controller recomputes from all ConfigMaps, whatever the sharing. */
  lemma SummaryRefinesRecomputation(m: Memory, stored: seq<Stored>, spec: seq<Name>)
    requires CompleteFlush(m, stored)
    requires forall n :: n in spec <==> exists i :: 0 <= i < |stored| && stored[i].name == n
    ensures CountsOf(Counted(m, spec)) == CountsOf(MergedStates(stored))
  {
    var counted, merged := Counted(m, spec), MergedStates(stored);
    forall d
      ensures d in counted <==> d in merged
      ensures d in merged ==> d in counted && KindOf(counted[d]) == KindOf(merged[d])
    {
      SummaryAt(m, stored, spec, d);
    }
    CountsSame(counted, merged);
  }

  lemma SummaryAt(m: Memory, stored: seq<Stored>, spec: seq<Name>, d: Dest)
    requires CompleteFlush(m, stored)
    requires forall n :: n in spec <==> exists i :: 0 <= i < |stored| && stored[i].name == n
    ensures d in Counted(m, spec) <==> d in MergedStates(stored)
    ensures d in MergedStates(stored) ==>
      d in Counted(m, spec) && KindOf(Counted(m, spec)[d]) == KindOf(MergedStates(stored)[d])
  {
    MergedStatesFacts(stored, d);
    CountedIff(m, stored, spec, d);
  }
}

/** The upgrade graph of one operator channel: choosing the channel head,
    repairing the graph across dropped entries and merging several heads.
    An entry is the head of its channel when no entry replaces or skips it. */
module Channels {
  import opened Text

  datatype ChannelEntry =
    ChannelEntry(name: string, replacing: string, skips: seq<string>, skipRange: string)

  /** Version precedence of the bundles whose olm.package version parses. Only
      the order of the ranks matters. */
  type Versions = map<string, int>

  // ---------------------------------------------------------------- graph

  /** Index by name; a later entry of the same name wins. */
  function EntryByName(entries: seq<ChannelEntry>): map<string, ChannelEntry>
  {
    if entries == [] then map[] else
      var last := entries[|entries| - 1];
      EntryByName(entries[..|entries| - 1])[last.name := last]
  }

  function Names(entries: seq<ChannelEntry>): set<string>
  {
    set e | e in entries :: e.name
  }

  ghost predicate UniqueNames(entries: seq<ChannelEntry>)
  {
    forall i, j :: 0 <= i < j < |entries| ==> entries[i].name != entries[j].name
  }

  /** The name that x replaces, "" when there is none. */
  function Next(idx: map<string, ChannelEntry>, x: string): string
  {
    if x != "" && x in idx then idx[x].replacing else ""
  }

  /** The name reached from x after n replaces steps, "" once the chain ended. */
  function Orbit(idx: map<string, ChannelEntry>, x: string, n: nat): string
  {
    if n == 0 then x else Next(idx, Orbit(idx, x, n - 1))
  }

  /** A cluster on b can upgrade to a along the replaces chain. */
  ghost predicate Reaches(idx: map<string, ChannelEntry>, a: string, b: string)
  {
    exists n: nat :: n >= 1 && Orbit(idx, a, n) == b
  }

  function Superseded(entries: seq<ChannelEntry>): set<string>
  {
    (set e | e in entries && e.replacing != "" :: e.replacing) +
    (set e, s | e in entries && s in e.skips :: s)
  }

  ghost function HeadNames(entries: seq<ChannelEntry>): set<string>
  {
    Names(entries) - Superseded(entries)
  }

  /** Names of the unsuperseded entries in channel order. */
  function Heads(entries: seq<ChannelEntry>, superseded: set<string>): seq<string>
  {
    if entries == [] then [] else
      var last := entries[|entries| - 1];
      Heads(entries[..|entries| - 1], superseded) +
      (if last.name in superseded then [] else [last.name])
  }

  function KeptEntries(entries: seq<ChannelEntry>, kept: set<string>): seq<ChannelEntry>
  {
    if entries == [] then [] else
      var last := entries[|entries| - 1];
      KeptEntries(entries[..|entries| - 1], kept) +
      (if last.name in kept then [last] else [])
  }

  // ------------------------------------------------------------- index facts

  lemma {:induction false} EntryByNameFacts(entries: seq<ChannelEntry>)
    ensures EntryByName(entries).Keys == Names(entries)
    ensures forall x :: x in EntryByName(entries) ==>
      EntryByName(entries)[x] in entries && EntryByName(entries)[x].name == x
    ensures UniqueNames(entries) ==>
      forall e :: e in entries ==> EntryByName(entries)[e.name] == e
  {
    if entries != [] {
      var n := |entries| - 1;
      var front := entries[..n];
      EntryByNameFacts(front);
      assert entries == front + [entries[n]];
      assert Names(entries) == Names(front) + {entries[n].name};
      if UniqueNames(entries) {
        assert UniqueNames(front);
        forall e | e in entries
          ensures EntryByName(entries)[e.name] == e
        {
          var i :| 0 <= i < |entries| && entries[i] == e;
          if i < n { assert front[i] == e; }
        }
      }
    }
  }

  lemma {:induction false} NothingSelected(entries: seq<ChannelEntry>)
    ensures KeptEntries(entries, {}) == []
  {
    if entries != [] {
      NothingSelected(entries[..|entries| - 1]);
    }
  }

  lemma {:induction false} KeptEntriesFacts(entries: seq<ChannelEntry>, kept: set<string>)
    ensures forall e :: e in KeptEntries(entries, kept) <==> e in entries && e.name in kept
    ensures UniqueNames(entries) ==> UniqueNames(KeptEntries(entries, kept))
  {
    if entries != [] {
      var n := |entries| - 1;
      var front := entries[..n];
      KeptEntriesFacts(front, kept);
      assert entries == front + [entries[n]];
      if UniqueNames(entries) {
        assert UniqueNames(front);
        var ks := KeptEntries(front, kept);
        forall i | 0 <= i < |ks| && entries[n].name in kept
          ensures ks[i].name != entries[n].name
        {
          assert ks[i] in front;
          var j :| 0 <= j < |front| && front[j] == ks[i];
          assert entries[j].name != entries[n].name;
        }
      }
    }
  }

  lemma {:induction false} HeadsFacts(entries: seq<ChannelEntry>, superseded: set<string>)
    ensures forall x :: x in Heads(entries, superseded) <==>
      x in Names(entries) && x !in superseded
  {
    if entries != [] {
      var n := |entries| - 1;
      HeadsFacts(entries[..n], superseded);
      assert entries == entries[..n] + [entries[n]];
      assert Names(entries) == Names(entries[..n]) + {entries[n].name};
    }
  }

  // ------------------------------------------------------------- orbit facts

  /** x is one of the first n names of the chain from r. */
  ghost predicate AmongFirst(idx: map<string, ChannelEntry>, r: string, n: nat, x: string)
  {
    exists k: nat :: k < n && x == Orbit(idx, r, k)
  }

  lemma {:induction false} OrbitAdd(idx: map<string, ChannelEntry>, x: string, m: nat, n: nat)
    ensures Orbit(idx, Orbit(idx, x, m), n) == Orbit(idx, x, m + n)
  {
    if n > 0 { OrbitAdd(idx, x, m, n - 1); }
  }

  lemma {:induction false} OrbitEnds(idx: map<string, ChannelEntry>, x: string, m: nat, n: nat)
    requires m <= n && Orbit(idx, x, m) == ""
    ensures Orbit(idx, x, n) == ""
  {
    if m < n { OrbitEnds(idx, x, m, n - 1); }
  }

  /** Once the chain comes back to an earlier name it never leaves those names. */
  lemma {:induction false} OrbitCycle(idx: map<string, ChannelEntry>, x: string, j: nat, n: nat, m: nat)
    requires j < n && Orbit(idx, x, n) == Orbit(idx, x, j)
    ensures AmongFirst(idx, x, n, Orbit(idx, x, m))
    decreases m
  {
    if m >= n {
      OrbitCycle(idx, x, j, n, m - (n - j));
      OrbitAdd(idx, x, n, m - n);
      OrbitAdd(idx, x, j, m - n);
    }
  }

  // ------------------------------------------------------------------ repair

  /** The first n + 1 names of the chain starting at r are all dropped names. */
  ghost predicate DroppedTo(idx: map<string, ChannelEntry>, kept: set<string>, r: string, n: nat)
  {
    forall k: nat :: k <= n ==> Orbit(idx, r, k) != "" && Orbit(idx, r, k) !in kept
  }

  /** x is dropped and met on the chain from r before any kept name. */
  ghost predicate Passed(idx: map<string, ChannelEntry>, kept: set<string>, r: string, x: string)
  {
    exists n: nat :: Orbit(idx, r, n) == x && DroppedTo(idx, kept, r, n)
  }

  /** c is the first kept name on the chain from r. */
  ghost predicate NearestKept(idx: map<string, ChannelEntry>, kept: set<string>, r: string, c: string)
  {
    c != "" && c in kept &&
    exists n: nat :: Orbit(idx, r, n) == c && (n > 0 ==> DroppedTo(idx, kept, r, n - 1))
  }

  /** What repairing one kept entry e must give: the nearest kept ancestor
      becomes Replaces and exactly the dropped names in between join Skips. */
  ghost predicate RepairedEntry(idx: map<string, ChannelEntry>, kept: set<string>,
                                e: ChannelEntry, ne: ChannelEntry)
  {
    if e.replacing == "" || e.replacing in kept then ne == e else
      && ne.name == e.name && ne.skipRange == e.skipRange
      && (ne.replacing != "" ==>
            ne.replacing != e.name && NearestKept(idx, kept, e.replacing, ne.replacing))
      && (ne.replacing == "" ==>
            forall c :: NearestKept(idx, kept, e.replacing, c) ==> c == e.name)
      && e.skips <= ne.skips
      && (forall x :: x in ne.skips <==> x in e.skips || Passed(idx, kept, e.replacing, x))
      && (forall i, j :: 0 <= i < j < |ne.skips| && |e.skips| <= j ==> ne.skips[i] != ne.skips[j])
  }

  ghost predicate Repaired(original: seq<ChannelEntry>, kept: set<string>, result: seq<ChannelEntry>)
  {
    var idx, ks := EntryByName(original), KeptEntries(original, kept);
    |result| == |ks| &&
    forall i :: 0 <= i < |ks| ==> RepairedEntry(idx, kept, ks[i], result[i])
  }

  /** Why the walk may stop: no later name of the chain is a kept one. */
  lemma WalkStops(idx: map<string, ChannelEntry>, kept: set<string>, r: string, n: nat, self: string)
    requires n > 0 ==> DroppedTo(idx, kept, r, n - 1)
    requires self in kept
    requires
      var cur := Orbit(idx, r, n);
      cur == "" || cur == self || AmongFirst(idx, r, n, cur)
    ensures forall c :: NearestKept(idx, kept, r, c) ==> c == self
    ensures forall x :: Passed(idx, kept, r, x) ==> AmongFirst(idx, r, n, x)
  {
    var cur := Orbit(idx, r, n);
    forall m: nat
      ensures m >= n ==> Orbit(idx, r, m) == "" || Orbit(idx, r, n) == self
                         || AmongFirst(idx, r, n, Orbit(idx, r, m))
    {
      if m >= n && cur != self {
        if cur == "" {
          OrbitEnds(idx, r, n, m);
        } else {
          var j: nat :| j < n && cur == Orbit(idx, r, j);
          OrbitCycle(idx, r, j, n, m);
        }
      }
    }
    forall c | NearestKept(idx, kept, r, c) ensures c == self
    {
      var m: nat :| Orbit(idx, r, m) == c && (m > 0 ==> DroppedTo(idx, kept, r, m - 1));
    }
    forall x | Passed(idx, kept, r, x)
      ensures AmongFirst(idx, r, n, x)
    {
      var m: nat :| Orbit(idx, r, m) == x && DroppedTo(idx, kept, r, m);
    }
  }

  /** Why the walk may stop at a kept name: it is the nearest one. */
  lemma WalkFinds(idx: map<string, ChannelEntry>, kept: set<string>, r: string, n: nat)
    requires n > 0 ==> DroppedTo(idx, kept, r, n - 1)
    requires Orbit(idx, r, n) != "" && Orbit(idx, r, n) in kept
    ensures NearestKept(idx, kept, r, Orbit(idx, r, n))
    ensures forall x :: Passed(idx, kept, r, x) ==> AmongFirst(idx, r, n, x)
  {
    forall x | Passed(idx, kept, r, x)
      ensures AmongFirst(idx, r, n, x)
    {
      var m: nat :| Orbit(idx, r, m) == x && DroppedTo(idx, kept, r, m);
    }
  }

  lemma WalkPassed(idx: map<string, ChannelEntry>, kept: set<string>, r: string, n: nat)
    requires n > 0 ==> DroppedTo(idx, kept, r, n - 1)
    ensures forall k: nat :: k < n ==> Passed(idx, kept, r, Orbit(idx, r, k))
  {
    forall k: nat | k < n ensures Passed(idx, kept, r, Orbit(idx, r, k))
    {
      assert DroppedTo(idx, kept, r, k);
    }
  }

  /** The first n names of the chain from r. */
  ghost function FirstNames(idx: map<string, ChannelEntry>, r: string, n: nat): set<string>
  {
    if n == 0 then {} else FirstNames(idx, r, n - 1) + {Orbit(idx, r, n - 1)}
  }

  lemma {:induction false} FirstNamesAre(idx: map<string, ChannelEntry>, r: string, n: nat, x: string)
    ensures x in FirstNames(idx, r, n) <==> AmongFirst(idx, r, n, x)
  {
    if n > 0 {
      FirstNamesAre(idx, r, n - 1, x);
    }
  }

  /** skips is base with the names that were missing appended, each once. */
  ghost predicate Added(base: seq<string>, skips: seq<string>, names: set<string>)
  {
    && base <= skips
    && (forall x :: x in skips <==> x in base || x in names)
    && (forall i, j :: 0 <= i < j < |skips| && |base| <= j ==> skips[i] != skips[j])
  }

  lemma AddedMore(base: seq<string>, skips: seq<string>, names: set<string>, x: string)
    requires Added(base, skips, names)
    ensures Added(base, if x in skips then skips else skips + [x], names + {x})
  {
  }

  /** After n steps of the walk from e: all names so far were dropped, and they
      are what was visited and what was added to the skips. */
  ghost predicate Walked(idx: map<string, ChannelEntry>, kept: set<string>, e: ChannelEntry, n: nat,
                         visited: set<string>, skips: seq<string>)
  {
    && (n > 0 ==> DroppedTo(idx, kept, e.replacing, n - 1))
    && visited == {e.name} + FirstNames(idx, e.replacing, n)
    && Added(e.skips, skips, FirstNames(idx, e.replacing, n))
  }

  lemma WalkedMore(idx: map<string, ChannelEntry>, kept: set<string>, e: ChannelEntry, n: nat,
                   visited: set<string>, skips: seq<string>)
    requires Walked(idx, kept, e, n, visited, skips)
    requires Orbit(idx, e.replacing, n) != "" && Orbit(idx, e.replacing, n) !in kept
    ensures
      var cur := Orbit(idx, e.replacing, n);
      Walked(idx, kept, e, n + 1, visited + {cur}, if cur in skips then skips else skips + [cur])
  {
    AddedMore(e.skips, skips, FirstNames(idx, e.replacing, n), Orbit(idx, e.replacing, n));
    DroppedMore(idx, kept, e.replacing, n);
    FirstNamesMore(idx, e.replacing, n);
  }

  lemma FirstNamesMore(idx: map<string, ChannelEntry>, r: string, n: nat)
    ensures FirstNames(idx, r, n + 1) == FirstNames(idx, r, n) + {Orbit(idx, r, n)}
  {
  }

  lemma DroppedMore(idx: map<string, ChannelEntry>, kept: set<string>, r: string, n: nat)
    requires n > 0 ==> DroppedTo(idx, kept, r, n - 1)
    requires Orbit(idx, r, n) != "" && Orbit(idx, r, n) !in kept
    ensures DroppedTo(idx, kept, r, n)
  {
  }

  /** What the walk has found when it ends after n steps: a kept name, or none. */
  lemma WalkResult(idx: map<string, ChannelEntry>, kept: set<string>, e: ChannelEntry, n: nat,
                   visited: set<string>, skips: seq<string>, found: string)
    requires e.name in kept && e.replacing != "" && e.replacing !in kept
    requires Walked(idx, kept, e, n, visited, skips)
    requires
      var cur := Orbit(idx, e.replacing, n);
      if found != "" then found == cur && cur in kept && cur !in visited else cur == "" || cur in visited
    ensures RepairedEntry(idx, kept, e, ChannelEntry(e.name, found, skips, e.skipRange))
  {
    var r := e.replacing;
    forall x ensures x in FirstNames(idx, r, n) <==> AmongFirst(idx, r, n, x) { FirstNamesAre(idx, r, n, x); }
    if found != "" {
      WalkFinds(idx, kept, r, n);
    } else {
      WalkStops(idx, kept, r, n, e.name);
    }
    WalkPassed(idx, kept, r, n);
    forall x ensures x in FirstNames(idx, r, n) <==> Passed(idx, kept, r, x)
    {
    }
  }

  /** Walks the original replaces chain from e until the nearest kept ancestor. */
  method RepairEntry(idx: map<string, ChannelEntry>, kept: set<string>, e: ChannelEntry)
    returns (ne: ChannelEntry)
    requires e.name in kept
    ensures RepairedEntry(idx, kept, e, ne)
  {
    if e.replacing == "" || e.replacing in kept {
      return e;
    }
    ghost var n: nat := 0;
    ghost var universe := {e.name, e.replacing} + (set x | x in idx :: idx[x].replacing);
    var skips := e.skips;
    var visited := {e.name};
    var cur := e.replacing;
    var newReplaces := "";
    while cur != "" && cur !in visited
      invariant cur == Orbit(idx, e.replacing, n)
      invariant visited <= universe && (cur == "" || cur in universe)
      invariant Walked(idx, kept, e, n, visited, skips)
      invariant newReplaces == ""
      decreases universe - visited
    {
      if cur in kept {
        newReplaces := cur;
        break;
      }
      WalkedMore(idx, kept, e, n, visited, skips);
      n := n + 1;
      visited := visited + {cur};
      if cur !in skips {
        skips := skips + [cur];
      }
      if cur !in idx {
        cur := "";
        break;
      }
      cur := idx[cur].replacing;
    }
    WalkResult(idx, kept, e, n, visited, skips, newReplaces);
    ne := ChannelEntry(e.name, newReplaces, skips, e.skipRange);
  }

  method IndexEntries(entries: seq<ChannelEntry>) returns (entryByName: map<string, ChannelEntry>)
    ensures entryByName == EntryByName(entries)
  {
    entryByName := map[];
    for i := 0 to |entries|
      invariant entryByName == EntryByName(entries[..i])
    {
      assert entries[..i + 1][..i] == entries[..i];
      entryByName := entryByName[entries[i].name := entries[i]];
    }
    assert entries[..|entries|] == entries;
  }

  method RepairChannelGraph(original: seq<ChannelEntry>, kept: set<string>)
    returns (result: seq<ChannelEntry>)
    ensures Repaired(original, kept, result)
  {
    var entryByName := IndexEntries(original);
    assert original[..|original|] == original;
    result := [];
    ghost var ks: seq<ChannelEntry> := [];
    for i := 0 to |original|
      invariant ks == KeptEntries(original[..i], kept)
      invariant |result| == |ks|
      invariant forall k :: 0 <= k < |ks| ==> RepairedEntry(entryByName, kept, ks[k], result[k])
    {
      assert original[..i + 1][..i] == original[..i];
      if original[i].name in kept {
        var ne := RepairEntry(entryByName, kept, original[i]);
        result := result + [ne];
        ks := ks + [original[i]];
      }
    }
  }

  // ------------------------------------------- repair preserves upgrades

  /** Each repaired entry, looked up by name, is the repair of the original one. */
  lemma RepairedIndex(original: seq<ChannelEntry>, kept: set<string>, result: seq<ChannelEntry>)
    requires UniqueNames(original) && Repaired(original, kept, result)
    ensures UniqueNames(result)
    ensures EntryByName(result).Keys == Names(original) * kept
    ensures forall a :: a in EntryByName(result) ==>
      a in EntryByName(original) &&
      RepairedEntry(EntryByName(original), kept, EntryByName(original)[a], EntryByName(result)[a])
  {
    var idx, ks := EntryByName(original), KeptEntries(original, kept);
    EntryByNameFacts(original);
    KeptEntriesFacts(original, kept);
    assert forall i :: 0 <= i < |ks| ==> result[i].name == ks[i].name;
    EntryByNameFacts(result);
    forall a ensures a in Names(result) <==> a in Names(original) * kept
    {
      if a in Names(result) {
        var i :| 0 <= i < |result| && result[i].name == a;
        assert ks[i] in ks;
      }
      if a in Names(original) * kept {
        assert idx[a] in ks;
        var i :| 0 <= i < |ks| && ks[i] == idx[a];
        assert result[i].name == a;
      }
    }
    forall a | a in EntryByName(result)
      ensures a in idx && RepairedEntry(idx, kept, idx[a], EntryByName(result)[a])
    {
      var i :| 0 <= i < |result| && result[i] == EntryByName(result)[a];
      assert ks[i] in ks && ks[i].name == a;
    }
  }

  /** One replaces step of the repaired graph is one or more original steps. */
  lemma RepairedStep(original: seq<ChannelEntry>, kept: set<string>, result: seq<ChannelEntry>,
                     a: string)
    requires UniqueNames(original) && Repaired(original, kept, result)
    requires a != "" && Next(EntryByName(result), a) != ""
    ensures Reaches(EntryByName(original), a, Next(EntryByName(result), a))
  {
    RepairedIndex(original, kept, result);
    var idx := EntryByName(original);
    var r, c := idx[a].replacing, EntryByName(result)[a].replacing;
    assert Orbit(idx, a, 1) == Next(idx, Orbit(idx, a, 0)) == r;
    if r != c {
      assert NearestKept(idx, kept, r, c);
      var n: nat :| Orbit(idx, r, n) == c && (n > 0 ==> DroppedTo(idx, kept, r, n - 1));
      OrbitAdd(idx, a, 1, n);
    }
  }

  lemma {:induction false} RepairedReachesBack(original: seq<ChannelEntry>, kept: set<string>,
                                               result: seq<ChannelEntry>, a: string, b: string, n: nat)
    requires UniqueNames(original) && Repaired(original, kept, result)
    requires a != "" && b != "" && n >= 1 && Orbit(EntryByName(result), a, n) == b
    ensures Reaches(EntryByName(original), a, b)
    decreases n
  {
    var idx, idx' := EntryByName(original), EntryByName(result);
    var p := Orbit(idx', a, n - 1);
    RepairedStep(original, kept, result, p);
    var m: nat :| m >= 1 && Orbit(idx, p, m) == b;
    if n > 1 {
      RepairedReachesBack(original, kept, result, a, p, n - 1);
      var k: nat :| k >= 1 && Orbit(idx, a, k) == p;
      OrbitAdd(idx, a, k, m);
    }
  }

  /** The first kept name among the next n names of the chain from r. */
  lemma {:induction false} FirstKept(idx: map<string, ChannelEntry>, kept: set<string>, r: string, n: nat)
    returns (m: nat)
    requires Orbit(idx, r, n) in kept && Orbit(idx, r, n) != ""
    ensures m <= n && NearestKept(idx, kept, r, Orbit(idx, r, m))
    decreases n
  {
    if exists k: nat :: k < n && Orbit(idx, r, k) in kept {
      var k: nat :| k < n && Orbit(idx, r, k) in kept;
      if Orbit(idx, r, k) == "" { OrbitEnds(idx, r, k, n); }
      m := FirstKept(idx, kept, r, k);
    } else {
      m := n;
      forall k: nat | k < n ensures Orbit(idx, r, k) != ""
      {
        if Orbit(idx, r, k) == "" { OrbitEnds(idx, r, k, n); }
      }
    }
  }

  lemma NearestKeptUnique(idx: map<string, ChannelEntry>, kept: set<string>, r: string, c: string, d: string)
    requires NearestKept(idx, kept, r, c) && NearestKept(idx, kept, r, d)
    ensures c == d
  {
    var m: nat :| Orbit(idx, r, m) == c && (m > 0 ==> DroppedTo(idx, kept, r, m - 1));
    var n: nat :| Orbit(idx, r, n) == d && (n > 0 ==> DroppedTo(idx, kept, r, n - 1));
  }

  /** The repaired entry of a replaces the nearest kept name on a's chain. */
  lemma RepairedNext(original: seq<ChannelEntry>, kept: set<string>, result: seq<ChannelEntry>,
                     a: string, c: string)
    requires UniqueNames(original) && Repaired(original, kept, result)
    requires a in kept && a != "" && a != c
    requires NearestKept(EntryByName(original), kept, Next(EntryByName(original), a), c)
    requires Next(EntryByName(original), a) != ""
    ensures Next(EntryByName(result), a) == c
  {
    var idx := EntryByName(original);
    RepairedIndex(original, kept, result);
    EntryByNameFacts(original);
    var r, ne := Next(idx, a), EntryByName(result)[a];
    if r in kept {
      assert Orbit(idx, r, 0) == r;
      NearestKeptUnique(idx, kept, r, c, r);
    } else if ne.replacing != "" {
      NearestKeptUnique(idx, kept, r, c, ne.replacing);
    }
  }

  lemma ReachesStep(idx: map<string, ChannelEntry>, a: string, b: string)
    requires a != "" && (Next(idx, a) == b || Reaches(idx, Next(idx, a), b))
    ensures Reaches(idx, a, b)
  {
    assert Orbit(idx, a, 1) == Next(idx, Orbit(idx, a, 0));
    if Next(idx, a) != b {
      var k: nat :| k >= 1 && Orbit(idx, Next(idx, a), k) == b;
      OrbitAdd(idx, a, 1, k);
    }
  }

  /** A chain from a to a kept b first meets a kept name c, k steps before b. */
  lemma SplitChain(idx: map<string, ChannelEntry>, kept: set<string>, a: string, b: string, n: nat)
    returns (c: string, k: nat)
    requires a != "" && b in kept && b != "" && n >= 1 && Orbit(idx, a, n) == b
    ensures Next(idx, a) != "" && NearestKept(idx, kept, Next(idx, a), c)
    ensures k < n && Orbit(idx, c, k) == b
  {
    var r := Next(idx, a);
    assert r == Orbit(idx, a, 1) by { assert Orbit(idx, a, 0) == a; }
    OrbitAdd(idx, a, 1, n - 1);
    if r == "" { OrbitEnds(idx, a, 1, n); }
    var m := FirstKept(idx, kept, r, n - 1);
    c, k := Orbit(idx, r, m), n - 1 - m;
    OrbitAdd(idx, r, m, k);
  }

  lemma {:induction false} RepairedReachesForward(original: seq<ChannelEntry>, kept: set<string>,
                                                  result: seq<ChannelEntry>, a: string, b: string, n: nat)
    requires UniqueNames(original) && Repaired(original, kept, result)
    requires a in kept && b in kept && a != b && a != "" && b != ""
    requires n >= 1 && Orbit(EntryByName(original), a, n) == b
    ensures Reaches(EntryByName(result), a, b)
    decreases n
  {
    var c, k := SplitChain(EntryByName(original), kept, a, b, n);
    if c == a {
      RepairedReachesForward(original, kept, result, a, b, k);
    } else {
      RepairedNext(original, kept, result, a, c);
      if c != b {
        RepairedReachesForward(original, kept, result, c, b, k);
      }
      ReachesStep(EntryByName(result), a, b);
    }
  }

  /** Dropping entries neither loses nor adds an upgrade between kept entries. */
  lemma UpgradesPreserved(original: seq<ChannelEntry>, kept: set<string>, result: seq<ChannelEntry>,
                          a: string, b: string)
    requires UniqueNames(original) && Repaired(original, kept, result)
    requires a in kept && b in kept && a != b && a != "" && b != ""
    ensures Reaches(EntryByName(original), a, b) <==> Reaches(EntryByName(result), a, b)
  {
    if Reaches(EntryByName(original), a, b) {
      var n: nat :| n >= 1 && Orbit(EntryByName(original), a, n) == b;
      RepairedReachesForward(original, kept, result, a, b, n);
    }
    if Reaches(EntryByName(result), a, b) {
      var n: nat :| n >= 1 && Orbit(EntryByName(result), a, n) == b;
      RepairedReachesBack(original, kept, result, a, b, n);
    }
  }

  // ------------------------------------------------------------- channel head

  /** One comparison of highestVersionBundle. */
  function Better(best: string, c: string, versions: Versions): string
  {
    if c in versions && best in versions && versions[c] > versions[best] then c
    else if c in versions && best !in versions then c
    else if c !in versions && best !in versions && LexLess(c, best) then c
    else best
  }

  /** The candidate that becomes the channel head. */
  function HighestVersion(candidates: seq<string>, versions: Versions): string
    requires candidates != []
  {
    var n := |candidates| - 1;
    if n == 0 then candidates[0]
    else Better(HighestVersion(candidates[..n], versions), candidates[n], versions)
  }

  /** r is at position i of candidates: the first of the highest parseable
      version, or the least name when no version parses. */
  ghost predicate IsHighest(candidates: seq<string>, versions: Versions, i: nat)
  {
    i < |candidates| &&
    var r := candidates[i];
    if r in versions then
      forall j :: 0 <= j < |candidates| && candidates[j] in versions ==>
        versions[candidates[j]] <= versions[r] && (j < i ==> versions[candidates[j]] < versions[r])
    else
      forall j :: 0 <= j < |candidates| ==>
        candidates[j] !in versions && (candidates[j] == r || LexLess(r, candidates[j]))
  }

  lemma {:induction false} HighestVersionIs(candidates: seq<string>, versions: Versions)
    returns (i: nat)
    requires candidates != []
    ensures IsHighest(candidates, versions, i) && candidates[i] == HighestVersion(candidates, versions)
  {
    var n := |candidates| - 1;
    if n == 0 {
      i := 0;
    } else {
      var front := candidates[..n];
      i := HighestVersionIs(front, versions);
      var best, c := front[i], candidates[n];
      assert forall j :: 0 <= j < n ==> candidates[j] == front[j];
      if Better(best, c, versions) == c && best != c {
        i := n;
        if c !in versions {
          forall j | 0 <= j < n ensures candidates[j] == c || LexLess(c, candidates[j])
          {
            if front[j] != best { LexTransitive(c, best, front[j]); }
          }
        }
      } else if c !in versions && best !in versions {
        LexTotal(best, c);
      }
    }
  }

  method HighestVersionBundle(candidates: seq<string>, versions: Versions) returns (best: string)
    requires candidates != []
    ensures best == HighestVersion(candidates, versions)
  {
    best := candidates[0];
    for i := 1 to |candidates|
      invariant best == HighestVersion(candidates[..i], versions)
    {
      var c := candidates[i];
      assert candidates[..i + 1][..i] == candidates[..i];
      if c in versions && best in versions && versions[c] > versions[best] {
        best := c;
      } else if c in versions && best !in versions {
        best := c;
      } else if c !in versions && best !in versions && LexLess(c, best) {
        best := c;
      }
    }
    assert candidates[..|candidates|] == candidates;
  }

  /** The candidates for the head of a nonempty channel. */
  function HeadCandidates(entries: seq<ChannelEntry>): seq<string>
    requires entries != []
  {
    var heads := Heads(entries, Superseded(entries));
    if heads == [] then [entries[|entries| - 1].name] else heads
  }

  function ChannelHead(entries: seq<ChannelEntry>, versions: Versions): string
    requires entries != []
  {
    HighestVersion(HeadCandidates(entries), versions)
  }

  /** cur and up to n further names along its replaces chain. */
  function ChainNames(idx: map<string, ChannelEntry>, cur: string, n: nat): set<string>
    decreases n
  {
    if n == 0 || cur !in idx || idx[cur].replacing == "" then {cur}
    else {cur} + ChainNames(idx, idx[cur].replacing, n - 1)
  }

  function NamesIn(entries: seq<ChannelEntry>, included: set<string>): seq<string>
  {
    if entries == [] then [] else
      var last := entries[|entries| - 1];
      NamesIn(entries[..|entries| - 1], included) + (if last.name in included then [last.name] else [])
  }

  /** Head plus `previous` older entries, in channel order. */
  function HeadPlusN(entries: seq<ChannelEntry>, previous: int, versions: Versions): seq<string>
  {
    if entries == [] then []
    else if previous <= 0 then [ChannelHead(entries, versions)]
    else NamesIn(entries, ChainNames(EntryByName(entries), ChannelHead(entries, versions), previous))
  }

  method CollectSuperseded(entries: seq<ChannelEntry>) returns (superseded: set<string>)
    ensures superseded == Superseded(entries)
  {
    superseded := {};
    for i := 0 to |entries|
      invariant superseded == Superseded(entries[..i])
    {
      var e := entries[i];
      ghost var before := superseded;
      if e.replacing != "" {
        superseded := superseded + {e.replacing};
      }
      for k := 0 to |e.skips|
        invariant superseded == before + (if e.replacing != "" then {e.replacing} else {}) + (set s | s in e.skips[..k])
      {
        superseded := superseded + {e.skips[k]};
      }
      assert e.skips[..|e.skips|] == e.skips;
      assert entries[..i + 1] == entries[..i] + [e];
    }
    assert entries[..|entries|] == entries;
  }

  method CollectHeads(entries: seq<ChannelEntry>, superseded: set<string>) returns (heads: seq<string>)
    ensures heads == Heads(entries, superseded)
  {
    heads := [];
    for i := 0 to |entries|
      invariant heads == Heads(entries[..i], superseded)
    {
      assert entries[..i + 1][..i] == entries[..i];
      if entries[i].name !in superseded {
        heads := heads + [entries[i].name];
      }
    }
    assert entries[..|entries|] == entries;
  }

  method ChannelHeadPlusN(entries: seq<ChannelEntry>, previous: int, versions: Versions)
    returns (result: seq<string>)
    ensures result == HeadPlusN(entries, previous, versions)
  {
    if entries == [] {
      return [];
    }
    var head := FindHead(entries, versions);
    if previous <= 0 {
      return [head];
    }
    var entryByName := IndexEntries(entries);
    var included := WalkBack(entryByName, head, previous);
    result := CollectNames(entries, included);
  }

  /** The channel head: of several candidates the highest, of none the last entry. */
  method FindHead(entries: seq<ChannelEntry>, versions: Versions) returns (head: string)
    requires entries != []
    ensures head == ChannelHead(entries, versions)
  {
    var superseded := CollectSuperseded(entries);
    var heads := CollectHeads(entries, superseded);
    if heads == [] {
      return entries[|entries| - 1].name;
    }
    if |heads| == 1 {
      return heads[0];
    }
    head := HighestVersionBundle(heads, versions);
  }

  method WalkBack(entryByName: map<string, ChannelEntry>, head: string, previous: nat)
    returns (included: set<string>)
    ensures included == ChainNames(entryByName, head, previous)
  {
    included := {head};
    var current := head;
    var i := 0;
    while i < previous
      invariant 0 <= i <= previous
      invariant current in included
      invariant ChainNames(entryByName, head, previous) ==
                included + ChainNames(entryByName, current, previous - i)
    {
      if current !in entryByName || entryByName[current].replacing == "" {
        break;
      }
      included := included + {entryByName[current].replacing};
      current := entryByName[current].replacing;
      i := i + 1;
    }
  }

  method CollectNames(entries: seq<ChannelEntry>, included: set<string>) returns (result: seq<string>)
    ensures result == NamesIn(entries, included)
  {
    result := [];
    for k := 0 to |entries|
      invariant result == NamesIn(entries[..k], included)
    {
      assert entries[..k + 1][..k] == entries[..k];
      if entries[k].name in included {
        result := result + [entries[k].name];
      }
    }
    assert entries[..|entries|] == entries;
  }

  // ---------------------------------------------- head plus N has one head

  lemma {:induction false} NamesInFacts(entries: seq<ChannelEntry>, included: set<string>)
    ensures forall x :: x in NamesIn(entries, included) <==> x in Names(entries) && x in included
  {
    if entries != [] {
      var n := |entries| - 1;
      NamesInFacts(entries[..n], included);
      assert entries == entries[..n] + [entries[n]];
      assert Names(entries) == Names(entries[..n]) + {entries[n].name};
    }
  }

  /** The names HeadPlusN selects. */
  lemma HeadPlusNSelects(entries: seq<ChannelEntry>, previous: int, versions: Versions)
    requires entries != []
    ensures ChannelHead(entries, versions) in Names(entries)
    ensures Heads(entries, Superseded(entries)) != [] ==>
      ChannelHead(entries, versions) !in Superseded(entries)
    ensures
      forall x :: x in HeadPlusN(entries, previous, versions) <==>
        x in Names(entries) &&
        x in ChainNames(EntryByName(entries), ChannelHead(entries, versions), if previous <= 0 then 0 else previous)
  {
    var superseded := Superseded(entries);
    HeadsFacts(entries, superseded);
    var candidates := HeadCandidates(entries);
    var i := HighestVersionIs(candidates, versions);
    assert candidates[i] in candidates;
    assert entries[|entries| - 1] in entries;
    if previous > 0 {
      NamesInFacts(entries, ChainNames(EntryByName(entries), ChannelHead(entries, versions), previous));
    }
  }

  /** Every chain name but the first is replaced by another chain name. */
  lemma {:induction false} ChainNamesReplaced(idx: map<string, ChannelEntry>, cur: string, n: nat, x: string)
    requires x in ChainNames(idx, cur, n) && x != cur
    ensures exists p :: p in ChainNames(idx, cur, n) && p in idx && idx[p].replacing == x && x != ""
    decreases n
  {
    assert n > 0 && cur in idx && idx[cur].replacing != "";
    var next := idx[cur].replacing;
    if x == next {
      assert cur in ChainNames(idx, cur, n);
    } else {
      ChainNamesReplaced(idx, next, n - 1, x);
      var p :| p in ChainNames(idx, next, n - 1) && p in idx && idx[p].replacing == x;
      assert p in ChainNames(idx, cur, n);
    }
  }

  /** Names on a chain, after the first, are replaced by an entry. */
  lemma {:induction false} OrbitSuperseded(entries: seq<ChannelEntry>, r: string, n: nat)
    requires r in Superseded(entries) && Orbit(EntryByName(entries), r, n) != ""
    ensures Orbit(EntryByName(entries), r, n) in Superseded(entries)
  {
    if n > 0 {
      EntryByNameFacts(entries);
      var p := Orbit(EntryByName(entries), r, n - 1);
      assert EntryByName(entries)[p] in entries;
    }
  }

  /** Repair supersedes only names the original channel supersedes. */
  lemma RepairedSupersedes(original: seq<ChannelEntry>, kept: set<string>, result: seq<ChannelEntry>)
    requires Repaired(original, kept, result)
    ensures Superseded(result) <= Superseded(original)
    ensures Names(result) == Names(original) * kept
  {
    var idx, ks := EntryByName(original), KeptEntries(original, kept);
    KeptEntriesFacts(original, kept);
    forall i | 0 <= i < |ks|
      ensures result[i].name == ks[i].name
      ensures result[i].replacing != "" ==> result[i].replacing in Superseded(original)
      ensures forall x :: x in result[i].skips ==> x in Superseded(original)
    {
      RepairedEntrySupersedes(original, kept, ks[i], result[i]);
    }
    forall x ensures x in Names(result) <==> x in Names(original) * kept
    {
      if x in Names(result) {
        var i :| 0 <= i < |result| && result[i].name == x;
        assert ks[i] in ks;
      }
      if x in Names(original) * kept {
        var e :| e in original && e.name == x;
        assert e in ks;
        var i :| 0 <= i < |ks| && ks[i] == e;
        assert result[i] in result;
      }
    }
  }

  lemma RepairedEntrySupersedes(original: seq<ChannelEntry>, kept: set<string>, e: ChannelEntry, ne: ChannelEntry)
    requires e in original && RepairedEntry(EntryByName(original), kept, e, ne)
    ensures ne.name == e.name
    ensures ne.replacing != "" ==> ne.replacing in Superseded(original)
    ensures forall x :: x in ne.skips ==> x in Superseded(original)
  {
    var idx := EntryByName(original);
    if !(e.replacing == "" || e.replacing in kept) {
      var r := e.replacing;
      if ne.replacing != "" {
        var n: nat :| Orbit(idx, r, n) == ne.replacing && (n > 0 ==> DroppedTo(idx, kept, r, n - 1));
        OrbitSuperseded(original, r, n);
      }
      forall x | x in ne.skips ensures x in Superseded(original)
      {
        if x !in e.skips {
          var n: nat :| Orbit(idx, r, n) == x && DroppedTo(idx, kept, r, n);
          OrbitSuperseded(original, r, n);
        }
      }
    }
  }

  /** Selecting the head plus older versions and repairing leaves exactly the
      chosen head, provided the channel has an unsuperseded entry at all. */
  lemma HeadPlusNSingleHead(entries: seq<ChannelEntry>, previous: int, versions: Versions,
                            kept: set<string>, result: seq<ChannelEntry>)
    requires entries != [] && HeadNames(entries) != {}
    requires kept == (set x | x in HeadPlusN(entries, previous, versions))
    requires Repaired(entries, kept, result)
    ensures HeadNames(result) == {ChannelHead(entries, versions)}
  {
    var idx, h := EntryByName(entries), ChannelHead(entries, versions);
    var n: nat := if previous <= 0 then 0 else previous;
    HeadsFacts(entries, Superseded(entries));
    HeadPlusNSelects(entries, previous, versions);
    RepairedSupersedes(entries, kept, result);
    assert h in ChainNames(idx, h, n);
    forall x | x in kept && x != h ensures x in Superseded(result)
    {
      ChainNamesReplaced(idx, h, n, x);
      var p :| p in ChainNames(idx, h, n) && p in idx && idx[p].replacing == x && x != "";
      EntryByNameFacts(entries);
      assert p in kept;
      KeptReplacesStays(entries, kept, result, idx[p]);
    }
  }

  /** A kept entry that replaces a kept name keeps doing so. */
  lemma KeptReplacesStays(original: seq<ChannelEntry>, kept: set<string>, result: seq<ChannelEntry>, e: ChannelEntry)
    requires Repaired(original, kept, result)
    requires e in original && e.name in kept && e.replacing in kept && e.replacing != ""
    ensures e.replacing in Superseded(result)
  {
    var ks := KeptEntries(original, kept);
    KeptEntriesFacts(original, kept);
    assert e in ks;
    var i :| 0 <= i < |ks| && ks[i] == e;
    assert result[i] in result;
  }

  // -------------------------------------------------------------- merge heads

  function SkipOthers(skips: seq<string>, heads: seq<string>, top: string): seq<string>
  {
    if heads == [] then skips else
      var h := heads[|heads| - 1];
      SkipOthers(skips, heads[..|heads| - 1], top) + (if h != top then [h] else [])
  }

  /** Several heads become one: the highest of them skips the others. */
  function MergedHeads(entries: seq<ChannelEntry>, versions: Versions): seq<ChannelEntry>
  {
    var heads := Heads(entries, Superseded(entries));
    if |heads| <= 1 then entries else
      var top := HighestVersion(heads, versions);
      seq(|entries|, i requires 0 <= i < |entries| =>
        if entries[i].name == top
        then entries[i].(skips := SkipOthers(entries[i].skips, heads, top))
        else entries[i])
  }

  method MergeChannelHeads(entries: seq<ChannelEntry>, versions: Versions) returns (out: seq<ChannelEntry>)
    ensures out == MergedHeads(entries, versions)
  {
    var superseded := CollectSuperseded(entries);
    var heads := CollectHeads(entries, superseded);
    if |heads| <= 1 {
      return entries;
    }
    var top := HighestVersionBundle(heads, versions);
    out := entries;
    for i := 0 to |out|
      invariant |out| == |entries|
      invariant forall k :: 0 <= k < |out| ==>
        out[k] == if k < i && entries[k].name == top
                  then entries[k].(skips := SkipOthers(entries[k].skips, heads, top)) else entries[k]
    {
      if out[i].name == top {
        var skips := AppendOthers(out[i].skips, heads, top);
        out := out[i := out[i].(skips := skips)];
      }
    }
  }

  method AppendOthers(skips: seq<string>, heads: seq<string>, top: string) returns (out: seq<string>)
    ensures out == SkipOthers(skips, heads, top)
  {
    out := skips;
    for k := 0 to |heads|
      invariant out == SkipOthers(skips, heads[..k], top)
    {
      assert heads[..k + 1][..k] == heads[..k];
      if heads[k] != top {
        out := out + [heads[k]];
      }
    }
    assert heads[..|heads|] == heads;
  }

  lemma {:induction false} SkipOthersFacts(skips: seq<string>, heads: seq<string>, top: string)
    ensures forall x :: x in SkipOthers(skips, heads, top) <==> x in skips || (x in heads && x != top)
  {
    if heads != [] {
      var n := |heads| - 1;
      SkipOthersFacts(skips, heads[..n], top);
      assert heads == heads[..n] + [heads[n]];
    }
  }

  /** A rank that falls along every Replaces and Skips edge between entries,
      so that no upgrade cycle exists. */
  ghost predicate Ranked(entries: seq<ChannelEntry>, rank: map<string, nat>)
  {
    Names(entries) <= rank.Keys &&
    forall e, x :: e in entries && (x in e.skips || (x == e.replacing && x != "")) && x in Names(entries) ==>
      rank[x] < rank[e.name]
  }

  ghost predicate Acyclic(entries: seq<ChannelEntry>)
  {
    exists rank :: Ranked(entries, rank)
  }

  /** A nonempty set of ranked entries has one of maximal rank. */
  lemma {:induction false} MaxRank(entries: seq<ChannelEntry>, rank: map<string, nat>) returns (top: ChannelEntry)
    requires entries != [] && Names(entries) <= rank.Keys
    ensures top in entries && forall e :: e in entries ==> rank[e.name] <= rank[top.name]
  {
    var n := |entries| - 1;
    assert entries == entries[..n] + [entries[n]];
    assert entries[n] in entries;
    if n == 0 {
      top := entries[0];
    } else {
      assert forall e :: e in entries[..n] ==> e in entries;
      top := MaxRank(entries[..n], rank);
      if rank[top.name] < rank[entries[n].name] {
        top := entries[n];
      }
    }
  }

  lemma AcyclicHasHead(entries: seq<ChannelEntry>, rank: map<string, nat>)
    requires entries != [] && Ranked(entries, rank)
    ensures HeadNames(entries) != {}
  {
    var top := MaxRank(entries, rank);
    assert top.name in Names(entries);
    assert top.name !in Superseded(entries);
    assert top.name in HeadNames(entries);
  }

  /** Along a chain of original entries the rank only falls. */
  lemma ReplacedRank(entries: seq<ChannelEntry>, rank: map<string, nat>, e: ChannelEntry)
    requires Ranked(entries, rank) && e in entries && e.replacing in Names(entries) && e.replacing != ""
    ensures rank[e.replacing] < rank[e.name]
  {
  }

  lemma {:induction false} OrbitRank(entries: seq<ChannelEntry>, rank: map<string, nat>, e: ChannelEntry, n: nat)
    requires Ranked(entries, rank) && e in entries && e.replacing != ""
    requires Orbit(EntryByName(entries), e.replacing, n) in Names(entries)
    requires Orbit(EntryByName(entries), e.replacing, n) != ""
    ensures rank[Orbit(EntryByName(entries), e.replacing, n)] < rank[e.name]
  {
    assert e.name in Names(entries);
    if n == 0 {
      ReplacedRank(entries, rank, e);
    } else {
      var p := Orbit(EntryByName(entries), e.replacing, n - 1);
      NextRank(entries, rank, p);
      OrbitRank(entries, rank, e, n - 1);
    }
  }

  lemma NextRank(entries: seq<ChannelEntry>, rank: map<string, nat>, p: string)
    requires Ranked(entries, rank)
    requires Next(EntryByName(entries), p) in Names(entries) && Next(EntryByName(entries), p) != ""
    ensures p in Names(entries) && p != "" && rank[Next(EntryByName(entries), p)] < rank[p]
  {
    EntryByNameFacts(entries);
    ReplacedRank(entries, rank, EntryByName(entries)[p]);
  }

  lemma RepairedEntryRanked(original: seq<ChannelEntry>, rank: map<string, nat>, kept: set<string>,
                            e: ChannelEntry, ne: ChannelEntry, x: string)
    requires Ranked(original, rank) && e in original
    requires RepairedEntry(EntryByName(original), kept, e, ne)
    requires x in ne.skips || (x == ne.replacing && x != "")
    requires x in Names(original)
    ensures ne.name in Names(original) && rank[x] < rank[ne.name]
  {
    assert e.name in Names(original);
    var idx, r := EntryByName(original), e.replacing;
    if !(r == "" || r in kept) {
      if x in e.skips {
      } else if x in ne.skips {
        var n: nat :| Orbit(idx, r, n) == x && DroppedTo(idx, kept, r, n);
        OrbitRank(original, rank, e, n);
      } else {
        var n: nat :| Orbit(idx, r, n) == x && (n > 0 ==> DroppedTo(idx, kept, r, n - 1));
        OrbitRank(original, rank, e, n);
      }
    }
  }

  lemma RepairedRanked(original: seq<ChannelEntry>, rank: map<string, nat>, kept: set<string>, result: seq<ChannelEntry>)
    requires Ranked(original, rank) && Repaired(original, kept, result)
    ensures Ranked(result, rank)
  {
    RepairedSupersedes(original, kept, result);
    KeptEntriesFacts(original, kept);
    var ks := KeptEntries(original, kept);
    forall ne, x | ne in result && (x in ne.skips || (x == ne.replacing && x != "")) && x in Names(result)
      ensures rank[x] < rank[ne.name]
    {
      var i :| 0 <= i < |result| && result[i] == ne;
      assert ks[i] in ks;
      RepairedEntryRanked(original, rank, kept, ks[i], ne, x);
    }
  }

  /** e replaces or skips x. */
  ghost predicate Supersedes(e: ChannelEntry, x: string)
  {
    x in e.skips || (x == e.replacing && x != "")
  }

  lemma SupersededIff(entries: seq<ChannelEntry>, x: string)
    ensures x in Superseded(entries) <==> exists k :: 0 <= k < |entries| && Supersedes(entries[k], x)
  {
    if x in Superseded(entries) {
      var e :| e in entries && Supersedes(e, x);
      var k :| 0 <= k < |entries| && entries[k] == e;
    }
  }

  /** Merging lets only the top entry supersede more: the other heads. */
  lemma MergedEntry(entries: seq<ChannelEntry>, versions: Versions, k: nat)
    requires |Heads(entries, Superseded(entries))| > 1 && k < |entries|
    ensures
      var top := HighestVersion(Heads(entries, Superseded(entries)), versions);
      var out := MergedHeads(entries, versions);
      && |out| == |entries| && out[k].name == entries[k].name
      && forall x :: Supersedes(out[k], x) <==>
          Supersedes(entries[k], x) || (entries[k].name == top && x in HeadNames(entries) && x != top)
  {
    var heads := Heads(entries, Superseded(entries));
    HeadsFacts(entries, Superseded(entries));
    SkipOthersFacts(entries[k].skips, heads, HighestVersion(heads, versions));
  }

  lemma TopIsHead(entries: seq<ChannelEntry>, versions: Versions)
    requires |Heads(entries, Superseded(entries))| > 1
    ensures HighestVersion(Heads(entries, Superseded(entries)), versions) in HeadNames(entries)
  {
    var heads := Heads(entries, Superseded(entries));
    var i := HighestVersionIs(heads, versions);
    assert heads[i] in heads;
    HeadsFacts(entries, Superseded(entries));
  }

  lemma MergedNames(entries: seq<ChannelEntry>, versions: Versions)
    requires |Heads(entries, Superseded(entries))| > 1
    ensures Names(MergedHeads(entries, versions)) == Names(entries)
  {
    var out := MergedHeads(entries, versions);
    assert |out| == |entries| && forall k :: 0 <= k < |entries| ==> out[k].name == entries[k].name;
    forall x ensures x in Names(out) <==> x in Names(entries)
    {
      if x in Names(out) { var k :| 0 <= k < |out| && out[k].name == x; assert entries[k] in entries; }
      if x in Names(entries) { var k :| 0 <= k < |entries| && entries[k].name == x; assert out[k] in out; }
    }
  }

  lemma MergedSuperseded(entries: seq<ChannelEntry>, versions: Versions, x: string)
    requires |Heads(entries, Superseded(entries))| > 1
    ensures
      x in Superseded(MergedHeads(entries, versions)) <==>
      x in Superseded(entries) ||
      (x in HeadNames(entries) && x != HighestVersion(Heads(entries, Superseded(entries)), versions))
  {
    var top := HighestVersion(Heads(entries, Superseded(entries)), versions);
    var out := MergedHeads(entries, versions);
    SupersededIff(entries, x);
    SupersededIff(out, x);
    TopIsHead(entries, versions);
    var t :| 0 <= t < |entries| && entries[t].name == top;
    MergedEntry(entries, versions, t);
    if x in Superseded(out) {
      var k :| 0 <= k < |out| && Supersedes(out[k], x);
      MergedEntry(entries, versions, k);
    } else if x in Superseded(entries) {
      var k :| 0 <= k < |entries| && Supersedes(entries[k], x);
      MergedEntry(entries, versions, k);
    }
  }

  lemma MergedHeadIff(entries: seq<ChannelEntry>, versions: Versions, x: string)
    requires |Heads(entries, Superseded(entries))| > 1
    ensures x in HeadNames(MergedHeads(entries, versions)) <==>
      x == HighestVersion(Heads(entries, Superseded(entries)), versions)
  {
    TopIsHead(entries, versions);
    MergedNames(entries, versions);
    MergedSuperseded(entries, versions, x);
  }

  lemma HeadsAreHeadNames(entries: seq<ChannelEntry>)
    ensures forall x :: x in Heads(entries, Superseded(entries)) <==> x in HeadNames(entries)
  {
    HeadsFacts(entries, Superseded(entries));
  }

  /** After merging, the top candidate is the only head. */
  lemma MergedHead(entries: seq<ChannelEntry>, versions: Versions)
    requires HeadNames(entries) != {}
    ensures Heads(entries, Superseded(entries)) != []
    ensures HeadNames(MergedHeads(entries, versions)) ==
      {HighestVersion(Heads(entries, Superseded(entries)), versions)}
  {
    HeadsAreHeadNames(entries);
    var h :| h in HeadNames(entries);
    assert h in Heads(entries, Superseded(entries));
    if |Heads(entries, Superseded(entries))| == 1 {
      OnlyHead(entries, versions);
    } else {
      forall x ensures x in HeadNames(MergedHeads(entries, versions)) <==>
                       x == HighestVersion(Heads(entries, Superseded(entries)), versions)
      {
        MergedHeadIff(entries, versions, x);
      }
    }
  }

  lemma OnlyHead(entries: seq<ChannelEntry>, versions: Versions)
    requires |Heads(entries, Superseded(entries))| == 1
    ensures HeadNames(entries) == {HighestVersion(Heads(entries, Superseded(entries)), versions)}
  {
    var heads := Heads(entries, Superseded(entries));
    HeadsAreHeadNames(entries);
    assert heads == [heads[0]];
    forall x ensures x in HeadNames(entries) <==> x == heads[0]
    {
      assert x in HeadNames(entries) <==> x in heads;
    }
  }

  lemma MergedAcyclic(entries: seq<ChannelEntry>, versions: Versions, rank: map<string, nat>)
    requires entries != [] && Ranked(entries, rank)
    ensures Acyclic(MergedHeads(entries, versions))
  {
    if |Heads(entries, Superseded(entries))| > 1 {
      var rank' := RaisedRank(entries, versions, rank);
      assert Ranked(MergedHeads(entries, versions), rank');
    } else {
      assert Ranked(entries, rank);
    }
  }

  /** The merged head is raised above everything else. */
  lemma RaisedRank(entries: seq<ChannelEntry>, versions: Versions, rank: map<string, nat>)
    returns (rank': map<string, nat>)
    requires entries != [] && Ranked(entries, rank) && |Heads(entries, Superseded(entries))| > 1
    ensures Ranked(MergedHeads(entries, versions), rank')
  {
    var top := HighestVersion(Heads(entries, Superseded(entries)), versions);
    var m := MaxRank(entries, rank);
    rank' := rank[top := rank[m.name] + 1];
    assert forall x :: x in Names(entries) ==> rank[x] < rank'[top];
    MergedNames(entries, versions);
    TopIsHead(entries, versions);
    RaisedRanked(entries, MergedHeads(entries, versions), versions, rank, rank');
  }

  /** rank' raises only top, above all other entries. */
  ghost predicate Raises(entries: seq<ChannelEntry>, top: string, rank: map<string, nat>, rank': map<string, nat>)
  {
    top in rank' && rank' == rank[top := rank'[top]] && forall x :: x in Names(entries) && x in rank ==> rank[x] < rank'[top]
  }

  lemma RaisedRanked(entries: seq<ChannelEntry>, out: seq<ChannelEntry>, versions: Versions,
                     rank: map<string, nat>, rank': map<string, nat>)
    requires Ranked(entries, rank) && |Heads(entries, Superseded(entries))| > 1
    requires out == MergedHeads(entries, versions) && Names(out) == Names(entries)
    requires Raises(entries, HighestVersion(Heads(entries, Superseded(entries)), versions), rank, rank')
    ensures Ranked(out, rank')
  {
    forall e, x | e in out && (x in e.skips || (x == e.replacing && x != "")) && x in Names(out)
      ensures rank'[x] < rank'[e.name]
    {
      var k :| 0 <= k < |out| && out[k] == e;
      RaisedEdge(entries, versions, rank, rank', k, x);
    }
  }

  lemma RaisedEdge(entries: seq<ChannelEntry>, versions: Versions, rank: map<string, nat>, rank': map<string, nat>,
                   k: nat, x: string)
    requires Ranked(entries, rank) && |Heads(entries, Superseded(entries))| > 1
    requires k < |MergedHeads(entries, versions)| && x in Names(entries)
    requires Supersedes(MergedHeads(entries, versions)[k], x)
    requires Raises(entries, HighestVersion(Heads(entries, Superseded(entries)), versions), rank, rank')
    ensures
      var name := MergedHeads(entries, versions)[k].name;
      name in rank' && x in rank' && rank'[x] < rank'[name]
  {
    MergedEdgeFalls(entries, versions, rank, k, x);
  }

  lemma MergedEdgeFalls(entries: seq<ChannelEntry>, versions: Versions, rank: map<string, nat>, k: nat, x: string)
    requires Ranked(entries, rank) && |Heads(entries, Superseded(entries))| > 1
    requires k < |MergedHeads(entries, versions)| && x in Names(entries)
    requires Supersedes(MergedHeads(entries, versions)[k], x)
    ensures
      var top := HighestVersion(Heads(entries, Superseded(entries)), versions);
      var name := MergedHeads(entries, versions)[k].name;
      name in Names(entries) && x != top && (name == top || rank[x] < rank[name])
  {
    assert |MergedHeads(entries, versions)| == |entries|;
    MergedEntry(entries, versions, k);
    TopIsHead(entries, versions);
    assert entries[k] in entries;
    if Supersedes(entries[k], x) {
      assert x in Superseded(entries);
    }
  }

  /** Bundles picked by name: an acyclic channel with a selected entry ends up
      acyclic and with exactly one head, a selected entry. */
  lemma MergeSingleHead(original: seq<ChannelEntry>, kept: set<string>, repaired: seq<ChannelEntry>,
                        versions: Versions)
    requires Acyclic(original) && Names(original) * kept != {}
    requires Repaired(original, kept, repaired)
    ensures Acyclic(MergedHeads(repaired, versions))
    ensures exists h :: h in kept && HeadNames(MergedHeads(repaired, versions)) == {h}
  {
    var rank :| Ranked(original, rank);
    RepairedRanked(original, rank, kept, repaired);
    RepairedSupersedes(original, kept, repaired);
    AcyclicHasHead(repaired, rank);
    MergedAcyclic(repaired, versions, rank);
    MergedHead(repaired, versions);
    var heads := Heads(repaired, Superseded(repaired));
    HeadsFacts(repaired, Superseded(repaired));
    var i := HighestVersionIs(heads, versions);
    assert heads[i] in heads;
    assert HighestVersion(heads, versions) in kept;
  }
}

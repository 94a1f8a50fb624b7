/** Which entries of a repaired channel are heads, when repair brings up heads
    that the channel did not have, and that its result is determined. */
module RepairedHeads {
  import opened Channels

  /** After repair, the kept entry e leads past x: it skips x, or x is the nearest
      kept name on its replaces chain. */
  ghost predicate LeadsPast(idx: map<string, ChannelEntry>, kept: set<string>, e: ChannelEntry, x: string)
  {
    || x in e.skips
    || (e.replacing != "" && NearestKept(idx, kept, e.replacing, x) && (e.replacing in kept || x != e.name))
  }

  ghost predicate LedPast(original: seq<ChannelEntry>, kept: set<string>, x: string)
  {
    exists e :: e in original && e.name in kept && LeadsPast(EntryByName(original), kept, e, x)
  }

  lemma RepairedLeads(idx: map<string, ChannelEntry>, kept: set<string>, e: ChannelEntry, ne: ChannelEntry, x: string)
    requires RepairedEntry(idx, kept, e, ne) && x in kept && x != ""
    ensures Supersedes(ne, x) <==> LeadsPast(idx, kept, e, x)
  {
    if e.replacing in kept && e.replacing != "" {
      assert Orbit(idx, e.replacing, 0) == e.replacing;
      assert NearestKept(idx, kept, e.replacing, e.replacing);
      if NearestKept(idx, kept, e.replacing, x) {
        NearestKeptUnique(idx, kept, e.replacing, x, e.replacing);
      }
    } else if e.replacing != "" {
      if ne.replacing != "" && NearestKept(idx, kept, e.replacing, x) {
        NearestKeptUnique(idx, kept, e.replacing, x, ne.replacing);
      }
    }
  }

  /** The heads of a repaired channel: the kept names no kept entry leads past. */
  lemma RepairedHeadIff(original: seq<ChannelEntry>, kept: set<string>, repaired: seq<ChannelEntry>, x: string)
    requires Repaired(original, kept, repaired) && x != ""
    ensures x in HeadNames(repaired) <==> x in Names(original) * kept && !LedPast(original, kept, x)
  {
    var idx, ks := EntryByName(original), KeptEntries(original, kept);
    RepairedSupersedes(original, kept, repaired);
    KeptEntriesFacts(original, kept);
    SupersededIff(repaired, x);
    if x in kept {
      forall i | 0 <= i < |ks| ensures Supersedes(repaired[i], x) <==> LeadsPast(idx, kept, ks[i], x)
      {
        RepairedLeads(idx, kept, ks[i], repaired[i], x);
      }
      assert forall i :: 0 <= i < |ks| ==> ks[i] in ks;
    }
  }

  /** Repair brings up a head the channel did not have exactly if some kept name
      is superseded, but only by entries that were dropped and that no kept entry
      reaches it through. */
  lemma NewHeadIff(original: seq<ChannelEntry>, kept: set<string>, repaired: seq<ChannelEntry>)
    requires Repaired(original, kept, repaired) && "" !in Names(original)
    ensures HeadNames(repaired) <= HeadNames(original) <==>
      forall x :: x in Names(original) * kept * Superseded(original) ==> LedPast(original, kept, x)
  {
    forall x | x in Names(original)
      ensures x in HeadNames(repaired) <==> x in kept && !LedPast(original, kept, x)
    {
      RepairedHeadIff(original, kept, repaired, x);
    }
    RepairedSupersedes(original, kept, repaired);
    if HeadNames(repaired) <= HeadNames(original) {
      forall x | x in Names(original) * kept * Superseded(original) ensures LedPast(original, kept, x)
      {
        assert x !in HeadNames(original);
      }
    }
  }

  /** h is the only kept name that is not led past. */
  ghost predicate OnlyUnled(original: seq<ChannelEntry>, kept: set<string>, h: string)
  {
    h in Names(original) * kept && forall x :: x in Names(original) * kept ==> (LedPast(original, kept, x) <==> x != h)
  }

  /** Of the kept names, all but one are led past. */
  ghost predicate OneUnled(original: seq<ChannelEntry>, kept: set<string>)
  {
    exists h :: OnlyUnled(original, kept, h)
  }

  /** A repaired channel has exactly one head exactly if the kept entries lead
      past all kept names but one. */
  lemma SingleHeadIff(original: seq<ChannelEntry>, kept: set<string>, repaired: seq<ChannelEntry>)
    requires Repaired(original, kept, repaired) && "" !in Names(original)
    ensures (exists h :: HeadNames(repaired) == {h}) <==> OneUnled(original, kept)
  {
    HeadsAreUnled(original, kept, repaired);
    UnledIff(original, kept);
  }

  /** The kept names that no kept entry leads past. */
  ghost function Unled(original: seq<ChannelEntry>, kept: set<string>): set<string>
  {
    set x | x in Names(original) * kept && !LedPast(original, kept, x)
  }

  lemma HeadsAreUnled(original: seq<ChannelEntry>, kept: set<string>, repaired: seq<ChannelEntry>)
    requires Repaired(original, kept, repaired) && "" !in Names(original)
    ensures HeadNames(repaired) == Unled(original, kept)
  {
    RepairedSupersedes(original, kept, repaired);
    forall x | x in Names(original) ensures x in HeadNames(repaired) <==> x in Unled(original, kept)
    {
      RepairedHeadIff(original, kept, repaired, x);
    }
  }

  lemma OnlyOneLeft(names: set<string>, unled: set<string>, h: string)
    requires unled <= names
    ensures unled == {h} <==> h in names && forall x :: x in names ==> (x !in unled <==> x != h)
  {
    if h in names && forall x :: x in names ==> (x !in unled <==> x != h) {
      assert forall x :: x in unled <==> x == h;
    }
  }

  lemma UnledAt(original: seq<ChannelEntry>, kept: set<string>, h: string)
    ensures Unled(original, kept) == {h} <==> OnlyUnled(original, kept, h)
  {
    var names, unled := Names(original) * kept, Unled(original, kept);
    assert forall x :: x in names ==> (x !in unled <==> LedPast(original, kept, x));
    OnlyOneLeft(names, unled, h);
  }

  lemma UnledIff(original: seq<ChannelEntry>, kept: set<string>)
    ensures (exists h :: Unled(original, kept) == {h}) <==> OneUnled(original, kept)
  {
    if h :| Unled(original, kept) == {h} {
      UnledAt(original, kept, h);
    }
    if h :| OnlyUnled(original, kept, h) {
      UnledAt(original, kept, h);
    }
  }

  // --------------------------------------------------------------- determined

  /** Equal up to the order of skips. */
  ghost predicate SameEntry(a: ChannelEntry, b: ChannelEntry)
  {
    a.name == b.name && a.replacing == b.replacing && a.skipRange == b.skipRange &&
    forall x :: x in a.skips <==> x in b.skips
  }

  ghost predicate SameEntries(a: seq<ChannelEntry>, b: seq<ChannelEntry>)
  {
    |a| == |b| && forall i :: 0 <= i < |a| ==> SameEntry(a[i], b[i])
  }

  lemma RepairedEntryUnique(idx: map<string, ChannelEntry>, kept: set<string>, e: ChannelEntry,
                            a: ChannelEntry, b: ChannelEntry)
    requires RepairedEntry(idx, kept, e, a) && RepairedEntry(idx, kept, e, b)
    ensures SameEntry(a, b)
  {
    if a.replacing != "" && b.replacing != "" && e.replacing !in kept {
      NearestKeptUnique(idx, kept, e.replacing, a.replacing, b.replacing);
    }
  }

  lemma RepairedUnique(original: seq<ChannelEntry>, kept: set<string>, a: seq<ChannelEntry>, b: seq<ChannelEntry>)
    requires Repaired(original, kept, a) && Repaired(original, kept, b)
    ensures SameEntries(a, b)
  {
    forall i | 0 <= i < |a| ensures SameEntry(a[i], b[i])
    {
      RepairedEntryUnique(EntryByName(original), kept, KeptEntries(original, kept)[i], a[i], b[i]);
    }
  }

  lemma SameSuperseded(a: seq<ChannelEntry>, b: seq<ChannelEntry>)
    requires SameEntries(a, b)
    ensures Superseded(a) == Superseded(b)
  {
    forall x ensures x in Superseded(a) <==> x in Superseded(b)
    {
      SupersededIff(a, x);
      SupersededIff(b, x);
      assert forall i :: 0 <= i < |a| ==> (Supersedes(a[i], x) <==> Supersedes(b[i], x));
    }
  }

  lemma {:induction false} SameHeads(a: seq<ChannelEntry>, b: seq<ChannelEntry>, superseded: set<string>)
    requires SameEntries(a, b)
    ensures Heads(a, superseded) == Heads(b, superseded)
  {
    if a != [] {
      SameHeads(a[..|a| - 1], b[..|b| - 1], superseded);
    }
  }

  lemma SameMerged(a: seq<ChannelEntry>, b: seq<ChannelEntry>, versions: Versions)
    requires SameEntries(a, b)
    ensures SameEntries(MergedHeads(a, versions), MergedHeads(b, versions))
  {
    SameSuperseded(a, b);
    SameHeads(a, b, Superseded(a));
    var heads := Heads(a, Superseded(a));
    if |heads| > 1 {
      var top := HighestVersion(heads, versions);
      forall i | 0 <= i < |a| ensures SameEntry(MergedHeads(a, versions)[i], MergedHeads(b, versions)[i])
      {
        SkipOthersFacts(a[i].skips, heads, top);
        SkipOthersFacts(b[i].skips, heads, top);
      }
    }
  }
}

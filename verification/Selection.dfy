/** Which bundles a package keeps, stated on the catalog: the newest entries of
    each channel, a version range, a list of names, or all. */
module Selection {
  import opened Options
  import opened Text
  import opened Channels
  import opened CatalogFilter
  import opened Requirements

  // ------------------------------------------------------------ newest entries

  /** x is reached from cur in at most n replaces steps. */
  ghost predicate WithinSteps(idx: map<string, ChannelEntry>, cur: string, n: nat, x: string)
  {
    exists k: nat :: k <= n && Orbit(idx, cur, k) == x
  }

  lemma {:induction false} ChainIsOrbit(idx: map<string, ChannelEntry>, cur: string, n: nat, x: string)
    requires cur != "" && x != ""
    ensures x in ChainNames(idx, cur, n) <==> WithinSteps(idx, cur, n, x)
    decreases n
  {
    assert Orbit(idx, cur, 0) == cur;
    if n > 0 {
      var next := Next(idx, cur);
      if next == "" {
        forall k: nat | Orbit(idx, cur, k) == x ensures x == cur
        {
          if k > 0 { OrbitEnds(idx, cur, 1, k); }
        }
      } else {
        ChainIsOrbit(idx, next, n - 1, x);
        ShiftOrbit(idx, cur, n, x);
      }
    }
  }

  lemma ShiftOrbit(idx: map<string, ChannelEntry>, cur: string, n: nat, x: string)
    requires n > 0
    ensures WithinSteps(idx, cur, n, x) <==> x == cur || WithinSteps(idx, Next(idx, cur), n - 1, x)
  {
    assert Orbit(idx, cur, 0) == cur && Orbit(idx, cur, 1) == Next(idx, cur);
    forall k: nat ensures Orbit(idx, Next(idx, cur), k) == Orbit(idx, cur, k + 1)
    {
      OrbitAdd(idx, cur, 1, k);
      assert 1 + k == k + 1;
    }
    if k: nat :| k <= n && Orbit(idx, cur, k) == x {
      if k > 0 { assert Orbit(idx, Next(idx, cur), k - 1) == x; }
    }
    if k: nat :| k <= n - 1 && Orbit(idx, Next(idx, cur), k) == x {
      assert Orbit(idx, cur, k + 1) == x;
    }
  }

  lemma StepsAreFirst(idx: map<string, ChannelEntry>, cur: string, n: nat, x: string)
    ensures WithinSteps(idx, cur, n, x) <==> x in FirstNames(idx, cur, n + 1)
  {
    FirstNamesAre(idx, cur, n + 1, x);
    if WithinSteps(idx, cur, n, x) {
      var k: nat :| k <= n && Orbit(idx, cur, k) == x;
      assert k < n + 1 && x == Orbit(idx, cur, k);
    }
    if AmongFirst(idx, cur, n + 1, x) {
      var k: nat :| k < n + 1 && x == Orbit(idx, cur, k);
      assert k <= n && Orbit(idx, cur, k) == x;
    }
  }

  /** The head that is chosen: of the entries nothing supersedes, the highest;
      only if there is none, the last entry. */
  lemma ChosenHead(entries: seq<ChannelEntry>, versions: Versions) returns (i: nat)
    requires entries != []
    ensures
      var heads := Heads(entries, Superseded(entries));
      if heads == [] then ChannelHead(entries, versions) == entries[|entries| - 1].name
      else IsHighest(heads, versions, i) && heads[i] == ChannelHead(entries, versions)
  {
    i := HighestVersionIs(HeadCandidates(entries), versions);
  }

  /** Head plus N: exactly the entries of the channel within N steps of the head. */
  lemma NewestIff(entries: seq<ChannelEntry>, previous: int, versions: Versions, x: string)
    requires entries != [] && "" !in Names(entries)
    ensures x in HeadPlusN(entries, previous, versions) <==>
      x in Names(entries) &&
      WithinSteps(EntryByName(entries), ChannelHead(entries, versions), if previous > 0 then previous else 0, x)
  {
    HeadPlusNSelects(entries, previous, versions);
    if x in Names(entries) {
      ChainIsOrbit(EntryByName(entries), ChannelHead(entries, versions), if previous > 0 then previous else 0, x);
    }
  }

  /** The first n names from r on are all different. */
  ghost predicate DistinctSteps(idx: map<string, ChannelEntry>, r: string, n: nat)
  {
    forall i: nat, j: nat :: i < j < n ==> Orbit(idx, r, i) != Orbit(idx, r, j)
  }

  lemma {:induction false} FirstNamesSize(idx: map<string, ChannelEntry>, r: string, n: nat)
    requires DistinctSteps(idx, r, n)
    ensures |FirstNames(idx, r, n)| == n
  {
    if n > 0 {
      FirstNamesSize(idx, r, n - 1);
      NotAmongFirst(idx, r, n);
    }
  }

  lemma NotAmongFirst(idx: map<string, ChannelEntry>, r: string, n: nat)
    requires n > 0 && DistinctSteps(idx, r, n)
    ensures Orbit(idx, r, n - 1) !in FirstNames(idx, r, n - 1)
  {
    FirstNamesAre(idx, r, n - 1, Orbit(idx, r, n - 1));
  }

  /** If the channel has n + 1 different entries in a row from the head on, then
      head plus n gives exactly these n + 1 names. */
  lemma NewestCount(entries: seq<ChannelEntry>, n: nat, versions: Versions)
    requires entries != [] && "" !in Names(entries)
    requires DistinctSteps(EntryByName(entries), ChannelHead(entries, versions), n + 1)
    requires FirstNames(EntryByName(entries), ChannelHead(entries, versions), n + 1) <= Names(entries)
    ensures (set x | x in HeadPlusN(entries, n, versions)) ==
      FirstNames(EntryByName(entries), ChannelHead(entries, versions), n + 1)
    ensures |set x | x in HeadPlusN(entries, n, versions)| == n + 1
  {
    var idx, head := EntryByName(entries), ChannelHead(entries, versions);
    forall x ensures x in HeadPlusN(entries, n, versions) <==> x in FirstNames(idx, head, n + 1)
    {
      NewestIff(entries, n, versions, x);
      StepsAreFirst(idx, head, n, x);
    }
    FirstNamesSize(idx, head, n + 1);
  }

  // ------------------------------------------------------------ version range

  /** The request lists no channel twice. */
  ghost predicate UniqueChannels(inc: IncludePackage)
  {
    forall i, j :: 0 <= i < j < |inc.channels| ==> inc.channels[i].name != inc.channels[j].name
  }

  /** v respects the lower bound for the channel: its own if it sets one, else
      that of the package. */
  ghost predicate AboveMinimum(inc: IncludePackage, channel: string, v: int)
  {
    if exists c :: c in inc.channels && c.name == channel && c.minVersion.Some?
    then forall c :: c in inc.channels && c.name == channel ==> c.minVersion.Some? && c.minVersion.value <= v
    else inc.minVersion.Some? ==> inc.minVersion.value <= v
  }

  ghost predicate BelowMaximum(inc: IncludePackage, channel: string, v: int)
  {
    if exists c :: c in inc.channels && c.name == channel && c.maxVersion.Some?
    then forall c :: c in inc.channels && c.name == channel ==> c.maxVersion.Some? && v <= c.maxVersion.value
    else inc.maxVersion.Some? ==> v <= inc.maxVersion.value
  }

  lemma {:induction false} FindChannelIff(channels: seq<IncludeChannel>, name: string)
    ensures FindChannel(channels, name).Some? <==> exists c :: c in channels && c.name == name
    ensures FindChannel(channels, name).Some? ==>
      FindChannel(channels, name).value in channels && FindChannel(channels, name).value.name == name
  {
    if channels != [] {
      var n := |channels| - 1;
      FindChannelIff(channels[..n], name);
      assert channels == channels[..n] + [channels[n]];
    }
  }

  lemma OnlyChannel(inc: IncludePackage, name: string, c: IncludeChannel)
    requires UniqueChannels(inc) && c in inc.channels && c.name == name
    ensures FindChannel(inc.channels, name) == Some(c)
  {
    FindChannelIff(inc.channels, name);
    var found := FindChannel(inc.channels, name).value;
    var i :| 0 <= i < |inc.channels| && inc.channels[i] == c;
    var j :| 0 <= j < |inc.channels| && inc.channels[j] == found;
  }

  lemma RangeIff(inc: IncludePackage, channel: string, b: Bundle)
    requires UniqueChannels(inc)
    ensures InRange(b, EffectiveRange(inc, channel)) <==>
      (b.version.Some? ==>
        AboveMinimum(inc, channel, b.version.value) && BelowMaximum(inc, channel, b.version.value))
  {
    FindChannelIff(inc.channels, channel);
    forall c | c in inc.channels && c.name == channel ensures FindChannel(inc.channels, channel) == Some(c)
    {
      OnlyChannel(inc, channel, c);
    }
  }

  // ---------------------------------------------------------------- selection

  ghost predicate NoEntries(cfg: Config, pkg: string)
  {
    forall ch :: ch in cfg.channels && ch.pkg == pkg ==> ch.entries == []
  }

  /** Whether channel ch brings its entry, the bundle b, into the catalog. */
  ghost predicate Brings(cfg: Config, inc: IncludePackage, ch: Channel, b: Bundle)
  {
    if inc.channels == [] && inc.minVersion.None? && inc.maxVersion.None?
    then ch.entries != [] &&
         WithinSteps(EntryByName(ch.entries), ChannelHead(ch.entries, VersionsOf(cfg)),
                     if inc.previousVersions > 0 then inc.previousVersions else 0, b.name)
    else
      && (inc.channels == [] || exists c :: c in inc.channels && c.name == ch.name)
      && (b.version.Some? ==> AboveMinimum(inc, ch.name, b.version.value) && BelowMaximum(inc, ch.name, b.version.value))
  }

  /** Whether a kept package keeps its bundle b. */
  ghost predicate KeepsBundle(cfg: Config, request: Option<IncludePackage>, b: Bundle)
  {
    || request.None?
    || (request.value.bundles != [] && b.name in request.value.bundles)
    || (request.value.bundles == [] && NoEntries(cfg, b.pkg))
    || (request.value.bundles == [] &&
        exists ch :: ch in cfg.channels && ch.pkg == b.pkg && b.name in Names(ch.entries) &&
                     Brings(cfg, request.value, ch, b))
  }

  ghost predicate NamedEntries(cfg: Config)
  {
    forall ch :: ch in cfg.channels ==> "" !in Names(ch.entries)
  }

  lemma SelectedIff(cfg: Config, all: seq<IncludePackage>, inc: IncludePackage, ch: Channel, b: Bundle)
    requires ClosedInput(cfg) && NamedEntries(cfg) && ch in cfg.channels && b in cfg.bundles && ch.pkg == b.pkg
    requires FindInclude(all, ch.pkg) == Some(inc) && inc.bundles == [] && UniqueChannels(inc)
    ensures b.name in SelectedIn(cfg, all, ch) <==> b.name in Names(ch.entries) && Brings(cfg, inc, ch, b)
  {
    ByUniqueName(cfg, b);
    RangeIff(inc, ch.name, b);
    if ch.entries != [] {
      assert HasChannelEntries(cfg, ch.pkg);
      NewestIff(ch.entries, inc.previousVersions, VersionsOf(cfg), b.name);
    }
  }

  lemma AllowedIff(cfg: Config, all: seq<IncludePackage>, b: Bundle)
    requires ClosedInput(cfg) && NamedEntries(cfg) && b in cfg.bundles
    requires forall inc :: inc in all ==> UniqueChannels(inc)
    ensures b.name in AllowedBundles(cfg, all, b.pkg) <==> KeepsBundle(cfg, FindInclude(all, b.pkg), b)
  {
    var request := FindInclude(all, b.pkg);
    assert NoEntries(cfg, b.pkg) <==> !HasChannelEntries(cfg, b.pkg);
    if request.None? || (request.value.bundles == [] && NoEntries(cfg, b.pkg)) {
      assert b.name in BundlesOfPackage(cfg, b.pkg);
    } else if request.value.bundles == [] {
      FoundInclude(all, b.pkg);
      forall ch | ch in cfg.channels && ch.pkg == b.pkg
        ensures b.name in SelectedIn(cfg, all, ch) <==> b.name in Names(ch.entries) && Brings(cfg, request.value, ch, b)
      {
        SelectedIff(cfg, all, request.value, ch, b);
      }
    }
  }

  /** The bundles of the filtered catalog are exactly those of kept packages that
      their package keeps: all, if it was not requested or has no channel entries;
      the listed ones; the newest of some channel; or those in range in some
      wanted channel. */
  lemma BundleKeptIff(cfg: Config, all: seq<IncludePackage>, kept: set<string>, out: Config, b: Bundle)
    requires ClosedInput(cfg) && NamedEntries(cfg) && FirstMissing(cfg, all).None?
    requires IsFiltered(cfg, all, kept, out) && forall inc :: inc in all ==> UniqueChannels(inc)
    ensures b in out.bundles <==>
      b in cfg.bundles && b.pkg in kept && KeepsBundle(cfg, FindInclude(all, b.pkg), b)
  {
    BundlesInFacts(cfg.bundles, AllowedFor(cfg, all, kept));
    if b in cfg.bundles {
      AllowedIff(cfg, all, b);
      ByUniqueName(cfg, b);
      if b.name in AllowedFor(cfg, all, kept) {
        var p :| p in kept && b.name in AllowedBundles(cfg, all, p);
        AllowedOfPackage(cfg, all, p, b.name);
      }
    }
  }

  // ----------------------------------------------------------------- channels

  /** Whether a kept package keeps the entry of channel ch that is bundle b. */
  ghost predicate KeepsEntry(cfg: Config, request: Option<IncludePackage>, ch: Channel, b: Bundle)
  {
    || request.None?
    || (request.value.bundles != [] && b.name in request.value.bundles)
    || (request.value.bundles == [] && Brings(cfg, request.value, ch, b))
  }

  lemma EntrySelectedIff(cfg: Config, all: seq<IncludePackage>, ch: Channel, b: Bundle)
    requires ClosedInput(cfg) && NamedEntries(cfg) && ch in cfg.channels && b in cfg.bundles && ch.pkg == b.pkg
    requires b.name in Names(ch.entries) && forall inc :: inc in all ==> UniqueChannels(inc)
    ensures b.name in SelectedIn(cfg, all, ch) <==> KeepsEntry(cfg, FindInclude(all, ch.pkg), ch, b)
  {
    var request := FindInclude(all, ch.pkg);
    ByUniqueName(cfg, b);
    assert ch.entries != [];
    assert HasChannelEntries(cfg, ch.pkg);
    if request.Some? && request.value.bundles == [] {
      FoundInclude(all, ch.pkg);
      SelectedIff(cfg, all, request.value, ch, b);
    }
  }

  /** The filtered catalog has channel ch with the entry of that name. */
  ghost predicate HasEntry(out: Config, ch: Channel, name: string)
  {
    exists t :: t in out.channels && t.pkg == ch.pkg && t.name == ch.name && name in Names(t.entries)
  }

  /** A channel of a kept package keeps exactly the entries its request keeps. */
  lemma EntryKeptIff(cfg: Config, all: seq<IncludePackage>, kept: set<string>, out: Config, ch: Channel, b: Bundle)
    requires ClosedInput(cfg) && NamedEntries(cfg) && IsFiltered(cfg, all, kept, out)
    requires ch in cfg.channels && b in cfg.bundles && ch.pkg == b.pkg && b.name in Names(ch.entries)
    requires forall inc :: inc in all ==> UniqueChannels(inc)
    ensures HasEntry(out, ch, b.name) <==> ch.pkg in kept && KeepsEntry(cfg, FindInclude(all, ch.pkg), ch, b)
  {
    EntrySelectedIff(cfg, all, ch, b);
    ChannelKeptIff(cfg, all, kept, out, ch, b.name);
  }

  lemma ChannelKeptIff(cfg: Config, all: seq<IncludePackage>, kept: set<string>, out: Config, ch: Channel, name: string)
    requires ClosedInput(cfg) && IsFiltered(cfg, all, kept, out) && ch in cfg.channels && name in Names(ch.entries)
    ensures HasEntry(out, ch, name) <==> ch.pkg in kept && name in SelectedIn(cfg, all, ch)
  {
    if HasEntry(out, ch, name) {
      EntryWasSelected(cfg, all, kept, out, ch, name);
    }
    if ch.pkg in kept && name in SelectedIn(cfg, all, ch) {
      SelectedStays(cfg, all, kept, out, ch, name);
    }
  }

  lemma EntryWasSelected(cfg: Config, all: seq<IncludePackage>, kept: set<string>, out: Config, ch: Channel, name: string)
    requires ClosedInput(cfg) && IsFiltered(cfg, all, kept, out) && ch in cfg.channels && HasEntry(out, ch, name)
    ensures ch.pkg in kept && name in SelectedIn(cfg, all, ch)
  {
    var t :| t in out.channels && t.pkg == ch.pkg && t.name == ch.name && name in Names(t.entries);
    var origin := TrimmedFrom(cfg, all, kept, out, t);
    SameChannelOf(cfg, origin, ch);
    TrimmedFacts(cfg, all, ch, t);
    AllowedEntriesOwn(cfg, all, ch);
  }

  /** The channel that a channel of the filtered catalog was cut down from. */
  lemma TrimmedFrom(cfg: Config, all: seq<IncludePackage>, kept: set<string>, out: Config, t: Channel) returns (ch: Channel)
    requires IsFiltered(cfg, all, kept, out) && t in out.channels
    ensures ch in cfg.channels && Survives(cfg, all, kept, ch) && Trimmed(cfg, all, ch, t)
    ensures ch.name == t.name && ch.pkg == t.pkg
  {
    var from := SurvivingChannels(cfg, all, kept, cfg.channels);
    SurvivingFacts(cfg, all, kept, cfg.channels);
    var i :| 0 <= i < |out.channels| && out.channels[i] == t;
    ch := from[i];
    assert ch in from;
  }

  lemma SelectedStays(cfg: Config, all: seq<IncludePackage>, kept: set<string>, out: Config, ch: Channel, name: string)
    requires ClosedInput(cfg) && IsFiltered(cfg, all, kept, out) && ch in cfg.channels && name in Names(ch.entries)
    requires ch.pkg in kept && name in SelectedIn(cfg, all, ch)
    ensures HasEntry(out, ch, name)
  {
    var from := SurvivingChannels(cfg, all, kept, cfg.channels);
    AllowedEntriesOwn(cfg, all, ch);
    SelectedSurvives(cfg, all, kept, ch, name);
    SurvivingFacts(cfg, all, kept, cfg.channels);
    var i :| 0 <= i < |from| && from[i] == ch;
    assert Trimmed(cfg, all, ch, out.channels[i]);
    TrimmedFacts(cfg, all, ch, out.channels[i]);
    assert out.channels[i] in out.channels;
  }

  lemma SelectedSurvives(cfg: Config, all: seq<IncludePackage>, kept: set<string>, ch: Channel, name: string)
    requires ch.pkg in kept && name in Names(ch.entries) && name in AllowedEntries(cfg, all, ch.pkg, ch.name)
    ensures Survives(cfg, all, kept, ch)
  {
    var sel := AllowedEntries(cfg, all, ch.pkg, ch.name);
    KeptEntriesFacts(ch.entries, sel);
    var e :| e in ch.entries && e.name == name;
    assert e in KeptEntries(ch.entries, sel);
  }

  lemma SameChannelOf(cfg: Config, a: Channel, b: Channel)
    requires ClosedInput(cfg) && a in cfg.channels && b in cfg.channels && a.pkg == b.pkg && a.name == b.name
    ensures a == b
  {
    var i :| 0 <= i < |cfg.channels| && cfg.channels[i] == a;
    var j :| 0 <= j < |cfg.channels| && cfg.channels[j] == b;
  }

  /** Versions are those of the bundles. */
  lemma VersionsAre(cfg: Config, b: Bundle)
    requires UniqueBundles(cfg) && b in cfg.bundles
    ensures b.name in VersionsOf(cfg) <==> b.version.Some?
    ensures b.version.Some? ==> VersionsOf(cfg)[b.name] == b.version.value
  {
    ByUniqueName(cfg, b);
  }
}

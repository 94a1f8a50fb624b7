/** Filtering of a file-based operator catalog (FilterFBC): the dependency
    closure of the requested packages, the entries kept per channel and the
    filtered catalog that is served from the mirror. */
module CatalogFilter {
  import opened Options
  import opened Text
  import opened Channels

  /** Bundle properties the filter reads; anything else, and any property whose
      value does not decode, is Other. */
  datatype Property =
    | PackageRequired(pkg: string)
    | GvkRequired(gvk: string)
    | Gvk(gvk: string)
    | Other

  /** version is the semver rank of the bundle, None when missing or unparseable. */
  datatype Bundle =
    Bundle(name: string, pkg: string, image: string, relatedImages: seq<string>,
           properties: seq<Property>, version: Option<int>)
  datatype Channel = Channel(name: string, pkg: string, entries: seq<ChannelEntry>)
  datatype Package = Package(name: string, defaultChannel: string)
  datatype Config = Config(packages: seq<Package>, channels: seq<Channel>, bundles: seq<Bundle>)

  /** Version bounds are None when unset or unparseable. */
  datatype IncludeChannel =
    IncludeChannel(name: string, minVersion: Option<int>, maxVersion: Option<int>)
  datatype IncludePackage =
    IncludePackage(name: string, minVersion: Option<int>, maxVersion: Option<int>,
                   channels: seq<IncludeChannel>, bundles: seq<string>, previousVersions: int)

  datatype FilterResult = Filtered(config: Config) | BundleNotFound(pkg: string, bundle: string)

  // ------------------------------------------------------------------ indexes

  function CatalogPackages(cfg: Config): set<string>
  {
    set p | p in cfg.packages :: p.name
  }

  /** Bundles by name; a later bundle of the same name wins. */
  function BundlesByName(bundles: seq<Bundle>): map<string, Bundle>
  {
    if bundles == [] then map[] else
      var last := bundles[|bundles| - 1];
      BundlesByName(bundles[..|bundles| - 1])[last.name := last]
  }

  function VersionsOf(cfg: Config): Versions
  {
    var byName := BundlesByName(cfg.bundles);
    map n | n in byName && byName[n].version.Some? :: byName[n].version.value
  }

  predicate HasChannelEntries(cfg: Config, pkg: string)
  {
    exists ch :: ch in cfg.channels && ch.pkg == pkg && ch.entries != []
  }

  /** Packages with a bundle that provides the given group/version/kind. */
  function Providers(cfg: Config, gvk: string): set<string>
  {
    set b | b in cfg.bundles && Gvk(gvk) in b.properties :: b.pkg
  }

  // ----------------------------------------------------------------- includes

  function IncludeNames(includes: seq<IncludePackage>): set<string>
  {
    set inc | inc in includes :: inc.name
  }

  /** The first request for each package. */
  function Requested(includes: seq<IncludePackage>): seq<IncludePackage>
  {
    if includes == [] then [] else
      var last, front := includes[|includes| - 1], Requested(includes[..|includes| - 1]);
      if last.name in IncludeNames(front) then front else front + [last]
  }

  predicate HasSuffix(s: string, suffix: string)
  {
    |suffix| <= |s| && s[|s| - |suffix|..] == suffix
  }

  const OPERATOR_SUFFIX := "-operator"

  function CompanionNames(name: string): seq<string>
  {
    [name + "-dependencies", name + "-dependency", name + "-deps"] +
    (if HasSuffix(name, OPERATOR_SUFFIX)
     then [name[..|name| - |OPERATOR_SUFFIX|] + "-dependencies"] else [])
  }

  function HeadsOnly(name: string): IncludePackage
  {
    IncludePackage(name, None, None, [], [], 0)
  }

  /** Adds the first companion name that exists and is not included yet. */
  function AddCompanion(candidates: seq<string>, catalog: set<string>, acc: seq<IncludePackage>):
    seq<IncludePackage>
  {
    if candidates == [] then acc
    else if candidates[0] in catalog && candidates[0] !in IncludeNames(acc) then acc + [HeadsOnly(candidates[0])]
    else AddCompanion(candidates[1..], catalog, acc)
  }

  function AddCompanions(includes: seq<IncludePackage>, catalog: set<string>, acc: seq<IncludePackage>):
    seq<IncludePackage>
  {
    if includes == [] then acc
    else AddCompanions(includes[1..], catalog, AddCompanion(CompanionNames(includes[0].name), catalog, acc))
  }

  /** The requests the filter works with: one per package, companions last. */
  function AllIncludes(cfg: Config, includes: seq<IncludePackage>): seq<IncludePackage>
  {
    AddCompanions(includes, CatalogPackages(cfg), Requested(includes))
  }

  function FindInclude(all: seq<IncludePackage>, pkg: string): Option<IncludePackage>
  {
    if all == [] then None
    else if all[|all| - 1].name == pkg then Some(all[|all| - 1])
    else FindInclude(all[..|all| - 1], pkg)
  }

  /** The first bundle selected by name that the package does not have. */
  function MissingIn(cfg: Config, pkg: string, names: seq<string>): Option<string>
  {
    if names == [] then None
    else
      var byName := BundlesByName(cfg.bundles);
      if names[0] !in byName || byName[names[0]].pkg != pkg then Some(names[0])
      else MissingIn(cfg, pkg, names[1..])
  }

  function FirstMissing(cfg: Config, all: seq<IncludePackage>): Option<(string, string)>
  {
    if all == [] then None else
      var m := MissingIn(cfg, all[0].name, all[0].bundles);
      if m.Some? then Some((all[0].name, m.value)) else FirstMissing(cfg, all[1..])
  }

  // ---------------------------------------------------------------- selection

  /** Channel bounds take priority over package bounds, each end on its own. */
  function EffectiveRange(inc: IncludePackage, channel: string): (Option<int>, Option<int>)
  {
    var cf := FindChannel(inc.channels, channel);
    (if cf.Some? && cf.value.minVersion.Some? then cf.value.minVersion else inc.minVersion,
     if cf.Some? && cf.value.maxVersion.Some? then cf.value.maxVersion else inc.maxVersion)
  }

  function FindChannel(channels: seq<IncludeChannel>, name: string): Option<IncludeChannel>
  {
    if channels == [] then None
    else if channels[|channels| - 1].name == name then Some(channels[|channels| - 1])
    else FindChannel(channels[..|channels| - 1], name)
  }

  predicate InRange(b: Bundle, range: (Option<int>, Option<int>))
  {
    b.version.Some? ==>
      (range.0.Some? ==> range.0.value <= b.version.value) &&
      (range.1.Some? ==> b.version.value <= range.1.value)
  }

  predicate IsHeadsOnly(inc: IncludePackage)
  {
    inc.channels == [] && inc.minVersion.None? && inc.maxVersion.None?
  }

  predicate ChannelWanted(inc: IncludePackage, channel: string)
  {
    inc.channels == [] || exists c :: c in inc.channels && c.name == channel
  }

  /** Entry names of channel ch that are selected for its package. */
  function SelectedIn(cfg: Config, all: seq<IncludePackage>, ch: Channel): set<string>
  {
    var inc, byName := FindInclude(all, ch.pkg), BundlesByName(cfg.bundles);
    if inc.Some? && inc.value.bundles != [] then
      set e | e in ch.entries && e.name in inc.value.bundles :: e.name
    else if !HasChannelEntries(cfg, ch.pkg) then {}
    else if inc.Some? && IsHeadsOnly(inc.value) then
      set n | n in HeadPlusN(ch.entries, inc.value.previousVersions, VersionsOf(cfg))
    else if inc.Some? then
      if !ChannelWanted(inc.value, ch.name) then {} else
        set e | e in ch.entries && e.name in byName &&
                InRange(byName[e.name], EffectiveRange(inc.value, ch.name)) :: e.name
    else
      set e | e in ch.entries && e.name in byName :: e.name
  }

  /** Selected entries of every channel of that package and name. */
  function AllowedEntries(cfg: Config, all: seq<IncludePackage>, pkg: string, channel: string): set<string>
  {
    set ch, n | ch in cfg.channels && ch.pkg == pkg && ch.name == channel && n in SelectedIn(cfg, all, ch) :: n
  }

  function BundlesOfPackage(cfg: Config, pkg: string): set<string>
  {
    set b | b in cfg.bundles && b.pkg == pkg :: b.name
  }

  /** Names of the bundles kept for one package. */
  function AllowedBundles(cfg: Config, all: seq<IncludePackage>, pkg: string): set<string>
  {
    var inc := FindInclude(all, pkg);
    if inc.Some? && inc.value.bundles != [] then set n | n in inc.value.bundles
    else if inc.None? || !HasChannelEntries(cfg, pkg) then BundlesOfPackage(cfg, pkg)
    else set ch, n | ch in cfg.channels && ch.pkg == pkg && n in SelectedIn(cfg, all, ch) :: n
  }

  /** Packages one property asks for. */
  function AskedBy(cfg: Config, p: Property): set<string>
  {
    match p
    case PackageRequired(pkg) => if pkg == "" then {} else {pkg} * CatalogPackages(cfg)
    case GvkRequired(gvk) => Providers(cfg, gvk) * CatalogPackages(cfg)
    case _ => {}
  }

  function AskedByBundle(cfg: Config, name: string): set<string>
  {
    var byName := BundlesByName(cfg.bundles);
    if name !in byName then {}
    else set p, r | p in byName[name].properties && r in AskedBy(cfg, p) :: r
  }

  /** Packages required by the bundles kept for pkg. */
  function Requires(cfg: Config, all: seq<IncludePackage>, pkg: string): set<string>
  {
    set n, r | n in AllowedBundles(cfg, all, pkg) && r in AskedByBundle(cfg, n) :: r
  }

  ghost predicate Closed(cfg: Config, all: seq<IncludePackage>, pkgs: set<string>)
  {
    forall p :: p in pkgs ==> Requires(cfg, all, p) <= pkgs
  }

  /** pkgs is the least set that contains the requested packages and is closed
      under requirements. */
  ghost predicate LeastClosure(cfg: Config, all: seq<IncludePackage>, pkgs: set<string>)
  {
    && IncludeNames(all) <= pkgs
    && Closed(cfg, all, pkgs)
    && forall t :: IncludeNames(all) <= t && Closed(cfg, all, t) ==> pkgs <= t
  }

  lemma LeastClosureUnique(cfg: Config, all: seq<IncludePackage>, a: set<string>, b: set<string>)
    requires LeastClosure(cfg, all, a) && LeastClosure(cfg, all, b)
    ensures a == b
  {
  }

  // ------------------------------------------------------------ BFS discovery

  /** Queues every wanted package that is not known yet, in any order. */
  method Discover(wanted: set<string>, known: set<string>, queue: seq<string>)
    returns (known': set<string>, queue': seq<string>)
    ensures known' == known + wanted
    ensures queue <= queue'
    ensures forall p :: p in queue' <==> p in queue || p in wanted - known
  {
    known', queue' := known, queue;
    var todo := wanted;
    while todo != {}
      invariant todo <= wanted
      invariant known' == known + (wanted - todo)
      invariant queue <= queue'
      invariant forall p :: p in queue' <==> p in queue || p in (wanted - todo) - known
    {
      var p :| p in todo;
      if p !in known' {
        known' := known' + {p};
        queue' := queue' + [p];
      }
      todo := todo - {p};
    }
  }

  /** Walks the properties of every kept bundle of one package. */
  method DiscoverRequirements(cfg: Config, names: set<string>, known: set<string>, queue: seq<string>)
    returns (known': set<string>, queue': seq<string>)
    ensures
      var asked := set n, r | n in names && r in AskedByBundle(cfg, n) :: r;
      known' == known + asked && forall p :: p in queue' <==> p in queue || p in asked - known
  {
    known', queue' := known, queue;
    var byName := BundlesByName(cfg.bundles);
    var todo := names;
    ghost var done: set<string> := {};
    while todo != {}
      invariant todo <= names
      invariant done == set n, r | n in names - todo && r in AskedByBundle(cfg, n) :: r
      invariant known' == known + done
      invariant forall p :: p in queue' <==> p in queue || p in done - known
    {
      var n :| n in todo;
      if n in byName {
        var props := byName[n].properties;
        ghost var seen: set<string> := {};
        for i := 0 to |props|
          invariant seen == set p, r | p in props[..i] && r in AskedBy(cfg, p) :: r
          invariant known' == known + done + seen
          invariant forall p :: p in queue' <==> p in queue || p in (done + seen) - known
        {
          known', queue' := Discover(AskedBy(cfg, props[i]), known', queue');
          assert props[..i + 1] == props[..i] + [props[i]];
          seen := seen + AskedBy(cfg, props[i]);
        }
        assert props[..|props|] == props;
        assert seen == AskedByBundle(cfg, n);
      }
      todo := todo - {n};
      done := done + AskedByBundle(cfg, n);
    }
  }

  method SetToSeq(s: set<string>) returns (q: seq<string>)
    ensures forall p :: p in q <==> p in s
  {
    q := [];
    var todo := s;
    while todo != {}
      invariant todo <= s
      invariant forall p :: p in q <==> p in s - todo
    {
      var p :| p in todo;
      q := q + [p];
      todo := todo - {p};
    }
  }

  ghost predicate BelowEveryClosure(cfg: Config, all: seq<IncludePackage>, pkgs: set<string>)
  {
    forall t :: IncludeNames(all) <= t && Closed(cfg, all, t) ==> pkgs <= t
  }

  lemma StaysBelow(cfg: Config, all: seq<IncludePackage>, pkgs: set<string>, p: string)
    requires BelowEveryClosure(cfg, all, pkgs) && p in pkgs
    ensures BelowEveryClosure(cfg, all, pkgs + Requires(cfg, all, p))
  {
  }

  /** Names of the bundles kept for a set of packages. */
  ghost function AllowedFor(cfg: Config, all: seq<IncludePackage>, pkgs: set<string>): set<string>
  {
    set p, n | p in pkgs && n in AllowedBundles(cfg, all, p) :: n
  }

  lemma AllowedForMore(cfg: Config, all: seq<IncludePackage>, pkgs: set<string>, p: string)
    ensures AllowedFor(cfg, all, pkgs + {p}) == AllowedFor(cfg, all, pkgs) + AllowedBundles(cfg, all, p)
  {
  }

  ghost predicate RequirementsMet(cfg: Config, all: seq<IncludePackage>, pkgs: set<string>, within: set<string>)
  {
    forall p :: p in pkgs ==> Requires(cfg, all, p) <= within
  }

  lemma RequirementsMetMore(cfg: Config, all: seq<IncludePackage>, pkgs: set<string>, within: set<string>, p: string)
    requires RequirementsMet(cfg, all, pkgs, within)
    ensures RequirementsMet(cfg, all, pkgs + {p}, within + Requires(cfg, all, p))
  {
  }

  lemma RequiresInCatalog(cfg: Config, all: seq<IncludePackage>, p: string)
    ensures Requires(cfg, all, p) <= CatalogPackages(cfg)
  {
  }

  /** Whether the entry of that name is selected in a channel whose package is not
      cut down to its heads. */
  predicate EntrySelected(cfg: Config, inc: Option<IncludePackage>, channel: string, name: string)
  {
    var byName := BundlesByName(cfg.bundles);
    if inc.Some? && inc.value.bundles != [] then name in inc.value.bundles
    else if inc.Some? then
      ChannelWanted(inc.value, channel) && name in byName && InRange(byName[name], EffectiveRange(inc.value, channel))
    else name in byName
  }

  /** Marks the selected entries of one channel. */
  method SelectChannel(cfg: Config, all: seq<IncludePackage>, ch: Channel) returns (sel: set<string>)
    ensures sel == SelectedIn(cfg, all, ch)
  {
    var inc := FindInclude(all, ch.pkg);
    var byName := inc.Some? && inc.value.bundles != [];
    if !byName && !HasChannelEntries(cfg, ch.pkg) {
      return {};
    }
    if !byName && inc.Some? && IsHeadsOnly(inc.value) {
      var names := ChannelHeadPlusN(ch.entries, inc.value.previousVersions, VersionsOf(cfg));
      return set n | n in names;
    }
    sel := {};
    for i := 0 to |ch.entries|
      invariant sel == set e | e in ch.entries[..i] && EntrySelected(cfg, inc, ch.name, e.name) :: e.name
    {
      assert ch.entries[..i + 1] == ch.entries[..i] + [ch.entries[i]];
      if EntrySelected(cfg, inc, ch.name, ch.entries[i].name) {
        sel := sel + {ch.entries[i].name};
      }
    }
    assert ch.entries[..|ch.entries|] == ch.entries;
  }

  /** Marks the selected entries of every channel of one package; channel None
      means all of them. */
  method SelectEntries(cfg: Config, all: seq<IncludePackage>, pkg: string, channel: Option<string>)
    returns (sel: set<string>)
    ensures sel == set ch, n | ch in cfg.channels && ch.pkg == pkg && (channel.Some? ==> ch.name == channel.value) &&
                               n in SelectedIn(cfg, all, ch) :: n
  {
    sel := {};
    for i := 0 to |cfg.channels|
      invariant sel == set ch, n |
        ch in cfg.channels[..i] && ch.pkg == pkg && (channel.Some? ==> ch.name == channel.value) &&
        n in SelectedIn(cfg, all, ch) :: n
    {
      var ch := cfg.channels[i];
      assert cfg.channels[..i + 1] == cfg.channels[..i] + [ch];
      if ch.pkg == pkg && (channel.Some? ==> ch.name == channel.value) {
        var more := SelectChannel(cfg, all, ch);
        sel := sel + more;
      }
    }
    assert cfg.channels[..|cfg.channels|] == cfg.channels;
  }

  method SelectBundles(cfg: Config, all: seq<IncludePackage>, pkg: string) returns (names: set<string>)
    ensures names == AllowedBundles(cfg, all, pkg)
  {
    var inc := FindInclude(all, pkg);
    if inc.Some? && inc.value.bundles != [] {
      return set n | n in inc.value.bundles;
    }
    if inc.None? || !HasChannelEntries(cfg, pkg) {
      return BundlesOfPackage(cfg, pkg);
    }
    names := SelectEntries(cfg, all, pkg, None);
  }

  /** Selects the bundles of one package and queues what they require. */
  method VisitPackage(cfg: Config, all: seq<IncludePackage>, current: string, known: set<string>, queue: seq<string>)
    returns (names: set<string>, known': set<string>, queue': seq<string>)
    ensures names == AllowedBundles(cfg, all, current)
    ensures known' == known + Requires(cfg, all, current)
    ensures forall p :: p in queue' <==> p in queue || p in known' - known
  {
    names := SelectBundles(cfg, all, current);
    known', queue' := DiscoverRequirements(cfg, names, known, queue);
  }

  /** The breadth-first search over packages, from any order of the requests. */
  method ResolveDependencies(cfg: Config, all: seq<IncludePackage>)
    returns (kept: set<string>, allowed: set<string>)
    ensures LeastClosure(cfg, all, kept)
    ensures allowed == AllowedFor(cfg, all, kept)
  {
    kept, allowed := IncludeNames(all), {};
    var queue := SetToSeq(kept);
    var processed: set<string> := {};
    ghost var universe := kept + CatalogPackages(cfg);
    while queue != []
      invariant IncludeNames(all) <= kept <= universe
      invariant processed <= kept
      invariant forall p :: p in queue ==> p in kept
      invariant forall p :: p in kept ==> p in processed || p in queue
      invariant RequirementsMet(cfg, all, processed, kept)
      invariant BelowEveryClosure(cfg, all, kept)
      invariant allowed == AllowedFor(cfg, all, processed)
      decreases universe - processed, |queue|
    {
      var current := queue[0];
      assert queue == [current] + queue[1..];
      queue := queue[1..];
      if current !in processed {
        StaysBelow(cfg, all, kept, current);
        AllowedForMore(cfg, all, processed, current);
        RequirementsMetMore(cfg, all, processed, kept, current);
        RequiresInCatalog(cfg, all, current);
        var names;
        names, kept, queue := VisitPackage(cfg, all, current, kept, queue);
        processed := processed + {current};
        allowed := allowed + names;
      }
    }
    assert processed == kept;
  }

  // --------------------------------------------------------- filtered catalog

  predicate SelectedByName(all: seq<IncludePackage>, pkg: string)
  {
    var inc := FindInclude(all, pkg);
    inc.Some? && inc.value.bundles != []
  }

  predicate Survives(cfg: Config, all: seq<IncludePackage>, kept: set<string>, ch: Channel)
  {
    ch.pkg in kept && KeptEntries(ch.entries, AllowedEntries(cfg, all, ch.pkg, ch.name)) != []
  }

  function SurvivingChannels(cfg: Config, all: seq<IncludePackage>, kept: set<string>, chs: seq<Channel>): seq<Channel>
  {
    if chs == [] then [] else
      var last := chs[|chs| - 1];
      SurvivingChannels(cfg, all, kept, chs[..|chs| - 1]) + (if Survives(cfg, all, kept, last) then [last] else [])
  }

  /** trimmed is channel ch cut down to its selected entries, its graph
      repaired and, for bundles picked by name, its heads merged. */
  ghost predicate Trimmed(cfg: Config, all: seq<IncludePackage>, ch: Channel, trimmed: Channel)
  {
    && trimmed.name == ch.name && trimmed.pkg == ch.pkg
    && exists repaired :: Repaired(ch.entries, AllowedEntries(cfg, all, ch.pkg, ch.name), repaired) &&
        trimmed.entries == (if SelectedByName(all, ch.pkg) then MergedHeads(repaired, VersionsOf(cfg)) else repaired)
  }

  ghost predicate TrimmedChannels(cfg: Config, all: seq<IncludePackage>, from: seq<Channel>, out: seq<Channel>)
  {
    |out| == |from| && forall i :: 0 <= i < |from| ==> Trimmed(cfg, all, from[i], out[i])
  }

  function SurvivingNames(chs: seq<Channel>, pkg: string): set<string>
  {
    set ch | ch in chs && ch.pkg == pkg :: ch.name
  }

  /** The default channel: unchanged if it survived or nothing did, otherwise
      the least surviving name. */
  ghost predicate DefaultChosen(p: Package, out: Package, survived: set<string>)
  {
    out.name == p.name &&
    if survived == {} || p.defaultChannel in survived then out == p
    else out.defaultChannel in survived &&
         forall n :: n in survived && n != out.defaultChannel ==> LexLess(out.defaultChannel, n)
  }

  function PackagesIn(packages: seq<Package>, kept: set<string>): seq<Package>
  {
    if packages == [] then [] else
      var last := packages[|packages| - 1];
      PackagesIn(packages[..|packages| - 1], kept) + (if last.name in kept then [last] else [])
  }

  ghost predicate PackagesChosen(from: seq<Package>, out: seq<Package>, chs: seq<Channel>)
  {
    |out| == |from| &&
    forall i :: 0 <= i < |from| ==> DefaultChosen(from[i], out[i], SurvivingNames(chs, from[i].name))
  }

  function BundlesIn(bundles: seq<Bundle>, allowed: set<string>): seq<Bundle>
  {
    if bundles == [] then [] else
      var last := bundles[|bundles| - 1];
      BundlesIn(bundles[..|bundles| - 1], allowed) + (if last.name in allowed then [last] else [])
  }

  /** out is the filtered catalog for the requests all. */
  ghost predicate IsFiltered(cfg: Config, all: seq<IncludePackage>, kept: set<string>, out: Config)
  {
    && LeastClosure(cfg, all, kept)
    && TrimmedChannels(cfg, all, SurvivingChannels(cfg, all, kept, cfg.channels), out.channels)
    && PackagesChosen(PackagesIn(cfg.packages, kept), out.packages, out.channels)
    && out.bundles == BundlesIn(cfg.bundles, AllowedFor(cfg, all, kept))
  }

  method TrimChannels(cfg: Config, all: seq<IncludePackage>, kept: set<string>) returns (out: seq<Channel>)
    ensures TrimmedChannels(cfg, all, SurvivingChannels(cfg, all, kept, cfg.channels), out)
  {
    out := [];
    for i := 0 to |cfg.channels|
      invariant TrimmedChannels(cfg, all, SurvivingChannels(cfg, all, kept, cfg.channels[..i]), out)
    {
      var ch := cfg.channels[i];
      assert cfg.channels[..i + 1][..i] == cfg.channels[..i];
      var survives, trimmed := TrimChannel(cfg, all, kept, ch);
      if survives {
        out := out + [trimmed];
      }
    }
    assert cfg.channels[..|cfg.channels|] == cfg.channels;
  }

  method TrimChannel(cfg: Config, all: seq<IncludePackage>, kept: set<string>, ch: Channel)
    returns (survives: bool, trimmed: Channel)
    ensures survives == Survives(cfg, all, kept, ch)
    ensures survives ==> Trimmed(cfg, all, ch, trimmed)
  {
    trimmed := ch;
    if ch.pkg !in kept {
      return false, ch;
    }
    var sel := SelectEntries(cfg, all, ch.pkg, Some(ch.name));
    assert sel == AllowedEntries(cfg, all, ch.pkg, ch.name);
    if sel == {} {
      NothingSelected(ch.entries);
      return false, ch;
    }
    var entries := RepairChannelGraph(ch.entries, sel);
    if entries == [] {
      return false, ch;
    }
    if SelectedByName(all, ch.pkg) {
      var merged := MergeChannelHeads(entries, VersionsOf(cfg));
      trimmed := Channel(ch.name, ch.pkg, merged);
    } else {
      trimmed := Channel(ch.name, ch.pkg, entries);
    }
    survives := true;
  }

  /** The least name of a nonempty set, as sorting and taking the first does. */
  method LeastName(names: set<string>) returns (least: string)
    requires names != {}
    ensures least in names && forall n :: n in names && n != least ==> LexLess(least, n)
  {
    least :| least in names;
    var todo := names - {least};
    while todo != {}
      invariant todo <= names && least in names - todo
      invariant forall n :: n in names - todo && n != least ==> LexLess(least, n)
    {
      var n :| n in todo;
      LexTotal(least, n);
      if LexLess(n, least) {
        forall k | k in names - todo && k != n ensures LexLess(n, k)
        {
          if k != least { LexTransitive(n, least, k); }
        }
        least := n;
      }
      todo := todo - {n};
    }
  }

  method ChoosePackages(cfg: Config, kept: set<string>, chs: seq<Channel>) returns (out: seq<Package>)
    ensures PackagesChosen(PackagesIn(cfg.packages, kept), out, chs)
  {
    out := [];
    for i := 0 to |cfg.packages|
      invariant PackagesChosen(PackagesIn(cfg.packages[..i], kept), out, chs)
    {
      var p := cfg.packages[i];
      assert cfg.packages[..i + 1][..i] == cfg.packages[..i];
      if p.name in kept {
        var survived := SurvivingNames(chs, p.name);
        if survived != {} && p.defaultChannel !in survived {
          var least := LeastName(survived);
          p := Package(p.name, least);
        }
        out := out + [p];
      }
    }
    assert cfg.packages[..|cfg.packages|] == cfg.packages;
  }

  method KeepBundles(bundles: seq<Bundle>, allowed: set<string>) returns (out: seq<Bundle>)
    ensures out == BundlesIn(bundles, allowed)
  {
    out := [];
    for i := 0 to |bundles|
      invariant out == BundlesIn(bundles[..i], allowed)
    {
      assert bundles[..i + 1][..i] == bundles[..i];
      if bundles[i].name in allowed {
        out := out + [bundles[i]];
      }
    }
    assert bundles[..|bundles|] == bundles;
  }

  method FilterFBC(cfg: Config, includes: seq<IncludePackage>) returns (result: FilterResult)
    ensures includes == [] ==> result == Filtered(cfg)
    ensures includes != [] ==>
      match FirstMissing(cfg, AllIncludes(cfg, includes))
      case Some((pkg, bundle)) => result == BundleNotFound(pkg, bundle)
      case None => (result.Filtered? &&
        exists kept :: IsFiltered(cfg, AllIncludes(cfg, includes), kept, result.config))
  {
    if includes == [] {
      return Filtered(cfg);
    }
    var all := AllIncludes(cfg, includes);
    var missing := FirstMissing(cfg, all);
    if missing.Some? {
      return BundleNotFound(missing.value.0, missing.value.1);
    }
    var kept, allowed := ResolveDependencies(cfg, all);
    var channels := TrimChannels(cfg, all, kept);
    var packages := ChoosePackages(cfg, kept, channels);
    var bundles := KeepBundles(cfg.bundles, allowed);
    result := Filtered(Config(packages, channels, bundles));
    assert IsFiltered(cfg, all, kept, result.config);
  }

  // ----------------------------------------------------------- self-contained

  /** Every channel entry has its bundle, of the channel's own package, and
      entry, channel and bundle names are unique. */
  ghost predicate ClosedInput(cfg: Config)
  {
    && (forall i, j :: 0 <= i < j < |cfg.bundles| ==> cfg.bundles[i].name != cfg.bundles[j].name)
    && (forall i, j :: 0 <= i < j < |cfg.channels| ==>
          cfg.channels[i].pkg != cfg.channels[j].pkg || cfg.channels[i].name != cfg.channels[j].name)
    && (forall ch, e :: ch in cfg.channels && e in ch.entries ==>
          exists b :: b in cfg.bundles && b.name == e.name && b.pkg == ch.pkg)
    && (forall ch :: ch in cfg.channels ==> UniqueNames(ch.entries))
  }

  /** The catalog the mirror serves: no empty channel, no entry without its
      bundle, no upgrade edge leaving the channel, no dangling default. */
  ghost predicate SelfContained(out: Config)
  {
    && (forall ch :: ch in out.channels ==> ch.entries != [])
    && (forall ch, e :: ch in out.channels && e in ch.entries ==>
          && (exists b :: b in out.bundles && b.name == e.name)
          && (e.replacing == "" || e.replacing in Names(ch.entries)))
    && (forall p :: p in out.packages ==>
          SurvivingNames(out.channels, p.name) == {} || p.defaultChannel in SurvivingNames(out.channels, p.name))
  }

  lemma {:induction false} SurvivingFacts(cfg: Config, all: seq<IncludePackage>, kept: set<string>, chs: seq<Channel>)
    ensures forall ch :: ch in SurvivingChannels(cfg, all, kept, chs) <==> ch in chs && Survives(cfg, all, kept, ch)
  {
    if chs != [] {
      SurvivingFacts(cfg, all, kept, chs[..|chs| - 1]);
      assert chs == chs[..|chs| - 1] + [chs[|chs| - 1]];
    }
  }

  lemma {:induction false} BundlesInFacts(bundles: seq<Bundle>, allowed: set<string>)
    ensures forall b :: b in BundlesIn(bundles, allowed) <==> b in bundles && b.name in allowed
  {
    if bundles != [] {
      BundlesInFacts(bundles[..|bundles| - 1], allowed);
      assert bundles == bundles[..|bundles| - 1] + [bundles[|bundles| - 1]];
    }
  }

  lemma {:induction false} BundlesByNameFacts(bundles: seq<Bundle>)
    ensures forall b :: b in bundles ==> b.name in BundlesByName(bundles)
    ensures forall n :: n in BundlesByName(bundles) ==>
      BundlesByName(bundles)[n] in bundles && BundlesByName(bundles)[n].name == n
  {
    if bundles != [] {
      BundlesByNameFacts(bundles[..|bundles| - 1]);
      assert bundles == bundles[..|bundles| - 1] + [bundles[|bundles| - 1]];
    }
  }

  /** What is selected in a channel is an entry of it and a kept bundle. */
  lemma SelectedInFacts(cfg: Config, all: seq<IncludePackage>, ch: Channel, n: string)
    requires ch in cfg.channels && n in SelectedIn(cfg, all, ch)
    requires forall e :: e in ch.entries ==> exists b :: b in cfg.bundles && b.name == e.name && b.pkg == ch.pkg
    ensures n in Names(ch.entries)
    ensures n in AllowedBundles(cfg, all, ch.pkg)
  {
    var inc := FindInclude(all, ch.pkg);
    if inc.Some? && inc.value.bundles != [] {
    } else if inc.Some? && IsHeadsOnly(inc.value) {
      HeadPlusNSelects(ch.entries, inc.value.previousVersions, VersionsOf(cfg));
    } else if inc.None? {
      var e :| e in ch.entries && e.name == n;
      var b :| b in cfg.bundles && b.name == e.name && b.pkg == ch.pkg;
      assert b.name in BundlesOfPackage(cfg, ch.pkg);
    }
  }

  /** With one channel per name, a channel keeps exactly its own selection. */
  lemma AllowedEntriesOwn(cfg: Config, all: seq<IncludePackage>, ch: Channel)
    requires ClosedInput(cfg) && ch in cfg.channels
    ensures AllowedEntries(cfg, all, ch.pkg, ch.name) == SelectedIn(cfg, all, ch)
  {
    forall c | c in cfg.channels && c.pkg == ch.pkg && c.name == ch.name ensures c == ch
    {
      var i :| 0 <= i < |cfg.channels| && cfg.channels[i] == c;
      var j :| 0 <= j < |cfg.channels| && cfg.channels[j] == ch;
    }
  }

  /** Trimming keeps exactly the selected names and only edges between them. */
  lemma TrimmedFacts(cfg: Config, all: seq<IncludePackage>, ch: Channel, t: Channel)
    requires Trimmed(cfg, all, ch, t)
    ensures
      var sel := AllowedEntries(cfg, all, ch.pkg, ch.name);
      && Names(t.entries) == Names(ch.entries) * sel
      && forall e :: e in t.entries ==> e.replacing == "" || e.replacing in sel
  {
    var sel := AllowedEntries(cfg, all, ch.pkg, ch.name);
    var repaired :| Repaired(ch.entries, sel, repaired) &&
      t.entries == (if SelectedByName(all, ch.pkg) then MergedHeads(repaired, VersionsOf(cfg)) else repaired);
    RepairedSupersedes(ch.entries, sel, repaired);
    RepairedReplacesKept(ch.entries, sel, repaired);
    if |Heads(repaired, Superseded(repaired))| > 1 {
      MergedNames(repaired, VersionsOf(cfg));
      MergedReplaces(repaired, VersionsOf(cfg));
    }
  }

  lemma RepairedReplacesKept(original: seq<ChannelEntry>, sel: set<string>, repaired: seq<ChannelEntry>)
    requires Repaired(original, sel, repaired)
    ensures forall e :: e in repaired ==> e.replacing == "" || e.replacing in sel
  {
    forall e | e in repaired ensures e.replacing == "" || e.replacing in sel
    {
      var i :| 0 <= i < |repaired| && repaired[i] == e;
      assert RepairedEntry(EntryByName(original), sel, KeptEntries(original, sel)[i], e);
    }
  }

  lemma MergedReplaces(entries: seq<ChannelEntry>, versions: Versions)
    ensures forall e :: e in MergedHeads(entries, versions) ==>
      exists o :: o in entries && o.name == e.name && o.replacing == e.replacing
  {
    var out := MergedHeads(entries, versions);
    forall e | e in out ensures exists o :: o in entries && o.name == e.name && o.replacing == e.replacing
    {
      var i :| 0 <= i < |out| && out[i] == e;
      assert entries[i] in entries;
    }
  }

  /** On closed input with unique names the filtered catalog is self-contained. */
  lemma FilteredSelfContained(cfg: Config, all: seq<IncludePackage>, kept: set<string>, out: Config)
    requires ClosedInput(cfg) && IsFiltered(cfg, all, kept, out)
    ensures SelfContained(out)
  {
    var from := SurvivingChannels(cfg, all, kept, cfg.channels);
    SurvivingFacts(cfg, all, kept, cfg.channels);
    forall t | t in out.channels
      ensures t.entries != []
      ensures forall e :: e in t.entries ==>
        (exists b :: b in out.bundles && b.name == e.name) && (e.replacing == "" || e.replacing in Names(t.entries))
    {
      var i :| 0 <= i < |out.channels| && out.channels[i] == t;
      assert from[i] in from;
      TrimmedSelfContained(cfg, all, kept, out, from[i], t);
    }
    forall p | p in out.packages
      ensures SurvivingNames(out.channels, p.name) == {} || p.defaultChannel in SurvivingNames(out.channels, p.name)
    {
      var i :| 0 <= i < |out.packages| && out.packages[i] == p;
      assert DefaultChosen(PackagesIn(cfg.packages, kept)[i], p, SurvivingNames(out.channels, p.name));
    }
  }

  lemma TrimmedSelfContained(cfg: Config, all: seq<IncludePackage>, kept: set<string>, out: Config, ch: Channel, t: Channel)
    requires ClosedInput(cfg) && IsFiltered(cfg, all, kept, out)
    requires ch in cfg.channels && Survives(cfg, all, kept, ch) && Trimmed(cfg, all, ch, t)
    ensures t.entries != []
    ensures forall e :: e in t.entries ==>
      (exists b :: b in out.bundles && b.name == e.name) && (e.replacing == "" || e.replacing in Names(t.entries))
  {
    var sel := AllowedEntries(cfg, all, ch.pkg, ch.name);
    TrimmedFacts(cfg, all, ch, t);
    AllowedEntriesOwn(cfg, all, ch);
    KeptEntriesFacts(ch.entries, sel);
    var k := KeptEntries(ch.entries, sel)[0];
    assert k in KeptEntries(ch.entries, sel);
    assert k.name in Names(t.entries);
    forall n | n in sel ensures n in Names(t.entries)
    {
      SelectedInFacts(cfg, all, ch, n);
    }
    forall e | e in t.entries ensures exists b :: b in out.bundles && b.name == e.name
    {
      assert e.name in Names(t.entries);
      SelectedInFacts(cfg, all, ch, e.name);
      BundlesInFacts(cfg.bundles, AllowedFor(cfg, all, kept));
      var o :| o in ch.entries && o.name == e.name;
      var b :| b in cfg.bundles && b.name == o.name && b.pkg == ch.pkg;
      assert b.name in AllowedFor(cfg, all, kept);
      assert b in out.bundles;
    }
  }

  // ----------------------------------------------------------- channel heads

  /** In the filtered catalog, every channel of a heads-only package that had an
      unsuperseded entry has exactly one head, the chosen one. */
  lemma FilteredHeadsOnlySingleHead(cfg: Config, all: seq<IncludePackage>, ch: Channel, t: Channel)
    requires ClosedInput(cfg) && ch in cfg.channels && Trimmed(cfg, all, ch, t)
    requires ch.entries != [] && HeadNames(ch.entries) != {}
    requires
      var inc := FindInclude(all, ch.pkg);
      inc.Some? && inc.value.bundles == [] && IsHeadsOnly(inc.value)
    ensures HeadNames(t.entries) == {ChannelHead(ch.entries, VersionsOf(cfg))}
  {
    AllowedEntriesOwn(cfg, all, ch);
    var inc, sel := FindInclude(all, ch.pkg).value, AllowedEntries(cfg, all, ch.pkg, ch.name);
    assert HasChannelEntries(cfg, ch.pkg);
    var repaired :| Repaired(ch.entries, sel, repaired) && t.entries == repaired;
    HeadPlusNSingleHead(ch.entries, inc.previousVersions, VersionsOf(cfg), sel, repaired);
  }

  /** In the filtered catalog, every surviving acyclic channel of a package
      whose bundles were picked by name is acyclic and has exactly one head. */
  lemma FilteredByNameSingleHead(cfg: Config, all: seq<IncludePackage>, kept: set<string>, ch: Channel, t: Channel)
    requires Survives(cfg, all, kept, ch) && Trimmed(cfg, all, ch, t)
    requires SelectedByName(all, ch.pkg) && Acyclic(ch.entries)
    ensures Acyclic(t.entries) && exists h :: HeadNames(t.entries) == {h}
  {
    var sel := AllowedEntries(cfg, all, ch.pkg, ch.name);
    var repaired :| Repaired(ch.entries, sel, repaired) && t.entries == MergedHeads(repaired, VersionsOf(cfg));
    KeptEntriesFacts(ch.entries, sel);
    var k := KeptEntries(ch.entries, sel)[0];
    assert k in KeptEntries(ch.entries, sel);
    assert k.name in Names(ch.entries) * sel;
    MergeSingleHead(ch.entries, sel, repaired, VersionsOf(cfg));
  }

  // --------------------------------------------------------------- extraction

  /** The images that serving a catalog needs. */
  function CatalogImages(cfg: Config): set<string>
  {
    BundleImages(cfg) + (set b, i | b in cfg.bundles && i in b.relatedImages && i != "" :: i)
  }

  /** Those of them that are a bundle's own image. */
  function BundleImages(cfg: Config): set<string>
  {
    set b | b in cfg.bundles && b.image != "" :: b.image
  }

  method ExtractImages(cfg: Config) returns (images: set<string>, bundleImages: set<string>)
    ensures images == CatalogImages(cfg) && bundleImages == BundleImages(cfg)
    ensures forall image :: image in images <==>
      image != "" && exists b :: b in cfg.bundles && (b.image == image || image in b.relatedImages)
    ensures forall image :: image in bundleImages <==> image != "" && exists b :: b in cfg.bundles && b.image == image
  {
    images, bundleImages := {}, {};
    var bs := cfg.bundles;
    for i := 0 to |bs|
      invariant images == CatalogImages(cfg.(bundles := bs[..i]))
      invariant bundleImages == BundleImages(cfg.(bundles := bs[..i]))
    {
      var b := bs[i];
      ghost var before := images;
      if b.image != "" {
        images, bundleImages := images + {b.image}, bundleImages + {b.image};
      }
      for k := 0 to |b.relatedImages|
        invariant images == before + ({b.image} - {""}) + (set r | r in b.relatedImages[..k] && r != "")
      {
        if b.relatedImages[k] != "" {
          images := images + {b.relatedImages[k]};
        }
      }
      assert b.relatedImages[..|b.relatedImages|] == b.relatedImages;
      assert bs[..i + 1] == bs[..i] + [b];
    }
    assert bs[..|bs|] == bs;
  }
}

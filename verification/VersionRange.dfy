/** Filtering by a version range: exactly when a channel is left with a single
    head, and a catalog and a range for which it is not. */
module VersionRange {
  import opened Options
  import opened Channels
  import opened CatalogFilter
  import opened FilterOrder
  import opened RepairedHeads

  /** The names of a channel whose bundles lie in the range in force for it. */
  function NamesInRange(cfg: Config, inc: IncludePackage, ch: Channel): set<string>
  {
    var byName := BundlesByName(cfg.bundles);
    if !ChannelWanted(inc, ch.name) then {} else
      set e | e in ch.entries && e.name in byName && InRange(byName[e.name], EffectiveRange(inc, ch.name)) :: e.name
  }

  /** The package is requested by channels or versions. */
  ghost predicate ByRange(all: seq<IncludePackage>, pkg: string, inc: IncludePackage)
  {
    FindInclude(all, pkg) == Some(inc) && inc.bundles == [] && !IsHeadsOnly(inc)
  }

  lemma RangeSelects(cfg: Config, all: seq<IncludePackage>, ch: Channel, inc: IncludePackage)
    requires ch in cfg.channels && ByRange(all, ch.pkg, inc)
    ensures SelectedIn(cfg, all, ch) == NamesInRange(cfg, inc, ch)
  {
    if ch.entries != [] {
      assert HasChannelEntries(cfg, ch.pkg);
    }
  }

  /** In the filtered catalog, a channel of a package requested by version range
      has exactly one head exactly if its entries in the range lead past all
      names in the range but one. */
  lemma RangeSingleHeadIff(cfg: Config, all: seq<IncludePackage>, ch: Channel, t: Channel, inc: IncludePackage)
    requires ClosedInput(cfg) && ch in cfg.channels && Trimmed(cfg, all, ch, t) && ByRange(all, ch.pkg, inc)
    requires "" !in Names(ch.entries)
    ensures (exists h :: HeadNames(t.entries) == {h}) <==> OneUnled(ch.entries, NamesInRange(cfg, inc, ch))
  {
    RangeTrimmed(cfg, all, ch, t, inc);
    SingleHeadIff(ch.entries, NamesInRange(cfg, inc, ch), t.entries);
  }

  lemma RangeTrimmed(cfg: Config, all: seq<IncludePackage>, ch: Channel, t: Channel, inc: IncludePackage)
    requires ClosedInput(cfg) && ch in cfg.channels && Trimmed(cfg, all, ch, t) && ByRange(all, ch.pkg, inc)
    ensures Repaired(ch.entries, NamesInRange(cfg, inc, ch), t.entries)
  {
    AllowedEntriesOwn(cfg, all, ch);
    RangeSelects(cfg, all, ch, inc);
  }

  // -------------------------------------------------------------- two heads

  /** A channel whose newest entry d replaces a and skips b. */
  datatype Skipping = Skipping(pkg: string, channel: string, d: string, a: string, b: string,
                               newest: int, max: int, va: int, vb: int)

  ghost predicate Proper(k: Skipping)
  {
    && |k.pkg| == 1 && k.d != k.a && k.d != k.b && k.a != k.b && k.d != "" && k.a != "" && k.b != ""
    && k.va <= k.max && k.vb <= k.max < k.newest
  }

  function EntriesOf(k: Skipping): seq<ChannelEntry>
  {
    [ChannelEntry(k.d, k.a, [k.b], ""), ChannelEntry(k.a, "", [], ""), ChannelEntry(k.b, "", [], "")]
  }

  function ChannelOf(k: Skipping): Channel
  {
    Channel(k.channel, k.pkg, EntriesOf(k))
  }

  function BundleOf(k: Skipping, name: string, version: int): Bundle
  {
    Bundle(name, k.pkg, name, [], [], Some(version))
  }

  function CatalogOf(k: Skipping): Config
  {
    Config([Package(k.pkg, k.channel)], [ChannelOf(k)],
           [BundleOf(k, k.d, k.newest), BundleOf(k, k.a, k.va), BundleOf(k, k.b, k.vb)])
  }

  /** The package up to a version below its newest bundle. */
  function UpTo(k: Skipping): IncludePackage
  {
    IncludePackage(k.pkg, None, Some(k.max), [], [], 0)
  }

  lemma SkippingFacts(k: Skipping)
    requires Proper(k)
    ensures Names(EntriesOf(k)) == {k.d, k.a, k.b} && HeadNames(EntriesOf(k)) == {k.d}
    ensures UniqueNames(EntriesOf(k))
  {
    var es := EntriesOf(k);
    assert es[0] in es && es[1] in es && es[2] in es;
    forall x ensures x in Superseded(es) <==> x == k.a || x == k.b
    {
      SupersededIff(es, x);
      assert Supersedes(es[0], k.a) && Supersedes(es[0], k.b);
    }
  }

  lemma SkippingBundles(k: Skipping)
    requires Proper(k)
    ensures
      var cfg := CatalogOf(k);
      BundlesByName(cfg.bundles) == map[k.d := cfg.bundles[0], k.a := cfg.bundles[1], k.b := cfg.bundles[2]]
  {
    var bs := CatalogOf(k).bundles;
    assert bs[..2] == [bs[0], bs[1]] && bs[..2][..1] == [bs[0]] && bs[..2][..1][..0] == [];
    assert BundlesByName(bs[..2][..1]) == map[k.d := bs[0]];
    assert BundlesByName(bs[..2]) == map[k.d := bs[0], k.a := bs[1]];
  }

  lemma SkippingSelected(k: Skipping)
    requires Proper(k)
    ensures NamesInRange(CatalogOf(k), UpTo(k), ChannelOf(k)) == {k.a, k.b}
  {
    SkippingBundles(k);
    var es := EntriesOf(k);
    assert es[1] in es && es[2] in es;
  }

  lemma SkippingClosed(k: Skipping)
    requires Proper(k)
    ensures ClosedInput(CatalogOf(k))
  {
    var cfg := CatalogOf(k);
    SkippingFacts(k);
    assert cfg.bundles[0] in cfg.bundles && cfg.bundles[1] in cfg.bundles && cfg.bundles[2] in cfg.bundles;
  }

  lemma SkippingUnled(k: Skipping, x: string)
    requires Proper(k)
    ensures !LedPast(EntriesOf(k), {k.a, k.b}, x)
  {
  }

  lemma SkippingTrimmed(k: Skipping, all: seq<IncludePackage>, t: Channel)
    requires Proper(k) && all == [UpTo(k)] && Trimmed(CatalogOf(k), all, ChannelOf(k), t)
    ensures HeadNames(t.entries) == {k.a, k.b}
  {
    var cfg, ch := CatalogOf(k), ChannelOf(k);
    assert ByRange(all, k.pkg, UpTo(k));
    assert ch in cfg.channels;
    SkippingClosed(k);
    RangeTrimmed(cfg, all, ch, t, UpTo(k));
    SkippingSelected(k);
    SkippingHeads(k, t.entries);
  }

  lemma SkippingHeads(k: Skipping, repaired: seq<ChannelEntry>)
    requires Proper(k) && Repaired(EntriesOf(k), {k.a, k.b}, repaired)
    ensures HeadNames(repaired) == {k.a, k.b}
  {
    SkippingFacts(k);
    HeadsAreUnled(EntriesOf(k), {k.a, k.b}, repaired);
    SkippingUnled(k, k.a);
    SkippingUnled(k, k.b);
  }

  /** Asking for such a package up to a version below its newest bundle: the
      channel had one head, and every filtered catalog has it with two. */
  lemma RangeLeavesTwoHeads(k: Skipping, kept: set<string>, out: Config)
    requires Proper(k) && IsFiltered(CatalogOf(k), AllIncludes(CatalogOf(k), [UpTo(k)]), kept, out)
    ensures HeadNames(ChannelOf(k).entries) == {k.d}
    ensures |out.channels| == 1 && HeadNames(out.channels[0].entries) == {k.a, k.b}
  {
    var cfg, ch, all := CatalogOf(k), ChannelOf(k), [UpTo(k)];
    OnlyRequest(cfg, UpTo(k));
    SkippingFacts(k);
    SkippingSurvives(k, all, kept);
    assert Trimmed(cfg, all, ch, out.channels[0]);
    SkippingTrimmed(k, all, out.channels[0]);
  }

  lemma SkippingSurvives(k: Skipping, all: seq<IncludePackage>, kept: set<string>)
    requires Proper(k) && all == [UpTo(k)] && LeastClosure(CatalogOf(k), all, kept)
    ensures SurvivingChannels(CatalogOf(k), all, kept, CatalogOf(k).channels) == [ChannelOf(k)]
  {
    var cfg, ch := CatalogOf(k), ChannelOf(k);
    assert ByRange(all, k.pkg, UpTo(k));
    SkippingClosed(k);
    assert ch in cfg.channels && all[0] in all;
    AllowedEntriesOwn(cfg, all, ch);
    RangeSelects(cfg, all, ch, UpTo(k));
    SkippingSelected(k);
    KeptEntriesFacts(ch.entries, {k.a, k.b});
    assert EntriesOf(k)[1] in ch.entries;
    assert cfg.channels[..0] == [];
  }
}

/** A run in which a catalog with Full and a package list advertises an image
    that was never mirrored. */
module FullCatalog {
  import opened Options
  import opened ImageState
  import opened CatalogFilter
  import opened FilterOrder
  import opened CatalogGate
  import opened CatalogSafety
  import opened AdvertisedCatalog
  import opened EarlyRestart
  import opened Resolve

  /** Two packages with one bundle each. */
  function TwoPackages(): Config
  {
    Config([Package("a", ""), Package("b", "")], [],
           [Bundle("a.v1", "a", "image-a", [], [], None), Bundle("b.v1", "b", "image-b", [], [], None)])
  }

  /** What asking for the first package leaves. */
  function FirstPackage(): Config
  {
    Config([Package("a", "")], [], [Bundle("a.v1", "a", "image-a", [], [], None)])
  }

  const LIST := [HeadsOnly("a")]

  lemma FirstSelected()
    ensures AllIncludes(TwoPackages(), LIST) == LIST
    ensures AllowedFor(TwoPackages(), LIST, {"a"}) == {"a.v1"}
    ensures LeastClosure(TwoPackages(), LIST, {"a"})
  {
    var cfg := TwoPackages();
    OnlyRequest(cfg, HeadsOnly("a"));
    assert LIST[0] in LIST;
    assert cfg.bundles[0] in cfg.bundles;
    assert BundlesOfPackage(cfg, "a") == {"a.v1"};
    assert AllowedBundles(cfg, LIST, "a") == {"a.v1"};
    BundlesByNameFacts(cfg.bundles);
    assert Requires(cfg, LIST, "a") == {};
  }

  lemma FirstFiltered()
    ensures IsFiltered(TwoPackages(), LIST, {"a"}, FirstPackage())
  {
    var cfg := TwoPackages();
    FirstSelected();
    assert cfg.packages[..1] == [cfg.packages[0]] && cfg.packages[..1][..0] == [];
    assert PackagesIn(cfg.packages[..1], {"a"}) == [cfg.packages[0]];
    assert PackagesIn(cfg.packages, {"a"}) == [cfg.packages[0]];
    assert cfg.bundles[..1] == [cfg.bundles[0]] && cfg.bundles[..1][..0] == [];
    assert BundlesIn(cfg.bundles[..1], {"a.v1"}) == [cfg.bundles[0]];
    assert BundlesIn(cfg.bundles, {"a.v1"}) == [cfg.bundles[0]];
  }

  /** The list keeps the first image, Full brings the second. */
  lemma FullAdvertisesMore(op: Operator)
    requires op.full && op.packages == LIST
    ensures forall image :: Advertises(TwoPackages(), op.packages, image) <==> image == "image-a"
    ensures Advertises(TwoPackages(), JobPackages(op), "image-b")
    ensures !FullHarmless(TwoPackages(), op)
  {
    var cfg := TwoPackages();
    FirstSelected();
    FirstFiltered();
    assert cfg.bundles[0] in cfg.bundles && cfg.bundles[1] in cfg.bundles;
    forall image ensures Advertises(cfg, LIST, image) <==> image == "image-a"
    {
      AdvertisedIff(cfg, LIST, {"a"}, FirstPackage(), image);
      if image == "image-a" { assert Uses(cfg.bundles[0], image); }
    }
    assert "image-b" in BundleImages(cfg);
    assert !JobWithinResolve(cfg, op) by { assert Advertises(cfg, JobPackages(op), "image-b"); }
    if FullHarmless(cfg, op) {
      HarmlessWithin(cfg, op);
    }
  }

  /** In a run without any restart the gate opens, and the job advertises an
      image the state does not hold. */
  lemma FullRunAdvertisesUnmirrored(k: Case, up: Upstream) returns (worlds: seq<World>, events: seq<WorldEvent>)
    requires k.op.full && k.op.packages == LIST && k.op.sig != "" && k.op.catalog != "" && k.one != ""
    requires up.catalog(k.one) == TwoPackages() && up.packages(k.op.sig) == LIST
    requires k.x.bundleRef == "" && k.x.dest == up.dest("image-a") != up.dest("image-b")
    ensures WorldRun(worlds, events, ContentOf(up)) && k.name in worlds[|events|].store
    ensures
      var cm := worlds[|events|].store[k.name];
      && Complete(cm, [k.op], true) && RecordedDigest(cm.digests, k.op.sig) == Some(k.one)
      && Advertises(up.catalog(k.one), JobPackages(k.op), "image-b") && !Settled(cm.entries, up.dest("image-b"))
  {
    FullAdvertisesMore(k.op);
    AdvertisedFirst(up, k.one, k.op.sig);
    assert ContentOf(up)(k.one, k.op.sig) == {k.x.dest};
    worlds, events := RunOpensGate(k, ContentOf(up));
  }

  lemma RunOpensGate(k: Case, content: Content) returns (worlds: seq<World>, events: seq<WorldEvent>)
    requires Ready(k, content)
    ensures WorldRun(worlds, events, content) && k.name in worlds[|events|].store
    ensures
      var cm := worlds[|events|].store[k.name];
      cm.entries.Keys == {k.x.dest} && Complete(cm, [k.op], true) && RecordedDigest(cm.digests, k.op.sig) == Some(k.one)
  {
    worlds, events := RunToStored(k, content);
    GateOpens(worlds[|events|], k, k.one);
  }

  lemma AdvertisedFirst(up: Upstream, digest: string, sig: string)
    requires up.catalog(digest) == TwoPackages() && up.packages(sig) == LIST
    requires forall image :: Advertises(TwoPackages(), LIST, image) <==> image == "image-a"
    ensures AdvertisedAt(up, digest, sig) == {up.dest("image-a")}
  {
    AdvertisedInCatalog(TwoPackages(), LIST, "image-a");
  }
}

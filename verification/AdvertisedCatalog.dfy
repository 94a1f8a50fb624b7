/** The two ends of catalog safety in one place: the images the catalog job
    advertises, computed by filtering and extraction, are those the gate saw
    mirrored. */
module AdvertisedCatalog {
  import opened Options
  import opened ImageState
  import opened CatalogFilter
  import opened FilterOrder
  import opened CatalogGate
  import opened CatalogSafety
  import opened ManagerModel
  import opened Resolve

  /** image is one of those that filtering cfg for the requests leaves. */
  ghost predicate Advertises(cfg: Config, includes: seq<IncludePackage>, image: string)
  {
    if includes == [] then image in CatalogImages(cfg)
    else exists kept, out ::
      IsFiltered(cfg, AllIncludes(cfg, includes), kept, out) && image in CatalogImages(out)
  }

  /** Filtering only removes bundles. */
  lemma AdvertisedInCatalog(cfg: Config, includes: seq<IncludePackage>, image: string)
    requires Advertises(cfg, includes, image)
    ensures image in CatalogImages(cfg)
  {
    if includes != [] {
      var kept, out :| IsFiltered(cfg, AllIncludes(cfg, includes), kept, out) && image in CatalogImages(out);
      BundlesInFacts(cfg.bundles, AllowedFor(cfg, AllIncludes(cfg, includes), kept));
    }
  }

  /** What the catalog job does with a catalog, and the resolver before it:
      filter, then extract. Two runs give the same images. */
  method AdvertisedImages(cfg: Config, includes: seq<IncludePackage>) returns (images: Option<set<string>>)
    ensures images.None? <==> includes != [] && FirstMissing(cfg, AllIncludes(cfg, includes)).Some?
    ensures images.Some? ==> forall image :: image in images.value <==> Advertises(cfg, includes, image)
  {
    var filtered := FilterFBC(cfg, includes);
    if filtered.BundleNotFound? {
      return None;
    }
    var all, bundleImages := ExtractImages(filtered.config);
    if includes != [] {
      SameImages(cfg, includes, filtered.config);
    }
    return Some(all);
  }

  lemma SameImages(cfg: Config, includes: seq<IncludePackage>, out: Config)
    requires includes != [] && exists kept :: IsFiltered(cfg, AllIncludes(cfg, includes), kept, out)
    ensures forall image :: image in CatalogImages(out) <==> Advertises(cfg, includes, image)
  {
    var all := AllIncludes(cfg, includes);
    var kept :| IsFiltered(cfg, all, kept, out);
    forall image | Advertises(cfg, includes, image) ensures image in CatalogImages(out)
    {
      var k, o :| IsFiltered(cfg, all, k, o) && image in CatalogImages(o);
      FilteredDetermined(cfg, all, kept, out, k, o);
    }
  }

  /** What lies behind the names: the catalog at a digest, the packages a
      signature stands for and the destination of an image. */
  datatype Upstream = Upstream(catalog: string -> Config, packages: string -> seq<IncludePackage>, dest: string -> Dest)

  ghost function AdvertisedAt(up: Upstream, digest: string, sig: string): set<Dest>
  {
    set image | image in CatalogImages(up.catalog(digest)) &&
                Advertises(up.catalog(digest), up.packages(sig), image) :: up.dest(image)
  }

  /** The content of the safety theorem, given by filtering and extraction. */
  ghost function ContentOf(up: Upstream): Content
  {
    (digest: string, sig: string) => AdvertisedAt(up, digest, sig)
  }

  /** Signatures identify spec entries. */
  ghost predicate SignaturesHonest(up: Upstream, operators: seq<Operator>)
  {
    forall op :: op in operators ==> up.packages(op.sig) == op.packages
  }

  // --------------------------------------------------------------------- full

  predicate Uses(b: Bundle, image: string)
  {
    image != "" && (b.image == image || image in b.relatedImages)
  }

  ghost predicate UsedBy(cfg: Config, allowed: set<string>, image: string)
  {
    exists b :: b in cfg.bundles && b.name in allowed && Uses(b, image)
  }

  /** Every image of a bundle outside `allowed` is also used by one inside. */
  ghost predicate NothingMore(cfg: Config, allowed: set<string>)
  {
    forall b, image :: b in cfg.bundles && b.name !in allowed && Uses(b, image) ==> UsedBy(cfg, allowed, image)
  }

  lemma ImageUsed(cfg: Config, image: string)
    ensures image in CatalogImages(cfg) <==> exists b :: b in cfg.bundles && Uses(b, image)
  {
    if b :| b in cfg.bundles && Uses(b, image) {
      if b.image == image { assert image in BundleImages(cfg); }
    }
  }

  /** What a filtered catalog advertises, in terms of the unfiltered one. */
  lemma AdvertisedIff(cfg: Config, includes: seq<IncludePackage>, kept: set<string>, out: Config, image: string)
    requires includes != [] && IsFiltered(cfg, AllIncludes(cfg, includes), kept, out)
    ensures Advertises(cfg, includes, image) <==> UsedBy(cfg, AllowedFor(cfg, AllIncludes(cfg, includes), kept), image)
  {
    var allowed := AllowedFor(cfg, AllIncludes(cfg, includes), kept);
    SameImages(cfg, includes, out);
    ImageUsed(out, image);
    BundlesInFacts(cfg.bundles, allowed);
  }

  /** The condition on a catalog and an operator entry under which Full does no
      harm: there is no list for it to override, or nothing is lost by the list. */
  ghost predicate FullHarmless(cfg: Config, op: Operator)
  {
    || !op.full || op.packages == []
    || exists kept, out :: IsFiltered(cfg, AllIncludes(cfg, op.packages), kept, out) &&
         NothingMore(cfg, AllowedFor(cfg, AllIncludes(cfg, op.packages), kept))
  }

  /** Every image the job advertises was collected by the resolver. */
  ghost predicate JobWithinResolve(cfg: Config, op: Operator)
  {
    forall image :: Advertises(cfg, JobPackages(op), image) ==> Advertises(cfg, op.packages, image)
  }

  lemma WithinIffNothingMore(cfg: Config, op: Operator, kept: set<string>, out: Config)
    requires op.full && op.packages != [] && IsFiltered(cfg, AllIncludes(cfg, op.packages), kept, out)
    ensures JobWithinResolve(cfg, op) <==> NothingMore(cfg, AllowedFor(cfg, AllIncludes(cfg, op.packages), kept))
  {
    var allowed := AllowedFor(cfg, AllIncludes(cfg, op.packages), kept);
    forall image
      ensures Advertises(cfg, op.packages, image) <==> UsedBy(cfg, allowed, image)
      ensures Advertises(cfg, JobPackages(op), image) <==> exists b :: b in cfg.bundles && Uses(b, image)
    {
      AdvertisedIff(cfg, op.packages, kept, out, image);
      ImageUsed(cfg, image);
    }
    if JobWithinResolve(cfg, op) {
      forall b, image | b in cfg.bundles && b.name !in allowed && Uses(b, image) ensures UsedBy(cfg, allowed, image)
      {
        assert Advertises(cfg, JobPackages(op), image);
      }
    }
    if NothingMore(cfg, allowed) {
      forall image | Advertises(cfg, JobPackages(op), image) ensures Advertises(cfg, op.packages, image)
      {
        var b :| b in cfg.bundles && Uses(b, image);
      }
    }
  }

  /** The job advertises only what the resolver collected exactly if Full is
      unset, or there is no package list, or every image of a bundle the list
      leaves out is also used by a bundle it keeps. kept and out are what the
      filter gives for the list. */
  lemma JobWithinResolveIff(cfg: Config, op: Operator, kept: set<string>, out: Config)
    requires op.packages != [] ==> IsFiltered(cfg, AllIncludes(cfg, op.packages), kept, out)
    ensures JobWithinResolve(cfg, op) <==> FullHarmless(cfg, op)
    ensures op.full && op.packages != [] ==>
      (FullHarmless(cfg, op) <==> NothingMore(cfg, AllowedFor(cfg, AllIncludes(cfg, op.packages), kept)))
  {
    if op.full && op.packages != [] {
      WithinIffNothingMore(cfg, op, kept, out);
      if FullHarmless(cfg, op) {
        HarmlessWithin(cfg, op);
      }
    }
  }

  lemma HarmlessWithin(cfg: Config, op: Operator)
    requires FullHarmless(cfg, op)
    ensures JobWithinResolve(cfg, op)
  {
    if op.full && op.packages != [] {
      var kept, out :| IsFiltered(cfg, AllIncludes(cfg, op.packages), kept, out) &&
        NothingMore(cfg, AllowedFor(cfg, AllIncludes(cfg, op.packages), kept));
      WithinIffNothingMore(cfg, op, kept, out);
    }
  }

  /** An image that no bundle of a closed set of packages uses is not advertised. */
  lemma NotAdvertised(cfg: Config, includes: seq<IncludePackage>, pkgs: set<string>, image: string)
    requires includes != []
    requires
      var all := AllIncludes(cfg, includes);
      && IncludeNames(all) <= pkgs && Closed(cfg, all, pkgs)
      && forall b :: b in cfg.bundles && b.name in AllowedFor(cfg, all, pkgs) ==>
          b.image != image && image !in b.relatedImages
    ensures !Advertises(cfg, includes, image)
  {
    var all := AllIncludes(cfg, includes);
    forall kept, out | IsFiltered(cfg, all, kept, out) ensures image !in CatalogImages(out)
    {
      BundlesInFacts(cfg.bundles, AllowedFor(cfg, all, kept));
      assert AllowedFor(cfg, all, kept) <= AllowedFor(cfg, all, pkgs);
    }
  }

  // ------------------------------------------------------------------- safety

  /** entries holds the image at d, finished. */
  predicate Settled(entries: EntryMap, d: Dest)
  {
    d in entries && !Unfinished(entries[d])
  }

  lemma CreatedIsSafe(worlds: seq<World>, events: seq<WorldEvent>, up: Upstream, i: nat, name: Name,
                      operators: seq<Operator>, observed: bool, c: Created, image: string)
    requires WorldRun(worlds, events, ContentOf(up)) && i <= |events| && name in worlds[i].store
    requires SignaturesHonest(up, operators) && Complete(worlds[i].store[name], operators, observed)
    requires c.op in operators && c.op.catalog != "" && FullHarmless(up.catalog(c.digest), c.op)
    requires c.packages == JobPackages(c.op)
    requires RecordedDigest(worlds[i].store[name].digests, c.op.sig) == Some(c.digest)
    requires Advertises(up.catalog(c.digest), c.packages, image)
    ensures Settled(worlds[i].store[name].entries, up.dest(image))
  {
    HarmlessWithin(up.catalog(c.digest), c.op);
    AdvertisedInCatalog(up.catalog(c.digest), c.op.packages, image);
    assert up.dest(image) in AdvertisedAt(up, c.digest, c.op.sig);
    CatalogNeverAdvertisesUnmirrored(worlds, events, ContentOf(up), i, name, operators, c.op, observed, c.digest,
                                     up.dest(image));
  }

  /** One reconcile, whole: read the ConfigMap the manager stored, decide, create
      jobs. Whatever such a job filters out of the catalog it pulls, every image
      it advertises is settled in the state that was read. The run of manager,
      flushes and restarts before it is arbitrary. */
  method ReconcileCatalogs(jobs: CatalogJobs, operators: seq<Operator>, inputs: Inputs, observed: bool, cm: ConfigMap,
                           ghost worlds: seq<World>, ghost events: seq<WorldEvent>, ghost up: Upstream,
                           ghost i: nat, ghost name: Name)
    returns (created: seq<Created>)
    requires WorldRun(worlds, events, ContentOf(up)) && i <= |events|
    requires name in worlds[i].store && cm == worlds[i].store[name]
    requires SignaturesHonest(up, operators)
    modifies jobs
    ensures forall c, image ::
      c in created && FullHarmless(up.catalog(c.digest), c.op) && Advertises(up.catalog(c.digest), c.packages, image) ==>
      Settled(cm.entries, up.dest(image))
  {
    var snap := LoadMirrorSnapshot(cm, operators, observed);
    var deleted;
    created, deleted := jobs.Reconcile(operators, inputs.(complete := snap.complete), snap.digests);
    forall c, image | c in created && FullHarmless(up.catalog(c.digest), c.op) &&
                      Advertises(up.catalog(c.digest), c.packages, image)
      ensures Settled(cm.entries, up.dest(image))
    {
      CreatedIsSafe(worlds, events, up, i, name, operators, observed, c, image);
    }
  }
}

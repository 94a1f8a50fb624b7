/** What the filter keeps and why, in terms of the catalogs themselves: which
    packages the bundles of the filtered catalog ask for, and which bundles a
    package keeps. */
module Requirements {
  import opened Options
  import opened Channels
  import opened CatalogFilter

  predicate InCatalog(cfg: Config, pkg: string)
  {
    exists p :: p in cfg.packages && p.name == pkg
  }

  /** b requires the package by name. */
  predicate RequiresPackage(b: Bundle, pkg: string)
  {
    pkg != "" && PackageRequired(pkg) in b.properties
  }

  /** b requires a kind that a bundle of the package provides. */
  ghost predicate RequiresKindOf(cfg: Config, b: Bundle, pkg: string)
  {
    exists gvk, provider :: GvkRequired(gvk) in b.properties &&
      provider in cfg.bundles && provider.pkg == pkg && Gvk(gvk) in provider.properties
  }

  ghost predicate AsksFor(cfg: Config, b: Bundle, pkg: string)
  {
    InCatalog(cfg, pkg) && (RequiresPackage(b, pkg) || RequiresKindOf(cfg, b, pkg))
  }

  ghost predicate UniqueBundles(cfg: Config)
  {
    forall i, j :: 0 <= i < j < |cfg.bundles| ==> cfg.bundles[i].name != cfg.bundles[j].name
  }

  /** One property asks for the package. */
  ghost predicate PropertyAsks(cfg: Config, prop: Property, pkg: string)
  {
    || (prop == PackageRequired(pkg) && pkg != "")
    || (prop.GvkRequired? && exists b :: b in cfg.bundles && b.pkg == pkg && Gvk(prop.gvk) in b.properties)
  }

  lemma AskedByIff(cfg: Config, prop: Property, pkg: string)
    ensures pkg in AskedBy(cfg, prop) <==> InCatalog(cfg, pkg) && PropertyAsks(cfg, prop, pkg)
  {
  }

  lemma AsksForIff(cfg: Config, name: string, pkg: string)
    requires name in BundlesByName(cfg.bundles)
    ensures pkg in AskedByBundle(cfg, name) <==> AsksFor(cfg, BundlesByName(cfg.bundles)[name], pkg)
  {
    var b := BundlesByName(cfg.bundles)[name];
    forall prop | prop in b.properties
      ensures pkg in AskedBy(cfg, prop) <==> InCatalog(cfg, pkg) && PropertyAsks(cfg, prop, pkg)
    {
      AskedByIff(cfg, prop, pkg);
    }
    if pkg in AskedByBundle(cfg, name) {
      var prop :| prop in b.properties && pkg in AskedBy(cfg, prop);
      assert PropertyAsks(cfg, prop, pkg);
    }
    if AsksFor(cfg, b, pkg) {
      if RequiresPackage(b, pkg) {
        assert PropertyAsks(cfg, PackageRequired(pkg), pkg);
      } else {
        var gvk, x :| GvkRequired(gvk) in b.properties && x in cfg.bundles && x.pkg == pkg && Gvk(gvk) in x.properties;
        assert PropertyAsks(cfg, GvkRequired(gvk), pkg);
      }
    }
  }

  lemma ByUniqueName(cfg: Config, b: Bundle)
    requires UniqueBundles(cfg) && b in cfg.bundles
    ensures b.name in BundlesByName(cfg.bundles) && BundlesByName(cfg.bundles)[b.name] == b
  {
    BundlesByNameFacts(cfg.bundles);
    var x := BundlesByName(cfg.bundles)[b.name];
    var i :| 0 <= i < |cfg.bundles| && cfg.bundles[i] == b;
    var j :| 0 <= j < |cfg.bundles| && cfg.bundles[j] == x;
  }

  /** Whatever a bundle of the filtered catalog asks for is kept: the package it
      requires by name, and every package with a bundle that provides a kind it
      requires. */
  lemma RequirementsKept(cfg: Config, all: seq<IncludePackage>, kept: set<string>, out: Config, b: Bundle, pkg: string)
    requires UniqueBundles(cfg) && IsFiltered(cfg, all, kept, out) && b in out.bundles && AsksFor(cfg, b, pkg)
    ensures pkg in kept
  {
    BundlesInFacts(cfg.bundles, AllowedFor(cfg, all, kept));
    ByUniqueName(cfg, b);
    AsksForIff(cfg, b.name, pkg);
    var p :| p in kept && b.name in AllowedBundles(cfg, all, p);
    assert pkg in Requires(cfg, all, p);
  }

  /** Every kept package is requested, or a bundle of the filtered catalog asks
      for it. */
  lemma KeptForAReason(cfg: Config, all: seq<IncludePackage>, kept: set<string>, out: Config, pkg: string)
    requires IsFiltered(cfg, all, kept, out) && pkg in kept
    ensures pkg in IncludeNames(all) || exists b :: b in out.bundles && AsksFor(cfg, b, pkg)
  {
    if pkg !in IncludeNames(all) {
      var rest := kept - {pkg};
      if forall q :: q in rest ==> pkg !in Requires(cfg, all, q) {
        OthersClosed(cfg, all, kept, pkg);
      } else {
        var q :| q in rest && pkg in Requires(cfg, all, q);
        AskedInResult(cfg, all, kept, out, q, pkg);
      }
    }
  }

  lemma OthersClosed(cfg: Config, all: seq<IncludePackage>, kept: set<string>, pkg: string)
    requires LeastClosure(cfg, all, kept) && pkg in kept
    requires forall q :: q in kept - {pkg} ==> pkg !in Requires(cfg, all, q)
    ensures pkg in IncludeNames(all)
  {
    if pkg !in IncludeNames(all) {
      assert Closed(cfg, all, kept - {pkg});
    }
  }

  lemma AskedInResult(cfg: Config, all: seq<IncludePackage>, kept: set<string>, out: Config, q: string, pkg: string)
    requires IsFiltered(cfg, all, kept, out) && q in kept && pkg in Requires(cfg, all, q)
    ensures exists b :: b in out.bundles && AsksFor(cfg, b, pkg)
  {
    var n :| n in AllowedBundles(cfg, all, q) && pkg in AskedByBundle(cfg, n);
    AsksForIff(cfg, n, pkg);
    BundlesByNameFacts(cfg.bundles);
    BundlesInFacts(cfg.bundles, AllowedFor(cfg, all, kept));
    var b := BundlesByName(cfg.bundles)[n];
    assert n in AllowedFor(cfg, all, kept);
    assert b in out.bundles;
  }

  // ---------------------------------------------------------------- least

  lemma {:induction false} MissingNone(cfg: Config, pkg: string, names: seq<string>, n: string)
    requires MissingIn(cfg, pkg, names).None? && n in names
    ensures n in BundlesByName(cfg.bundles) && BundlesByName(cfg.bundles)[n].pkg == pkg
  {
    if n != names[0] {
      MissingNone(cfg, pkg, names[1..], n);
    }
  }

  lemma {:induction false} NoneMissing(cfg: Config, all: seq<IncludePackage>, inc: IncludePackage, n: string)
    requires FirstMissing(cfg, all).None? && inc in all && n in inc.bundles
    ensures n in BundlesByName(cfg.bundles) && BundlesByName(cfg.bundles)[n].pkg == inc.name
  {
    if inc == all[0] {
      MissingNone(cfg, inc.name, inc.bundles, n);
    } else {
      NoneMissing(cfg, all[1..], inc, n);
    }
  }

  lemma {:induction false} FoundInclude(all: seq<IncludePackage>, pkg: string)
    requires FindInclude(all, pkg).Some?
    ensures FindInclude(all, pkg).value in all && FindInclude(all, pkg).value.name == pkg
  {
    var n := |all| - 1;
    if all[n].name != pkg {
      FoundInclude(all[..n], pkg);
    }
  }

  /** Only bundles of the package itself are kept for it. */
  lemma AllowedOfPackage(cfg: Config, all: seq<IncludePackage>, pkg: string, n: string)
    requires ClosedInput(cfg) && FirstMissing(cfg, all).None? && n in AllowedBundles(cfg, all, pkg)
    ensures n in BundlesByName(cfg.bundles) && BundlesByName(cfg.bundles)[n].pkg == pkg
  {
    var inc := FindInclude(all, pkg);
    if inc.Some? && inc.value.bundles != [] {
      FoundInclude(all, pkg);
      NoneMissing(cfg, all, inc.value, n);
    } else if inc.None? || !HasChannelEntries(cfg, pkg) {
      var b :| b in cfg.bundles && b.pkg == pkg && b.name == n;
      ByUniqueName(cfg, b);
    } else {
      var ch :| ch in cfg.channels && ch.pkg == pkg && n in SelectedIn(cfg, all, ch);
      SelectedInFacts(cfg, all, ch, n);
      var e :| e in ch.entries && e.name == n;
      var b :| b in cfg.bundles && b.name == e.name && b.pkg == ch.pkg;
      ByUniqueName(cfg, b);
    }
  }

  /** Every set of packages that has the requested ones, and what a bundle of
      the filtered catalog from one of its packages asks for, has all kept ones. */
  lemma KeptIsLeast(cfg: Config, all: seq<IncludePackage>, kept: set<string>, out: Config, pkgs: set<string>)
    requires ClosedInput(cfg) && FirstMissing(cfg, all).None? && IsFiltered(cfg, all, kept, out)
    requires IncludeNames(all) <= pkgs
    requires forall b, p :: b in out.bundles && b.pkg in pkgs && AsksFor(cfg, b, p) ==> p in pkgs
    ensures kept <= pkgs
  {
    var both := kept * pkgs;
    forall q | q in both ensures Requires(cfg, all, q) <= both
    {
      forall p | p in Requires(cfg, all, q) ensures p in both
      {
        AskedFrom(cfg, all, kept, out, q, p);
      }
    }
    assert Closed(cfg, all, both);
  }

  lemma AskedFrom(cfg: Config, all: seq<IncludePackage>, kept: set<string>, out: Config, q: string, pkg: string)
    requires ClosedInput(cfg) && FirstMissing(cfg, all).None? && IsFiltered(cfg, all, kept, out)
    requires q in kept && pkg in Requires(cfg, all, q)
    ensures pkg in kept && exists b :: b in out.bundles && b.pkg == q && AsksFor(cfg, b, pkg)
  {
    var n :| n in AllowedBundles(cfg, all, q) && pkg in AskedByBundle(cfg, n);
    AllowedOfPackage(cfg, all, q, n);
    AsksForIff(cfg, n, pkg);
    BundlesByNameFacts(cfg.bundles);
    BundlesInFacts(cfg.bundles, AllowedFor(cfg, all, kept));
    assert n in AllowedFor(cfg, all, kept);
    assert BundlesByName(cfg.bundles)[n] in out.bundles;
  }

  // ---------------------------------------------------------------- missing

  /** The package has no bundle of that name. */
  ghost predicate Lacks(cfg: Config, pkg: string, name: string)
  {
    !exists b :: b in cfg.bundles && b.name == name && b.pkg == pkg
  }

  lemma {:induction false} MissingInIff(cfg: Config, pkg: string, names: seq<string>)
    requires UniqueBundles(cfg)
    ensures MissingIn(cfg, pkg, names).None? <==> forall n :: n in names ==> !Lacks(cfg, pkg, n)
    ensures MissingIn(cfg, pkg, names).Some? ==>
      MissingIn(cfg, pkg, names).value in names && Lacks(cfg, pkg, MissingIn(cfg, pkg, names).value)
  {
    if names != [] {
      LacksIff(cfg, pkg, names[0]);
      MissingInIff(cfg, pkg, names[1..]);
      assert forall n :: n in names <==> n == names[0] || n in names[1..];
    }
  }

  lemma LacksIff(cfg: Config, pkg: string, name: string)
    requires UniqueBundles(cfg)
    ensures Lacks(cfg, pkg, name) <==>
      name !in BundlesByName(cfg.bundles) || BundlesByName(cfg.bundles)[name].pkg != pkg
  {
    BundlesByNameFacts(cfg.bundles);
    if b :| b in cfg.bundles && b.name == name && b.pkg == pkg {
      ByUniqueName(cfg, b);
    }
  }

  /** The filter fails exactly if a request picks a bundle by name that its package
      does not have, and names such a request and bundle. */
  lemma {:induction false} MissingIff(cfg: Config, all: seq<IncludePackage>)
    requires UniqueBundles(cfg)
    ensures FirstMissing(cfg, all).None? <==>
      forall inc, n :: inc in all && n in inc.bundles ==> !Lacks(cfg, inc.name, n)
    ensures FirstMissing(cfg, all).Some? ==>
      exists inc :: inc in all && inc.name == FirstMissing(cfg, all).value.0 &&
        FirstMissing(cfg, all).value.1 in inc.bundles && Lacks(cfg, inc.name, FirstMissing(cfg, all).value.1)
  {
    if all != [] {
      MissingInIff(cfg, all[0].name, all[0].bundles);
      MissingIff(cfg, all[1..]);
      assert forall inc :: inc in all <==> inc == all[0] || inc in all[1..];
    }
  }
}

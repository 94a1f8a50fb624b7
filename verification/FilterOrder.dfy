/** The filtered catalog is determined by the catalog and the requests: the order
    in which packages are visited and maps are iterated does not matter. */
module FilterOrder {
  import opened Options
  import opened Text
  import opened Channels
  import opened CatalogFilter
  import opened RepairedHeads

  ghost predicate SameChannel(a: Channel, b: Channel)
  {
    a.name == b.name && a.pkg == b.pkg && SameEntries(a.entries, b.entries)
  }

  ghost predicate SameChannels(a: seq<Channel>, b: seq<Channel>)
  {
    |a| == |b| && forall i :: 0 <= i < |a| ==> SameChannel(a[i], b[i])
  }

  lemma TrimmedUnique(cfg: Config, all: seq<IncludePackage>, ch: Channel, a: Channel, b: Channel)
    requires Trimmed(cfg, all, ch, a) && Trimmed(cfg, all, ch, b)
    ensures SameChannel(a, b)
  {
    var sel := AllowedEntries(cfg, all, ch.pkg, ch.name);
    var ra :| Repaired(ch.entries, sel, ra) &&
      a.entries == (if SelectedByName(all, ch.pkg) then MergedHeads(ra, VersionsOf(cfg)) else ra);
    var rb :| Repaired(ch.entries, sel, rb) &&
      b.entries == (if SelectedByName(all, ch.pkg) then MergedHeads(rb, VersionsOf(cfg)) else rb);
    RepairedUnique(ch.entries, sel, ra, rb);
    SameMerged(ra, rb, VersionsOf(cfg));
  }

  lemma SameSurviving(a: seq<Channel>, b: seq<Channel>, pkg: string)
    requires SameChannels(a, b)
    ensures SurvivingNames(a, pkg) == SurvivingNames(b, pkg)
  {
    forall n ensures n in SurvivingNames(a, pkg) <==> n in SurvivingNames(b, pkg)
    {
      if n in SurvivingNames(a, pkg) {
        var i :| 0 <= i < |a| && a[i].pkg == pkg && a[i].name == n;
        assert SameChannel(a[i], b[i]) && b[i] in b;
      }
      if n in SurvivingNames(b, pkg) {
        var i :| 0 <= i < |b| && b[i].pkg == pkg && b[i].name == n;
        assert SameChannel(a[i], b[i]) && a[i] in a;
      }
    }
  }

  lemma DefaultUnique(p: Package, a: Package, b: Package, survived: set<string>)
    requires DefaultChosen(p, a, survived) && DefaultChosen(p, b, survived)
    ensures a == b
  {
    if survived != {} && p.defaultChannel !in survived && a.defaultChannel != b.defaultChannel {
      LexTransitive(a.defaultChannel, b.defaultChannel, a.defaultChannel);
      LexIrreflexive(a.defaultChannel);
      assert false;
    }
  }

  /** Any two results for the same catalog and requests keep the same packages,
      with the same defaults, the same bundles and the same upgrade graphs. */
  lemma FilteredDetermined(cfg: Config, all: seq<IncludePackage>, ka: set<string>, a: Config, kb: set<string>, b: Config)
    requires IsFiltered(cfg, all, ka, a) && IsFiltered(cfg, all, kb, b)
    ensures ka == kb && a.packages == b.packages && a.bundles == b.bundles && SameChannels(a.channels, b.channels)
  {
    LeastClosureUnique(cfg, all, ka, kb);
    var from := SurvivingChannels(cfg, all, ka, cfg.channels);
    forall i | 0 <= i < |from| ensures SameChannel(a.channels[i], b.channels[i])
    {
      TrimmedUnique(cfg, all, from[i], a.channels[i], b.channels[i]);
    }
    var ps := PackagesIn(cfg.packages, ka);
    forall i | 0 <= i < |ps| ensures a.packages[i] == b.packages[i]
    {
      SameSurviving(a.channels, b.channels, ps[i].name);
      DefaultUnique(ps[i], a.packages[i], b.packages[i], SurvivingNames(a.channels, ps[i].name));
    }
  }

  // ----------------------------------------------------------------- requests

  /** The first request for a package. */
  function FirstRequest(includes: seq<IncludePackage>, name: string): Option<IncludePackage>
  {
    if includes == [] then None
    else if includes[0].name == name then Some(includes[0])
    else FirstRequest(includes[1..], name)
  }

  lemma {:induction false} FirstRequestFront(includes: seq<IncludePackage>, last: IncludePackage, name: string)
    ensures FirstRequest(includes + [last], name) ==
      if FirstRequest(includes, name).Some? then FirstRequest(includes, name)
      else if last.name == name then Some(last) else None
  {
    if includes != [] {
      FirstRequestFront(includes[1..], last, name);
      assert (includes + [last])[1..] == includes[1..] + [last];
    }
  }

  lemma FindAppended(acc: seq<IncludePackage>, last: IncludePackage, name: string)
    ensures FindInclude(acc + [last], name) == if last.name == name then Some(last) else FindInclude(acc, name)
  {
    assert (acc + [last])[..|acc|] == acc;
  }

  lemma {:induction false} FindIncludeIff(all: seq<IncludePackage>, name: string)
    ensures FindInclude(all, name).Some? <==> name in IncludeNames(all)
    ensures FindInclude(all, name).Some? ==> FindInclude(all, name).value.name == name
  {
    if all != [] {
      var n := |all| - 1;
      FindIncludeIff(all[..n], name);
      assert all == all[..n] + [all[n]];
    }
  }

  lemma {:induction false} RequestedFirst(includes: seq<IncludePackage>, name: string)
    ensures FindInclude(Requested(includes), name) == FirstRequest(includes, name)
  {
    if includes != [] {
      var n := |includes| - 1;
      var front, last := Requested(includes[..n]), includes[n];
      RequestedFirst(includes[..n], name);
      assert includes == includes[..n] + [last];
      FirstRequestFront(includes[..n], last, name);
      FindAppended(front, last, name);
      FindIncludeIff(front, last.name);
    }
  }

  /** c is a package that by its name belongs to the package name. */
  ghost predicate IsCompanionOf(name: string, c: string)
  {
    || c == name + "-dependencies" || c == name + "-dependency" || c == name + "-deps"
    || exists base :: name == base + "-operator" && c == base + "-dependencies"
  }

  lemma CompanionNamesIff(name: string, c: string)
    ensures c in CompanionNames(name) <==> IsCompanionOf(name, c)
  {
    if HasSuffix(name, OPERATOR_SUFFIX) {
      assert name == name[..|name| - |OPERATOR_SUFFIX|] + OPERATOR_SUFFIX;
    }
    forall base | name == base + "-operator" ensures base == name[..|name| - |OPERATOR_SUFFIX|]
    {
    }
  }

  /** name is a companion of one of the requests and exists in the catalog. */
  ghost predicate Companion(includes: seq<IncludePackage>, catalog: set<string>, name: string)
  {
    name in catalog && exists inc :: inc in includes && IsCompanionOf(inc.name, name)
  }

  /** What adding companions does to the request for one package. */
  ghost predicate Extends(acc: seq<IncludePackage>, out: seq<IncludePackage>, name: string, companion: bool)
  {
    || FindInclude(out, name) == FindInclude(acc, name)
    || (FindInclude(acc, name).None? && FindInclude(out, name) == Some(HeadsOnly(name)) && companion)
  }

  lemma {:induction false} AddCompanionExtends(candidates: seq<string>, catalog: set<string>, acc: seq<IncludePackage>,
                                               name: string)
    ensures Extends(acc, AddCompanion(candidates, catalog, acc), name, name in catalog && name in candidates)
  {
    if candidates != [] {
      if candidates[0] in catalog && candidates[0] !in IncludeNames(acc) {
        FindAppended(acc, HeadsOnly(candidates[0]), name);
        FindIncludeIff(acc, candidates[0]);
      } else {
        AddCompanionExtends(candidates[1..], catalog, acc, name);
      }
    }
  }

  lemma {:induction false} AddCompanionsExtends(includes: seq<IncludePackage>, catalog: set<string>,
                                                acc: seq<IncludePackage>, name: string)
    ensures Extends(acc, AddCompanions(includes, catalog, acc), name, Companion(includes, catalog, name))
  {
    if includes != [] {
      AddCompanionExtends(CompanionNames(includes[0].name), catalog, acc, name);
      CompanionNamesIff(includes[0].name, name);
      AddCompanionsExtends(includes[1..], catalog, AddCompanion(CompanionNames(includes[0].name), catalog, acc), name);
      assert includes[0] in includes;
      assert forall inc :: inc in includes[1..] ==> inc in includes;
    }
  }

  /** The request in force for a package: its first one; a package that was not
      requested has none unless it is a companion, taken heads-only. */
  lemma RequestInForce(cfg: Config, includes: seq<IncludePackage>, name: string)
    ensures
      var inc := FindInclude(AllIncludes(cfg, includes), name);
      || inc == FirstRequest(includes, name)
      || (FirstRequest(includes, name).None? && Companion(includes, CatalogPackages(cfg), name) &&
          inc == Some(HeadsOnly(name)))
  {
    RequestedFirst(includes, name);
    AddCompanionsExtends(includes, CatalogPackages(cfg), Requested(includes), name);
  }

  lemma {:induction false} AddCompanionFinds(candidates: seq<string>, catalog: set<string>, acc: seq<IncludePackage>, c: string)
    requires c in candidates && c in catalog
    ensures exists k :: k in candidates && k in catalog && k in IncludeNames(AddCompanion(candidates, catalog, acc))
  {
    if candidates[0] in catalog && candidates[0] !in IncludeNames(acc) {
      var out := acc + [HeadsOnly(candidates[0])];
      assert out[|acc|] in out;
      assert candidates[0] in IncludeNames(out);
    } else if c == candidates[0] {
      AddCompanionKeeps(candidates, catalog, acc, c);
    } else {
      AddCompanionFinds(candidates[1..], catalog, acc, c);
    }
  }

  lemma {:induction false} AddCompanionKeeps(candidates: seq<string>, catalog: set<string>, acc: seq<IncludePackage>, c: string)
    requires c in IncludeNames(acc)
    ensures c in IncludeNames(AddCompanion(candidates, catalog, acc))
  {
    AddCompanionExtends(candidates, catalog, acc, c);
    FindIncludeIff(acc, c);
    FindIncludeIff(AddCompanion(candidates, catalog, acc), c);
  }

  /** Every requested package brings one of its companions, if the catalog has
      one at all. */
  lemma {:induction false} CompanionBrought(includes: seq<IncludePackage>, catalog: set<string>, acc: seq<IncludePackage>,
                                            inc: IncludePackage, c: string)
    requires inc in includes && IsCompanionOf(inc.name, c) && c in catalog
    ensures exists k :: IsCompanionOf(inc.name, k) && k in catalog && k in IncludeNames(AddCompanions(includes, catalog, acc))
  {
    var next := AddCompanion(CompanionNames(includes[0].name), catalog, acc);
    if inc == includes[0] {
      CompanionNamesIff(inc.name, c);
      AddCompanionFinds(CompanionNames(inc.name), catalog, acc, c);
      var k :| k in CompanionNames(inc.name) && k in catalog && k in IncludeNames(next);
      CompanionNamesIff(inc.name, k);
      AddCompanionsExtends(includes[1..], catalog, next, k);
      FindIncludeIff(next, k);
      FindIncludeIff(AddCompanions(includes, catalog, acc), k);
    } else {
      CompanionBrought(includes[1..], catalog, next, inc, c);
    }
  }

  /** A single request for a short name, in a catalog of short names, brings no
      companion. */
  lemma OnlyRequest(cfg: Config, inc: IncludePackage)
    requires |inc.name| == 1 && forall p :: p in cfg.packages ==> |p.name| == 1
    ensures AllIncludes(cfg, [inc]) == [inc]
  {
    var includes := [inc];
    assert includes[..0] == [] && includes[1..] == [];
    assert Requested(includes) == includes;
    assert forall c :: c in CompanionNames(inc.name) ==> |c| > 1;
    var catalog := CatalogPackages(cfg);
    NoCompanion(CompanionNames(inc.name), catalog, includes);
    assert AddCompanions(includes, catalog, includes) == AddCompanions([], catalog, includes);
  }

  lemma {:induction false} NoCompanion(candidates: seq<string>, catalog: set<string>, acc: seq<IncludePackage>)
    requires forall c :: c in candidates ==> c !in catalog
    ensures AddCompanion(candidates, catalog, acc) == acc
  {
    if candidates != [] {
      NoCompanion(candidates[1..], catalog, acc);
    }
  }
}

/** Removing images from the target registry: which images a cleanup Job may
    get, and that running it never takes a live image away. */
module Cleanup {
  import opened Options
  import opened Text
  import opened ImageState

  // --------------------------------------------------------------- references

  /** A reference as the registry client reads it. */
  datatype Ref = Ref(repo: string, tag: Option<string>, digest: Option<string>)

  const AT := "@"
  const COLON := ":"
  const SLASH := "/"

  /** Repository and tag: the tag follows the last colon unless a slash follows. */
  function SplitTag(base: string): (string, Option<string>)
  {
    var colon := LastIndex(base, COLON);
    if colon > LastIndex(base, SLASH) then (base[..colon], Some(base[colon + 1..])) else (base, None)
  }

  function ParseRef(image: string): Ref
  {
    var at := Index(image, AT);
    if at < 0 then Ref(SplitTag(image).0, SplitTag(image).1, None)
    else Ref(SplitTag(image[..at]).0, SplitTag(image[..at]).1, Some(image[at + 1..]))
  }

  function TagSuffix(tag: Option<string>): string
  {
    if tag.Some? then COLON + tag.value else ""
  }

  function DigestSuffix(digest: Option<string>): string
  {
    if digest.Some? then AT + digest.value else ""
  }

  function PrintRef(r: Ref): string
  {
    r.repo + TagSuffix(r.tag) + DigestSuffix(r.digest)
  }

  /** A string is what stands before, at and behind an occurrence. */
  lemma CutAt(s: string, i: nat, mark: string)
    requires At(s, mark, i)
    ensures s == s[..i] + (mark + s[i + |mark|..])
  {
    assert s == s[..i] + (s[i..i + |mark|] + s[i + |mark|..]);
  }

  lemma SplitTagPrints(base: string)
    ensures SplitTag(base).0 + TagSuffix(SplitTag(base).1) == base
  {
    var colon := LastIndex(base, COLON);
    if colon > LastIndex(base, SLASH) {
      CutAt(base, colon, COLON);
    }
  }

  lemma FirstCut(image: string)
    ensures
      var at := Index(image, AT);
      -1 <= at < |image| && (at >= 0 ==> image == image[..at] + (AT + image[at + 1..]))
  {
    if Index(image, AT) >= 0 {
      CutAt(image, Index(image, AT), AT);
    }
  }

  lemma PrintSplit(base: string, digest: Option<string>)
    ensures PrintRef(Ref(SplitTag(base).0, SplitTag(base).1, digest)) == base + DigestSuffix(digest)
    ensures base + DigestSuffix(None) == base
  {
    SplitTagPrints(base);
  }

  /** Reading and printing a reference gives it back, so that two destinations
      with the same reference are the same destination. */
  lemma ParseRefPrints(image: string)
    ensures PrintRef(ParseRef(image)) == image
  {
    FirstCut(image);
    var at := Index(image, AT);
    if at < 0 {
      PrintSplit(image, None);
    } else {
      PrintSplit(image[..at], Some(image[at + 1..]));
    }
  }

  // ----------------------------------------------------------------- live set

  const DIGEST_MARK := "@sha256:"
  const TAG_MARK := ":sha256-"

  /** repoAndDigest: repository and the digest encoded in the name, "" if none. */
  function RepoAndDigest(dest: Dest): (string, string)
  {
    var i, j := Index(dest, DIGEST_MARK), LastIndex(dest, TAG_MARK);
    if i >= 0 then (dest[..i], dest[i + 1..])
    else if j >= 0 then (dest[..j], "sha256:" + dest[j + |TAG_MARK|..])
    else (dest, "")
  }

  function LiveDigests(live: set<Dest>): set<string>
  {
    set d | d in live && RepoAndDigest(d).1 != "" :: RepoAndDigest(d).0 + "@" + RepoAndDigest(d).1
  }

  /** liveImages.needs */
  predicate Needs(live: set<Dest>, dest: Dest)
  {
    || dest in live
    || (Index(dest, DIGEST_MARK) >= 0 && RepoAndDigest(dest).1 != "" &&
        RepoAndDigest(dest).0 + "@" + RepoAndDigest(dest).1 in LiveDigests(live))
  }

  /** liveDestinations over the states of the remaining ImageSets. */
  method LiveDestinations(states: seq<EntryMap>) returns (live: set<Dest>)
    ensures forall d :: d in live <==> exists i :: 0 <= i < |states| && d in states[i]
  {
    live := {};
    for i := 0 to |states|
      invariant forall d :: d in live <==> exists k :: 0 <= k < i && d in states[k]
    {
      live := live + states[i].Keys;
    }
  }

  /** Orphans that are needed again are not deleted. */
  method SnapshotOrphans(orphans: EntryMap, live: set<Dest>) returns (snapshot: EntryMap)
    ensures snapshot == map d | d in orphans && !Needs(live, d) :: orphans[d]
  {
    snapshot := orphans;
    var todo := orphans.Keys;
    ghost var done: set<Dest> := {};
    while todo != {}
      invariant todo !! done && todo + done == orphans.Keys
      invariant snapshot == map d | d in orphans && !(d in done && Needs(live, d)) :: orphans[d]
    {
      var d :| d in todo;
      if Needs(live, d) {
        snapshot := snapshot - {d};
      }
      todo, done := todo - {d}, done + {d};
    }
  }

  /** A removed ImageSet's exclusive images; what is shared or live stays. */
  method PartitionRemoved(state: EntryMap, index: SharedIndex, live: set<Dest>)
    returns (exclusive: EntryMap, shared: set<Dest>)
    ensures exclusive == map d | d in state && !IsShared(index, d) && !Needs(live, d) :: state[d]
    ensures shared == state.Keys - exclusive.Keys
  {
    exclusive, shared := map[], {};
    var todo := state.Keys;
    ghost var done: set<Dest> := {};
    while todo != {}
      invariant todo !! done && todo + done == state.Keys
      invariant exclusive == map d | d in done && !IsShared(index, d) && !Needs(live, d) :: state[d]
      invariant shared == done - exclusive.Keys
    {
      var d :| d in todo;
      if IsShared(index, d) || Needs(live, d) {
        shared := shared + {d};
      } else {
        exclusive := exclusive[d := state[d]];
      }
      todo, done := todo - {d}, done + {d};
    }
    assert done == state.Keys;
  }

  // ----------------------------------------------------------------- registry

  /** Tags and manifests per repository. */
  datatype Registry = Registry(tags: map<(string, string), string>, manifests: set<(string, string)>)

  const LATEST := "latest"

  function TagOf(r: Ref): string
  {
    if r.tag.Some? then r.tag.value else LATEST
  }

  predicate ResolvesRef(reg: Registry, r: Ref)
  {
    if r.digest.Some? then (r.repo, r.digest.value) in reg.manifests
    else (r.repo, TagOf(r)) in reg.tags && (r.repo, reg.tags[(r.repo, TagOf(r))]) in reg.manifests
  }

  predicate Resolves(reg: Registry, image: string)
  {
    ResolvesRef(reg, ParseRef(image))
  }

  function DeleteRef(reg: Registry, r: Ref): Registry
  {
    if r.digest.None? then reg.(tags := reg.tags - {(r.repo, TagOf(r))})
    else Registry(map t | t in reg.tags && !(t.0 == r.repo && reg.tags[t] == r.digest.value) :: reg.tags[t],
                  reg.manifests - {(r.repo, r.digest.value)})
  }

  /** DeleteManifest: a tag reference drops one tag, a digest reference drops the
      manifest and every tag of it. */
  function Delete(reg: Registry, image: string): Registry
  {
    DeleteRef(reg, ParseRef(image))
  }

  function DeleteAll(reg: Registry, images: seq<string>): Registry
  {
    if images == [] then reg else Delete(DeleteAll(reg, images[..|images| - 1]), images[|images| - 1])
  }

  datatype JobResult = JobResult(deleted: nat, skipped: nat, failed: nat)

  predicate Deletable(state: EntryMap, failing: set<Dest>, d: Dest)
  {
    d in state && state[d].state == Mirrored && d !in failing
  }

  ghost function Failing(state: EntryMap, failing: set<Dest>, within: set<Dest>): set<Dest>
  {
    set d | d in within && d in state && state[d].state == Mirrored && d in failing
  }

  /** order lists what was deleted among `within`. */
  ghost predicate DeletedIn(state: EntryMap, failing: set<Dest>, within: set<Dest>, order: seq<Dest>)
  {
    Distinct(order) && forall d :: d in order <==> d in within && Deletable(state, failing, d)
  }

  /** The cleanup Job: deletes every Mirrored image of the snapshot, in any order;
      the deletions in `failing` fail. The ConfigMap is kept after a failure. */
  method RunJob(state: EntryMap, reg: Registry, failing: set<Dest>)
    returns (reg': Registry, res: JobResult, keepConfigMap: bool, ghost order: seq<Dest>)
    ensures reg' == DeleteAll(reg, order) && DeletedIn(state, failing, state.Keys, order)
    ensures res.deleted == |order| && res.failed == |Failing(state, failing, state.Keys)|
    ensures res.deleted + res.skipped + res.failed == |state|
    ensures keepConfigMap <==> Failing(state, failing, state.Keys) != {}
  {
    reg', res, order := reg, JobResult(0, 0, 0), [];
    var todo := state.Keys;
    ghost var done: set<Dest> := {};
    while todo != {}
      invariant todo !! done && todo + done == state.Keys
      invariant reg' == DeleteAll(reg, order) && DeletedIn(state, failing, done, order)
      invariant res.deleted == |order| && res.failed == |Failing(state, failing, done)|
      invariant res.deleted + res.skipped + res.failed == |done|
    {
      var d :| d in todo;
      JobStep(state, failing, done, order, d);
      if state[d].state != Mirrored {
        res := res.(skipped := res.skipped + 1);
      } else if d in failing {
        res := res.(failed := res.failed + 1);
      } else {
        res := res.(deleted := res.deleted + 1);
        reg' := Delete(reg', d);
        assert (order + [d])[..|order|] == order;
        order := order + [d];
      }
      todo, done := todo - {d}, done + {d};
    }
    assert done == state.Keys;
    keepConfigMap := res.failed > 0;
  }

  lemma JobStep(state: EntryMap, failing: set<Dest>, done: set<Dest>, order: seq<Dest>, d: Dest)
    requires d in state && d !in done && DeletedIn(state, failing, done, order)
    ensures DeletedIn(state, failing, done + {d}, if Deletable(state, failing, d) then order + [d] else order)
    ensures |Failing(state, failing, done + {d})| ==
      |Failing(state, failing, done)| + (if state[d].state == Mirrored && d in failing then 1 else 0)
  {
    if state[d].state == Mirrored && d in failing {
      assert Failing(state, failing, done + {d}) == Failing(state, failing, done) + {d};
    } else {
      assert Failing(state, failing, done + {d}) == Failing(state, failing, done);
    }
  }

  // ------------------------------------------------------------------- safety

  /** No reference carries both a tag and a digest. */
  predicate NotBoth(image: string)
  {
    !(ParseRef(image).tag.Some? && ParseRef(image).digest.Some?)
  }

  /** repo@sha256:x or repo:sha256-x */
  predicate DigestNamed(image: string, x: string)
  {
    var r := ParseRef(image);
    (r.tag.None? && r.digest == Some("sha256:" + x)) || (r.tag == Some("sha256-" + x) && r.digest.None?)
  }

  /** A digest-derived tag names that digest. */
  ghost predicate TagsHonest(reg: Registry)
  {
    forall repo, x :: (repo, "sha256-" + x) in reg.tags ==> reg.tags[(repo, "sha256-" + x)] == "sha256:" + x
  }

  lemma FirstMark(base: string, mark: string, rest: string)
    requires mark != "" && mark[0] == '@' && forall i :: 0 <= i < |base| ==> base[i] != '@'
    ensures Index(base + mark + rest, mark) == |base|
  {
    var s := base + mark + rest;
    AtMiddle(base, mark, rest);
    forall k | 0 <= k < |base| ensures !At(s, mark, k)
    {
      if At(s, mark, k) { AtFirst(s, mark, k); assert false; }
    }
    IndexIs(s, mark, |base|);
  }

  /** The name of a digest reference gives repository and digest. */
  lemma DigestName(image: string, x: string)
    requires ParseRef(image).tag.None? && ParseRef(image).digest == Some("sha256:" + x)
    ensures Index(image, DIGEST_MARK) >= 0 && RepoAndDigest(image) == (ParseRef(image).repo, "sha256:" + x)
  {
    var repo := ParseRef(image).repo;
    DigestShape(image);
    assert image == repo + DIGEST_MARK + x by { Regroup(repo, x); }
    FirstMark(repo, DIGEST_MARK, x);
    MarkPrefix();
    assert image[|repo| + 1..] == "sha256:" + x;
  }

  lemma MarkPrefix()
    ensures DIGEST_MARK == AT + "sha256:"
  {
  }

  lemma Regroup(repo: string, x: string)
    ensures repo + AT + ("sha256:" + x) == repo + DIGEST_MARK + x
  {
  }

  /** An untagged digest reference is the repository, an at sign and the digest. */
  lemma DigestShape(image: string)
    requires ParseRef(image).tag.None? && ParseRef(image).digest.Some?
    ensures image == ParseRef(image).repo + AT + ParseRef(image).digest.value
    ensures forall i :: 0 <= i < |ParseRef(image).repo| ==> ParseRef(image).repo[i] != '@'
  {
    ParseRefPrints(image);
    var at := Index(image, AT);
    forall k | 0 <= k < at ensures image[k] != '@' { AtChar(image, '@', k); }
  }

  /** The name of a digest-derived tag gives repository and digest. */
  lemma TagName(image: string, x: string)
    requires ParseRef(image).tag == Some("sha256-" + x) && ParseRef(image).digest.None?
    ensures RepoAndDigest(image) == (ParseRef(image).repo, "sha256:" + x)
  {
    var repo := ParseRef(image).repo;
    TagShape(image);
    RegroupTag(repo, x);
    NoDigestMark(image);
    LastMark(image, repo, x);
    assert image[..|repo|] == repo && image[|repo| + |TAG_MARK|..] == x;
  }

  lemma RegroupTag(repo: string, x: string)
    ensures repo + (COLON + ("sha256-" + x)) == repo + TAG_MARK + x
  {
  }

  /** A tag reference is the repository, a colon and the tag, which has none. */
  lemma TagShape(image: string)
    requires ParseRef(image).tag.Some? && ParseRef(image).digest.None?
    ensures image == ParseRef(image).repo + (COLON + ParseRef(image).tag.value)
    ensures forall i :: 0 <= i < |image| ==> image[i] != '@'
    ensures forall i :: |ParseRef(image).repo| < i < |image| ==> image[i] != ':'
  {
    SplitTagPrints(image);
    forall k | 0 <= k < |image| ensures image[k] != '@' { AtChar(image, '@', k); }
    forall k | |ParseRef(image).repo| < k < |image| ensures image[k] != ':' { AtChar(image, ':', k); }
  }

  lemma NoDigestMark(s: string)
    requires forall i :: 0 <= i < |s| ==> s[i] != '@'
    ensures Index(s, DIGEST_MARK) == -1
  {
    forall k ensures !At(s, DIGEST_MARK, k)
    {
      if At(s, DIGEST_MARK, k) { AtFirst(s, DIGEST_MARK, k); assert false; }
    }
  }

  lemma LastMark(s: string, repo: string, x: string)
    requires s == repo + TAG_MARK + x && forall i :: |repo| < i < |s| ==> s[i] != ':'
    ensures LastIndex(s, TAG_MARK) == |repo|
  {
    AtMiddle(repo, TAG_MARK, x);
    forall k | k > |repo| ensures !At(s, TAG_MARK, k)
    {
      if At(s, TAG_MARK, k) { AtFirst(s, TAG_MARK, k); assert false; }
    }
    LastIndexIs(s, TAG_MARK, |repo|);
  }

  /** Deleting by digest what a live image of the repository names is refused. */
  lemma NeededByDigest(live: set<Dest>, l: Dest, d: Dest, x: string)
    requires l in live && DigestNamed(l, x)
    requires ParseRef(d) == Ref(ParseRef(l).repo, None, Some("sha256:" + x))
    ensures Needs(live, d)
  {
    DigestName(d, x);
    if ParseRef(l).tag.None? { DigestName(l, x); } else { TagName(l, x); }
    assert RepoAndDigest(l).0 + "@" + RepoAndDigest(l).1 in LiveDigests(live);
  }

  lemma SameRefSameImage(a: Dest, b: Dest)
    requires ParseRef(a) == ParseRef(b)
    ensures a == b
  {
    ParseRefPrints(a);
    ParseRefPrints(b);
  }

  /** What a deletion takes away from a digest-named reference. */
  lemma DeleteRefKeeps(reg: Registry, r: Ref, s: Ref, x: string)
    requires ResolvesRef(reg, r)
    requires r.digest == Some("sha256:" + x) ||
      (r.digest.None? && r.tag.Some? && ((r.repo, r.tag.value) in reg.tags ==> reg.tags[(r.repo, r.tag.value)] == "sha256:" + x))
    requires s.digest.Some? ==> !(s.repo == r.repo && s.digest.value == "sha256:" + x)
    requires s.digest.None? && r.digest.None? ==> !(s.repo == r.repo && TagOf(s) == TagOf(r))
    ensures ResolvesRef(DeleteRef(reg, s), r)
  {
  }

  /** One permitted deletion leaves every digest-named live image resolvable. */
  lemma DeleteKeeps(reg: Registry, live: set<Dest>, d: Dest, l: Dest, x: string)
    requires TagsHonest(reg) && l in live && DigestNamed(l, x) && NotBoth(d) && !Needs(live, d)
    requires Resolves(reg, l)
    ensures Resolves(Delete(reg, d), l)
  {
    var r, s := ParseRef(l), ParseRef(d);
    if s.digest.Some? && s.repo == r.repo && s.digest.value == "sha256:" + x {
      NeededByDigest(live, l, d, x);
      assert false;
    }
    if s.digest.None? && r.digest.None? && s.repo == r.repo && TagOf(s) == TagOf(r) {
      assert ("sha256-" + x)[0] != LATEST[0];
      SameRefSameImage(d, l);
      assert false;
    }
    DeleteRefKeeps(reg, r, s, x);
  }

  lemma DeleteKeepsTags(reg: Registry, d: Dest)
    requires TagsHonest(reg)
    ensures TagsHonest(Delete(reg, d))
  {
  }

  /** Deleting d removes the manifest that l names by digest x. */
  predicate Takes(d: Dest, l: Dest, x: string)
  {
    ParseRef(d).repo == ParseRef(l).repo && ParseRef(d).digest == Some("sha256:" + x)
  }

  /** Exactly when a deletion the live check permits takes a live image: it is a
      digest reference to the same manifest of the same repository, which the
      check overlooks only because the reference has a tag as well. */
  lemma DeleteKeepsIff(reg: Registry, live: set<Dest>, d: Dest, l: Dest, x: string)
    requires TagsHonest(reg) && l in live && DigestNamed(l, x) && Resolves(reg, l) && !Needs(live, d)
    ensures Resolves(Delete(reg, d), l) <==> !Takes(d, l, x)
    ensures Takes(d, l, x) ==> !NotBoth(d)
  {
    var r, s := ParseRef(l), ParseRef(d);
    if s.repo == r.repo && s.digest == Some("sha256:" + x) {
      if s.tag.None? {
        NeededByDigest(live, l, d, x);
      }
    } else if NotBoth(d) {
      DeleteKeeps(reg, live, d, l, x);
    } else {
      DeleteRefKeeps(reg, r, s, x);
    }
  }

  lemma DeleteNeverRestores(reg: Registry, d: Dest, l: Dest)
    requires Resolves(Delete(reg, d), l)
    ensures Resolves(reg, l)
  {
  }

  /** Running a Job on images that are not needed: a live destination named by its
      digest stays resolvable exactly if none of them takes its manifest. */
  lemma {:induction false} CleanupKeepsLiveIff(reg: Registry, live: set<Dest>, images: seq<Dest>, l: Dest, x: string)
    requires TagsHonest(reg) && l in live && DigestNamed(l, x) && Resolves(reg, l)
    requires forall d :: d in images ==> !Needs(live, d)
    ensures TagsHonest(DeleteAll(reg, images))
    ensures Resolves(DeleteAll(reg, images), l) <==> forall d :: d in images ==> !Takes(d, l, x)
  {
    if images != [] {
      var n := |images| - 1;
      var before := DeleteAll(reg, images[..n]);
      CleanupKeepsLiveIff(reg, live, images[..n], l, x);
      assert images == images[..n] + [images[n]];
      DeleteKeepsTags(before, images[n]);
      if Resolves(before, l) {
        DeleteKeepsIff(before, live, images[n], l, x);
      } else if Resolves(Delete(before, images[n]), l) {
        DeleteNeverRestores(before, images[n], l);
      }
    }
  }

  /** ... which none does that is not both tagged and by digest. */
  lemma CleanupKeepsLive(reg: Registry, live: set<Dest>, images: seq<Dest>, l: Dest, x: string)
    requires TagsHonest(reg) && l in live && DigestNamed(l, x) && Resolves(reg, l)
    requires forall d :: d in images ==> NotBoth(d) && !Needs(live, d)
    ensures TagsHonest(DeleteAll(reg, images)) && Resolves(DeleteAll(reg, images), l)
  {
    CleanupKeepsLiveIff(reg, live, images, l, x);
    forall d | d in images ensures !Takes(d, l, x) { DeleteKeepsIff(reg, live, d, l, x); }
  }

  /** What survives a Job on the images of `state` that are not needed. */
  ghost predicate SurvivesJob(live: set<Dest>, state: EntryMap, failing: set<Dest>, l: Dest, x: string)
  {
    forall d :: Deletable(state, failing, d) && !Needs(live, d) ==> !Takes(d, l, x)
  }

  ghost predicate LiveIn(states: seq<EntryMap>, live: set<Dest>)
  {
    forall d :: d in live <==> exists i :: 0 <= i < |states| && d in states[i]
  }

  /** From reg to reg', a live destination named by its digest stays resolvable
      exactly if the Job does not take its manifest. */
  ghost predicate KeepsExactly(reg: Registry, reg': Registry, live: set<Dest>, state: EntryMap, failing: set<Dest>)
  {
    forall l, x :: l in live && DigestNamed(l, x) && Resolves(reg, l) ==>
      (Resolves(reg', l) <==> SurvivesJob(live, state, failing, l, x))
  }

  ghost predicate KeepsAll(reg: Registry, reg': Registry, live: set<Dest>)
  {
    forall l, x :: l in live && DigestNamed(l, x) && Resolves(reg, l) ==> Resolves(reg', l)
  }

  ghost predicate NoneBoth(state: EntryMap)
  {
    forall d :: d in state ==> NotBoth(d)
  }

  /** The whole path of an orphan cleanup, from the states of the remaining
      ImageSets to the registry after the Job. */
  method CleanUpOrphans(states: seq<EntryMap>, orphans: EntryMap, reg: Registry, failing: set<Dest>)
    returns (reg': Registry, live: set<Dest>)
    requires TagsHonest(reg)
    ensures LiveIn(states, live) && KeepsExactly(reg, reg', live, orphans, failing)
    ensures NoneBoth(orphans) ==> KeepsAll(reg, reg', live)
    ensures Removes(reg', live, orphans, failing)
  {
    live := LiveDestinations(states);
    var snapshot := SnapshotOrphans(orphans, live);
    ghost var order;
    var res, keep;
    reg', res, keep, order := RunJob(snapshot, reg, failing);
    JobKeeps(reg, live, orphans, failing, order);
    JobRemoves(reg, live, orphans, failing, order);
  }

  /** order deletes exactly what of state is not needed. */
  lemma JobKeeps(reg: Registry, live: set<Dest>, state: EntryMap, failing: set<Dest>, order: seq<Dest>)
    requires TagsHonest(reg) && forall d :: d in order <==> Deletable(state, failing, d) && !Needs(live, d)
    ensures KeepsExactly(reg, DeleteAll(reg, order), live, state, failing)
    ensures NoneBoth(state) ==> KeepsAll(reg, DeleteAll(reg, order), live)
  {
    forall l, x | l in live && DigestNamed(l, x) && Resolves(reg, l)
      ensures Resolves(DeleteAll(reg, order), l) <==> SurvivesJob(live, state, failing, l, x)
      ensures NoneBoth(state) ==> Resolves(DeleteAll(reg, order), l)
    {
      JobSurvivors(reg, live, state, failing, order, l, x);
    }
  }

  lemma JobSurvivors(reg: Registry, live: set<Dest>, state: EntryMap, failing: set<Dest>, order: seq<Dest>, l: Dest, x: string)
    requires TagsHonest(reg) && l in live && DigestNamed(l, x) && Resolves(reg, l)
    requires forall d :: d in order <==> Deletable(state, failing, d) && !Needs(live, d)
    ensures Resolves(DeleteAll(reg, order), l) <==> SurvivesJob(live, state, failing, l, x)
    ensures NoneBoth(state) ==> Resolves(DeleteAll(reg, order), l)
  {
    CleanupKeepsLiveIff(reg, live, order, l, x);
    forall d | Deletable(state, failing, d) && !Needs(live, d) && NotBoth(d) ensures !Takes(d, l, x)
    {
      DeleteKeepsIff(reg, live, d, l, x);
    }
  }

  /** The same for the exclusive images of a removed ImageSet: those its index
      does not list as shared. */
  method CleanUpRemoved(states: seq<EntryMap>, removed: EntryMap, index: SharedIndex, reg: Registry, failing: set<Dest>)
    returns (reg': Registry, live: set<Dest>)
    requires TagsHonest(reg)
    ensures LiveIn(states, live) && KeepsExactly(reg, reg', live, Unshared(removed, index), failing)
    ensures NoneBoth(removed) ==> KeepsAll(reg, reg', live)
    ensures Removes(reg', live, Unshared(removed, index), failing)
  {
    live := LiveDestinations(states);
    var exclusive, shared := PartitionRemoved(removed, index, live);
    ghost var order;
    var res, keep;
    reg', res, keep, order := RunJob(exclusive, reg, failing);
    JobKeeps(reg, live, Unshared(removed, index), failing, order);
    JobRemoves(reg, live, Unshared(removed, index), failing, order);
  }

  ghost function Unshared(state: EntryMap, index: SharedIndex): EntryMap
  {
    map d | d in state && !IsShared(index, d) :: state[d]
  }

  /** A name with none of the characters that separate the parts of a reference. */
  ghost predicate Plain(s: string)
  {
    forall i :: 0 <= i < |s| ==> s[i] != '@' && s[i] != ':' && s[i] != '/'
  }

  lemma LastAt(s: string, c: char, i: nat)
    requires i < |s| && s[i] == c && forall k :: i < k < |s| ==> s[k] != c
    ensures LastIndex(s, [c]) == i
  {
    forall k ensures At(s, [c], k) <==> 0 <= k < |s| && s[k] == c { AtChar(s, c, k); }
    LastIndexIs(s, [c], i);
  }

  lemma NoneAt(s: string, c: char)
    requires forall k :: 0 <= k < |s| ==> s[k] != c
    ensures Index(s, [c]) == -1 && LastIndex(s, [c]) == -1
  {
    forall k ensures !At(s, [c], k) { AtChar(s, c, k); }
  }

  /** The last colon ends the repository, whatever port or path it has. */
  lemma SplitTagOf(repo: string, tag: string)
    requires Plain(tag)
    ensures SplitTag(repo + COLON + tag) == (repo, Some(tag))
  {
    var base := repo + COLON + tag;
    LastAt(base, ':', |repo|);
    NoneAfter(base, '/', |repo|);
    assert base[..|repo|] == repo && base[|repo| + 1..] == tag;
  }

  lemma NoneAfter(s: string, c: char, i: nat)
    requires i < |s| && forall k :: i <= k < |s| ==> s[k] != c
    ensures LastIndex(s, [c]) < i
  {
    forall k ensures At(s, [c], k) <==> 0 <= k < |s| && s[k] == c { AtChar(s, c, k); }
  }

  lemma ParseTagged(repo: string, tag: string)
    requires '@' !in repo && Plain(tag)
    ensures ParseRef(repo + COLON + tag) == Ref(repo, Some(tag), None)
  {
    SplitTagOf(repo, tag);
    NoneAt(repo + COLON + tag, '@');
  }

  lemma ParseTaggedDigest(repo: string, tag: string, x: string)
    requires '@' !in repo && Plain(tag)
    ensures ParseRef(repo + COLON + tag + DIGEST_MARK + x) == Ref(repo, Some(tag), Some("sha256:" + x))
    ensures RepoAndDigest(repo + COLON + tag + DIGEST_MARK + x) == (repo + COLON + tag, "sha256:" + x)
  {
    var base := repo + COLON + tag;
    var s := base + DIGEST_MARK + x;
    SplitTagOf(repo, tag);
    FirstMark(base, AT, "sha256:" + x);
    Regroup(base, x);
    FirstMark(base, DIGEST_MARK, x);
    assert s[..|base|] == base && s[|base| + 1..] == "sha256:" + x;
  }

  /** Such references exist: deleting repo:tag@sha256:x is permitted although
      repo:sha256-x is live, and takes it away. */
  lemma TaggedDigestTakesLive(repo: string, tag: string, x: string, reg: Registry)
    requires '@' !in repo && Plain(tag) && Plain(x)
    requires TagsHonest(reg) && Resolves(reg, repo + COLON + ("sha256-" + x))
    ensures !Needs({repo + COLON + ("sha256-" + x)}, repo + COLON + tag + DIGEST_MARK + x)
    ensures !Resolves(Delete(reg, repo + COLON + tag + DIGEST_MARK + x), repo + COLON + ("sha256-" + x))
  {
    var l, d := repo + COLON + ("sha256-" + x), repo + COLON + tag + DIGEST_MARK + x;
    ParseTagged(repo, "sha256-" + x);
    ParseTaggedDigest(repo, tag, x);
    OverlookedByNeeds(repo, tag, x);
    DeleteKeepsIff(reg, {l}, d, l, x);
  }

  lemma OverlookedByNeeds(repo: string, tag: string, x: string)
    requires '@' !in repo && Plain(tag) && Plain(x)
    ensures !Needs({repo + COLON + ("sha256-" + x)}, repo + COLON + tag + DIGEST_MARK + x)
  {
    var l, d := repo + COLON + ("sha256-" + x), repo + COLON + tag + DIGEST_MARK + x;
    ParseTagged(repo, "sha256-" + x);
    ParseTaggedDigest(repo, tag, x);
    TagName(l, x);
    TaggedIsOther(repo, tag, x);
    OtherKey(repo, tag, "sha256:" + x);
    OneLiveDigest(l, repo, "sha256:" + x);
  }

  lemma OneLiveDigest(l: Dest, repo: string, digest: string)
    requires RepoAndDigest(l) == (repo, digest) && digest != ""
    ensures LiveDigests({l}) == {repo + "@" + digest}
  {
  }

  /** The key of a tagged reference is not that of its repository. */
  lemma OtherKey(repo: string, tag: string, digest: string)
    ensures repo + COLON + tag + "@" + digest != repo + "@" + digest
  {
    var wanted, needed := repo + COLON + tag + "@" + digest, repo + "@" + digest;
    assert wanted[|repo|] == ':' && needed[|repo|] == '@';
  }

  /** A tagged digest reference is not the digest-derived tag. */
  lemma TaggedIsOther(repo: string, tag: string, x: string)
    requires '@' !in repo && Plain(tag) && Plain(x)
    ensures repo + COLON + ("sha256-" + x) != repo + COLON + tag + DIGEST_MARK + x
  {
    var l, d := repo + COLON + ("sha256-" + x), repo + COLON + tag + DIGEST_MARK + x;
    assert d[|repo| + 1 + |tag|] == '@';
    assert forall k :: 0 <= k < |l| ==> l[k] != '@';
  }

  // --------------------------------------------------------- what is needed

  /** A reference without a digest, or without a tag and by a sha256 digest. */
  ghost predicate OneWay(image: string)
  {
    var r := ParseRef(image);
    r.digest.None? || (r.tag.None? && exists x :: Plain(x) && r.digest == Some("sha256:" + x))
  }

  /** A live destination is the image, or is named by the digest the image has in
      the same repository. */
  ghost predicate NamedByLive(live: set<Dest>, image: Dest)
  {
    || image in live
    || exists l, x :: l in live && DigestNamed(l, x) && ParseRef(image) == Ref(ParseRef(l).repo, None, Some("sha256:" + x))
  }

  lemma UndigestedHasNoAt(image: string)
    requires ParseRef(image).digest.None?
    ensures forall i :: 0 <= i < |image| ==> image[i] != '@'
  {
    forall k | 0 <= k < |image| ensures image[k] != '@' { AtChar(image, '@', k); }
  }

  lemma NeedsWithoutDigest(live: set<Dest>, image: Dest)
    requires ParseRef(image).digest.None?
    ensures Needs(live, image) <==> image in live
  {
    UndigestedHasNoAt(image);
    NoDigestMark(image);
  }

  /** A live key is the live destination itself, or made from a digest-derived tag. */
  lemma LiveKey(l: Dest, repo: string, x: string)
    requires '@' !in repo && Plain(x) && RepoAndDigest(l).1 != ""
    requires RepoAndDigest(l).0 + "@" + RepoAndDigest(l).1 == repo + DIGEST_MARK + x
    ensures l == repo + DIGEST_MARK + x || l == repo + TAG_MARK + x
  {
    var i, j := Index(l, DIGEST_MARK), LastIndex(l, TAG_MARK);
    if i >= 0 {
      CutAt(l, i, DIGEST_MARK);
      SplitMark(l[..i], l[i + |DIGEST_MARK|..]);
      AfterMark(l, i);
    } else {
      CutAt(l, j, TAG_MARK);
      var front, back := l[..j], l[j + |TAG_MARK|..];
      SplitMark(front, back);
      SameSplit(front, back, repo, x);
    }
  }

  lemma AfterMark(l: string, i: nat)
    requires At(l, DIGEST_MARK, i)
    ensures l[i + 1..] == "sha256:" + l[i + |DIGEST_MARK|..]
  {
    assert l[i..i + |DIGEST_MARK|] == DIGEST_MARK;
    assert l[i + 1..] == l[i..i + |DIGEST_MARK|][1..] + l[i + |DIGEST_MARK|..];
  }

  lemma SplitMark(front: string, back: string)
    ensures front + "@" + ("sha256:" + back) == front + DIGEST_MARK + back
    ensures front + DIGEST_MARK + back == front + (DIGEST_MARK + back)
  {
  }

  /** The first mark cuts both readings at the same place. */
  lemma SameSplit(front: string, back: string, repo: string, x: string)
    requires '@' !in repo && Plain(x) && front + DIGEST_MARK + back == repo + DIGEST_MARK + x
    ensures front == repo && back == x
  {
    var s := repo + DIGEST_MARK + x;
    assert s == front + DIGEST_MARK + back;
    assert s[|front|] == '@';
    assert forall k :: 0 <= k < |repo| ==> s[k] == repo[k] && s[k] != '@';
    if |front| > |repo| {
      BehindMark(repo, x, |front|);
    }
    assert s[..|front|] == front && s[..|repo|] == repo;
    assert s[|front| + |DIGEST_MARK|..] == back && s[|repo| + |DIGEST_MARK|..] == x;
  }

  lemma BehindMark(repo: string, x: string, k: nat)
    requires Plain(x) && |repo| < k < |repo + DIGEST_MARK + x|
    ensures (repo + DIGEST_MARK + x)[k] != '@'
  {
    var s := repo + DIGEST_MARK + x;
    if k < |repo| + |DIGEST_MARK| {
      assert s[k] == DIGEST_MARK[k - |repo|];
    } else {
      assert s[k] == x[k - |repo| - |DIGEST_MARK|];
    }
  }

  /** Whose key is that of repo@sha256:x. */
  lemma KeyNames(l: Dest, repo: string, x: string)
    requires '@' !in repo && Plain(x) && RepoAndDigest(l).1 != ""
    requires RepoAndDigest(l).0 + "@" + RepoAndDigest(l).1 == repo + DIGEST_MARK + x
    ensures l == repo + DIGEST_MARK + x || (DigestNamed(l, x) && ParseRef(l).repo == repo)
  {
    LiveKey(l, repo, x);
    if l == repo + TAG_MARK + x {
      TagMarkNamed(l, repo, x);
    }
  }

  lemma TagMarkNamed(l: Dest, repo: string, x: string)
    requires l == repo + TAG_MARK + x && '@' !in repo && Plain(x)
    ensures DigestNamed(l, x) && ParseRef(l).repo == repo
  {
    TagMarkCut(repo, x);
    PlainTag(x);
    ParseTagged(repo, "sha256-" + x);
  }

  lemma TagMarkCut(repo: string, x: string)
    ensures repo + TAG_MARK + x == repo + COLON + ("sha256-" + x)
  {
  }

  lemma PlainTag(x: string)
    requires Plain(x)
    ensures Plain("sha256-" + x)
  {
  }

  lemma NeedsByDigest(live: set<Dest>, image: Dest, x: string)
    requires ParseRef(image).tag.None? && ParseRef(image).digest == Some("sha256:" + x) && Plain(x)
    ensures Needs(live, image) <==> NamedByLive(live, image)
  {
    if NamedByLive(live, image) && image !in live {
      var l, y :| l in live && DigestNamed(l, y) && ParseRef(image) == Ref(ParseRef(l).repo, None, Some("sha256:" + y));
      NeededByDigest(live, l, image, y);
    }
    if Needs(live, image) && image !in live {
      var l := NeededBecause(live, image, x);
      assert l in live && DigestNamed(l, x) && ParseRef(image) == Ref(ParseRef(l).repo, None, Some("sha256:" + x));
    }
  }

  lemma NeededBecause(live: set<Dest>, image: Dest, x: string) returns (l: Dest)
    requires ParseRef(image).tag.None? && ParseRef(image).digest == Some("sha256:" + x) && Plain(x)
    requires Needs(live, image) && image !in live
    ensures l in live && DigestNamed(l, x) && ParseRef(l).repo == ParseRef(image).repo
  {
    var repo := ParseRef(image).repo;
    DigestName(image, x);
    l := LiveWithKey(live, repo + "@" + ("sha256:" + x));
    SplitMark(repo, x);
    DigestShape(image);
    Regroup(repo, x);
    KeyNames(l, repo, x);
  }

  lemma LiveWithKey(live: set<Dest>, key: string) returns (l: Dest)
    requires key in LiveDigests(live)
    ensures l in live && RepoAndDigest(l).1 != "" && RepoAndDigest(l).0 + "@" + RepoAndDigest(l).1 == key
  {
    l :| l in live && RepoAndDigest(l).1 != "" && RepoAndDigest(l).0 + "@" + RepoAndDigest(l).1 == key;
  }

  /** The live check, in terms of what references name. */
  lemma NeedsIff(live: set<Dest>, image: Dest)
    requires OneWay(image)
    ensures Needs(live, image) <==> NamedByLive(live, image)
  {
    if ParseRef(image).digest.None? {
      NeedsWithoutDigest(live, image);
    } else {
      var x :| Plain(x) && ParseRef(image).digest == Some("sha256:" + x);
      NeedsByDigest(live, image, x);
    }
  }

  // ------------------------------------------------------------ what is gone

  lemma DeletedAtOnce(reg: Registry, image: Dest)
    ensures !Resolves(Delete(reg, image), image)
  {
  }

  /** A tag reference takes one tag, a digest reference the manifest and every tag
      of it; nothing else changes. */
  lemma DeleteTakes(reg: Registry, image: Dest, repo: string, tag: string)
    ensures
      var r, reg' := ParseRef(image), Delete(reg, image);
      && ((repo, tag) in reg'.tags <==>
            (repo, tag) in reg.tags &&
            !(repo == r.repo && (if r.digest.None? then tag == TagOf(r) else reg.tags[(repo, tag)] == r.digest.value)))
      && ((repo, tag) in reg'.tags ==> reg'.tags[(repo, tag)] == reg.tags[(repo, tag)])
      && forall digest :: (repo, digest) in reg'.manifests <==>
           (repo, digest) in reg.manifests && !(repo == r.repo && r.digest == Some(digest))
  {
  }

  lemma {:induction false} DeletedStaysGone(reg: Registry, images: seq<Dest>, image: Dest)
    requires image in images
    ensures !Resolves(DeleteAll(reg, images), image)
  {
    var n := |images| - 1;
    var before := DeleteAll(reg, images[..n]);
    assert images == images[..n] + [images[n]];
    if image == images[n] {
      DeletedAtOnce(before, image);
    } else {
      DeletedStaysGone(reg, images[..n], image);
      if Resolves(Delete(before, images[n]), image) {
        DeleteNeverRestores(before, images[n], image);
      }
    }
  }

  /** Everything of state that was mirrored, could be deleted and no live
      destination names is gone. */
  ghost predicate Removes(reg: Registry, live: set<Dest>, state: EntryMap, failing: set<Dest>)
  {
    forall d :: d in state && state[d].state == Mirrored && d !in failing && OneWay(d) && !NamedByLive(live, d) ==>
      !Resolves(reg, d)
  }

  lemma JobRemoves(reg: Registry, live: set<Dest>, state: EntryMap, failing: set<Dest>, order: seq<Dest>)
    requires forall d :: d in order <==> Deletable(state, failing, d) && !Needs(live, d)
    ensures Removes(DeleteAll(reg, order), live, state, failing)
  {
    forall d | d in state && state[d].state == Mirrored && d !in failing && OneWay(d) && !NamedByLive(live, d)
      ensures !Resolves(DeleteAll(reg, order), d)
    {
      NeedsIff(live, d);
      DeletedStaysGone(reg, order, d);
    }
  }
}

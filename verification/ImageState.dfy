module Options {
  datatype Option<+T> = None | Some(value: T)
}

/** The per-image state that the manager keeps and stores in ConfigMaps. */
module ImageState {
  import opened Options

  type Dest = string
  type Name = string

  datatype State = Pending | Mirrored | Failed

  datatype Origin =
    | OriginRelease
    | OriginOperator
    | OriginAdditional
    | OriginHelm
    | OriginHelmChart
    | OriginUnknown  // written before origins were recorded

  /** Which spec entry of an ImageSet produced a destination. */
  datatype SpecMeta =
    SpecMeta(origin: Origin, entrySig: string, originRef: string, catalog: string, isBundleImage: bool)

  /** Everything but source and meta is the lifecycle of the one mirrored image. */
  datatype Entry =
    Entry(source: string, state: State, lastError: string, retryCount: nat, meta: SpecMeta,
          permanentlyFailed: bool, nextRetryAt: Option<int>, signatureVerified: bool, sourceDigest: string)

  type EntryMap = map<Dest, Entry>

  /** One ImageSet's state ConfigMap: entries and the catalog digests they were
      resolved from, written in a single update. */
  datatype ConfigMap = ConfigMap(entries: EntryMap, digests: map<string, string>)

  /** The same image up to source and spec metadata. */
  predicate SameLifecycle(a: Entry, b: Entry)
  {
    a.(source := b.source, meta := b.meta) == b
  }

  // ------------------------------------------------------------------- counts

  datatype Counts = Counts(total: nat, mirrored: nat, pending: nat, failed: nat)

  /** How the status counts one entry. */
  datatype Kind = AsMirrored | AsFailed | AsPending

  function KindOf(e: Entry): Kind
  {
    if e.state == Mirrored then AsMirrored else if e.permanentlyFailed then AsFailed else AsPending
  }

  ghost function OfKind(state: EntryMap, dests: set<Dest>, k: Kind): set<Dest>
  {
    set d | d in dests && d in state && KindOf(state[d]) == k
  }

  ghost function CountsOf(state: EntryMap): Counts
  {
    Counts(|state|, |OfKind(state, state.Keys, AsMirrored)|, |OfKind(state, state.Keys, AsPending)|,
           |OfKind(state, state.Keys, AsFailed)|)
  }

  lemma OfKindMore(state: EntryMap, dests: set<Dest>, d: Dest, k: Kind)
    requires d in state && d !in dests
    ensures |OfKind(state, dests + {d}, k)| == |OfKind(state, dests, k)| + (if KindOf(state[d]) == k then 1 else 0)
  {
    if KindOf(state[d]) == k {
      assert OfKind(state, dests + {d}, k) == OfKind(state, dests, k) + {d};
    } else {
      assert OfKind(state, dests + {d}, k) == OfKind(state, dests, k);
    }
  }

  lemma CountMore(state: EntryMap, dests: set<Dest>, d: Dest)
    requires d in state && d !in dests
    ensures forall k :: |OfKind(state, dests + {d}, k)| == |OfKind(state, dests, k)| + (if KindOf(state[d]) == k then 1 else 0)
  {
    forall k ensures |OfKind(state, dests + {d}, k)| == |OfKind(state, dests, k)| + (if KindOf(state[d]) == k then 1 else 0)
    {
      OfKindMore(state, dests, d, k);
    }
  }

  /** Counts a state in any iteration order. */
  method Count(state: EntryMap) returns (c: Counts)
    ensures c == CountsOf(state)
    ensures c.total == c.mirrored + c.pending + c.failed
    ensures c.mirrored == |set d | d in state && state[d].state == Mirrored|
    ensures c.failed == |set d | d in state && state[d].state != Mirrored && state[d].permanentlyFailed|
  {
    var mirrored, pending, failed := 0, 0, 0;
    var todo := state.Keys;
    ghost var done: set<Dest> := {};
    while todo != {}
      invariant todo !! done && todo + done == state.Keys
      invariant mirrored == |OfKind(state, done, AsMirrored)|
      invariant pending == |OfKind(state, done, AsPending)|
      invariant failed == |OfKind(state, done, AsFailed)|
      invariant mirrored + pending + failed == |done|
    {
      var d :| d in todo;
      CountMore(state, done, d);
      if state[d].state == Mirrored {
        mirrored := mirrored + 1;
      } else if state[d].permanentlyFailed {
        failed := failed + 1;
      } else {
        pending := pending + 1;
      }
      todo, done := todo - {d}, done + {d};
    }
    assert done == state.Keys;
    KindsAre(state);
    c := Counts(|state|, mirrored, pending, failed);
  }

  lemma KindsAre(state: EntryMap)
    ensures OfKind(state, state.Keys, AsMirrored) == set d | d in state && state[d].state == Mirrored
    ensures OfKind(state, state.Keys, AsFailed) ==
      set d | d in state && state[d].state != Mirrored && state[d].permanentlyFailed
  {
  }

  // ------------------------------------------------------------- shared index

  type SharedIndex = map<Dest, seq<Name>>

  function Without(names: seq<Name>, name: Name): seq<Name>
  {
    if names == [] then [] else
      var last := names[|names| - 1];
      Without(names[..|names| - 1], name) + (if last == name then [] else [last])
  }

  lemma {:induction false} WithoutFacts(names: seq<Name>, name: Name)
    ensures forall n :: n in Without(names, name) <==> n in names && n != name
    ensures name !in names ==> Without(names, name) == names
    ensures Distinct(names) ==> Distinct(Without(names, name))
    ensures |Without(names, name)| <= |names|
    ensures name in names ==> |Without(names, name)| < |names|
  {
    if names != [] {
      var k := |names| - 1;
      WithoutFacts(names[..k], name);
      assert names == names[..k] + [names[k]];
      if Distinct(names) {
        assert Distinct(names[..k]);
        assert names[k] !in names[..k];
      }
    }
  }

  ghost predicate Distinct(names: seq<Name>)
  {
    forall i, j :: 0 <= i < j < |names| ==> names[i] != names[j]
  }

  predicate IsShared(index: SharedIndex, dest: Dest)
  {
    dest in index && |index[dest]| >= 2
  }
}

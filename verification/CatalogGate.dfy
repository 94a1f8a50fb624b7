/** The controller's gate in front of catalog builds: what one read of the
    imagestate ConfigMap allows, which jobs are deleted and created, and how
    often a rebuild can be started. */
module CatalogGate {
  import opened Options
  import opened ImageState
  import opened CatalogFilter

  /** sig is the spec entry's signature, the key its digest is recorded under. */
  datatype Operator = Operator(catalog: string, full: bool, packages: seq<IncludePackage>, sig: string)

  // -------------------------------------------------------------- cache tokens

  const CACHE_PREFIX := "v5:"

  function CacheValue(digest: string): string
  {
    CACHE_PREFIX + digest
  }

  function ParseCacheDigest(value: string): Option<string>
  {
    if CACHE_PREFIX <= value && |value| > |CACHE_PREFIX| then Some(value[|CACHE_PREFIX|..]) else None
  }

  lemma CacheRoundTrip(digest: string, value: string)
    ensures digest != "" ==> ParseCacheDigest(CacheValue(digest)) == Some(digest)
    ensures ParseCacheDigest(value).Some? ==> CacheValue(ParseCacheDigest(value).value) == value
  {
  }

  /** The digest recorded for a spec entry. */
  function RecordedDigest(digests: map<string, string>, sig: string): Option<string>
  {
    if sig in digests then ParseCacheDigest(digests[sig]) else None
  }

  // ------------------------------------------------------------------ snapshot

  datatype Snapshot = Snapshot(complete: bool, knowState: bool, pending: nat, digests: map<string, string>)

  predicate Unfinished(e: Entry)
  {
    e.state != Mirrored && !e.permanentlyFailed
  }

  ghost predicate SigSeen(entries: EntryMap, sig: string)
  {
    exists d :: d in entries && entries[d].meta.origin == OriginOperator && entries[d].meta.entrySig == sig
  }

  ghost predicate HasOperatorEntry(entries: EntryMap)
  {
    exists d :: d in entries && entries[d].meta.origin == OriginOperator
  }

  /** When a catalog may be built from the ConfigMap: nothing unfinished, the
      spec observed, and every operator entry of the spec seen in the state. */
  ghost predicate Complete(cm: ConfigMap, operators: seq<Operator>, observed: bool)
  {
    && (forall d :: d in cm.entries ==> !Unfinished(cm.entries[d]))
    && HasOperatorEntry(cm.entries) && observed
    && (SigSeen(cm.entries, "") ||
        forall op :: op in operators && op.catalog != "" ==> SigSeen(cm.entries, op.sig))
  }

  ghost function UnfinishedIn(entries: EntryMap, within: set<Dest>): set<Dest>
  {
    set d | d in within && d in entries && Unfinished(entries[d])
  }

  /** Signatures carried by the operator entries among `within`. */
  ghost function SigsIn(entries: EntryMap, within: set<Dest>): set<string>
  {
    set d | d in within && d in entries && entries[d].meta.origin == OriginOperator :: entries[d].meta.entrySig
  }

  /** What the scan has found among `within`. */
  ghost predicate Scanned(entries: EntryMap, within: set<Dest>, pending: nat, seen: set<string>)
  {
    pending == |UnfinishedIn(entries, within)| && seen == SigsIn(entries, within)
  }

  lemma ScanMore(entries: EntryMap, within: set<Dest>, d: Dest, pending: nat, seen: set<string>)
    requires d in entries && d !in within && Scanned(entries, within, pending, seen)
    ensures Scanned(entries, within + {d}, if Unfinished(entries[d]) then pending + 1 else pending,
      if entries[d].meta.origin == OriginOperator then seen + {entries[d].meta.entrySig} else seen)
  {
    if Unfinished(entries[d]) {
      assert UnfinishedIn(entries, within + {d}) == UnfinishedIn(entries, within) + {d};
    } else {
      assert UnfinishedIn(entries, within + {d}) == UnfinishedIn(entries, within);
    }
    SigsMore(entries, within, d);
  }

  lemma SigsMore(entries: EntryMap, within: set<Dest>, d: Dest)
    requires d in entries
    ensures SigsIn(entries, within + {d}) == SigsIn(entries, within) +
      (if entries[d].meta.origin == OriginOperator then {entries[d].meta.entrySig} else {})
  {
  }

  /** The loop over the state: unfinished entries and signatures seen. */
  method ScanEntries(entries: EntryMap) returns (pending: nat, seen: set<string>)
    ensures pending == |UnfinishedIn(entries, entries.Keys)| && seen == SigsIn(entries, entries.Keys)
  {
    var todo := entries.Keys;
    pending, seen := 0, {};
    ScanNone(entries);
    while todo != {}
      invariant todo <= entries.Keys
      invariant Scanned(entries, entries.Keys - todo, pending, seen)
    {
      var d :| d in todo;
      ScanMore(entries, entries.Keys - todo, d, pending, seen);
      if entries[d].state != Mirrored && !entries[d].permanentlyFailed {
        pending := pending + 1;
      }
      if entries[d].meta.origin == OriginOperator {
        seen := seen + {entries[d].meta.entrySig};
      }
      assert entries.Keys - (todo - {d}) == entries.Keys - todo + {d};
      todo := todo - {d};
    }
    assert entries.Keys - todo == entries.Keys;
  }

  lemma ScanNone(entries: EntryMap)
    ensures Scanned(entries, entries.Keys - entries.Keys, 0, {})
  {
    assert UnfinishedIn(entries, entries.Keys - entries.Keys) == {};
  }

  method LoadMirrorSnapshot(cm: ConfigMap, operators: seq<Operator>, observed: bool) returns (snap: Snapshot)
    ensures snap.knowState <==> cm.entries != map[]
    ensures snap.complete <==> Complete(cm, operators, observed)
    ensures snap.knowState ==> snap.digests == cm.digests
    ensures snap.pending ==
      |set d | d in cm.entries && cm.entries[d].state != Mirrored && !cm.entries[d].permanentlyFailed|
  {
    var pending, seen := ScanEntries(cm.entries);
    SnapshotFacts(cm.entries);
    assert UnfinishedIn(cm.entries, cm.entries.Keys) ==
      set d | d in cm.entries && cm.entries[d].state != Mirrored && !cm.entries[d].permanentlyFailed;
    if cm.entries == map[] {
      return Snapshot(false, false, pending, map[]);
    }
    snap := Snapshot(false, true, pending, cm.digests);
    if pending == 0 && seen != {} && observed {
      var allSeen := forall op :: op in operators && op.catalog != "" ==> op.sig in seen;
      snap := snap.(complete := "" in seen || allSeen);
    }
  }

  lemma SnapshotFacts(entries: EntryMap)
    ensures |UnfinishedIn(entries, entries.Keys)| == 0 <==> forall d :: d in entries ==> !Unfinished(entries[d])
    ensures SigsIn(entries, entries.Keys) != {} <==> HasOperatorEntry(entries)
    ensures forall s :: s in SigsIn(entries, entries.Keys) <==> SigSeen(entries, s)
  {
    if d :| d in entries && Unfinished(entries[d]) {
      assert d in UnfinishedIn(entries, entries.Keys);
    }
    if d :| d in entries && entries[d].meta.origin == OriginOperator {
      assert entries[d].meta.entrySig in SigsIn(entries, entries.Keys);
    }
  }

  // ------------------------------------------------------------ rebuild rounds

  datatype JobPhase = JobPending | JobRunning | JobSucceeded | JobFailed

  /** What the controller keeps on the ImageSet between reconciles; a catalog
      without a job in jobs has none. */
  datatype Gate = Gate(lastSig: string, lastDigests: string, lastRecollect: string, lastPoll: string,
                       ready: bool, jobs: map<string, JobPhase>)

  /** One reconcile's view of the inputs; fingerprint is "" when any catalog has
      no recorded digest. updateOk is whether recording the annotations works. */
  datatype Inputs = Inputs(complete: bool, buildSig: string, fingerprint: string, recollect: string,
                           poll: string, pollExpired: bool, updateOk: bool)

  predicate IsActive(phase: JobPhase)
  {
    phase == JobPending || phase == JobRunning
  }

  predicate AnyActive(g: Gate, operators: seq<Operator>)
  {
    exists op :: op in operators && op.catalog != "" && op.catalog in g.jobs && IsActive(g.jobs[op.catalog])
  }

  predicate AnyJob(g: Gate, operators: seq<Operator>)
  {
    exists op :: op in operators && op.catalog != "" && op.catalog in g.jobs
  }

  predicate RecollectForces(g: Gate, i: Inputs)
  {
    i.recollect != "" && i.recollect != g.lastRecollect
  }

  predicate MainTrigger(g: Gate, i: Inputs)
  {
    || RecollectForces(g, i)
    || (g.lastSig != "" && g.lastSig != i.buildSig)
    || (i.fingerprint != "" && g.lastDigests != i.fingerprint && (g.lastDigests != "" || g.ready))
  }

  predicate PollTrigger(g: Gate, i: Inputs, operators: seq<Operator>)
  {
    i.pollExpired && !MainTrigger(g, i) && i.poll != g.lastPoll && !AnyActive(g, operators)
  }

  predicate NeedsRebuild(g: Gate, i: Inputs, operators: seq<Operator>)
  {
    MainTrigger(g, i) || PollTrigger(g, i, operators)
  }

  /** The reconcile gets past every deferral. */
  predicate Proceeds(g: Gate, i: Inputs, operators: seq<Operator>)
  {
    && operators != []
    && (i.complete || g.ready || AnyJob(g, operators))
    && (NeedsRebuild(g, i, operators) ==> i.complete && !AnyActive(g, operators))
    && (MustRecord(g, i, operators) ==> i.updateOk)
  }

  predicate MustRecord(g: Gate, i: Inputs, operators: seq<Operator>)
  {
    i.complete &&
    (NeedsRebuild(g, i, operators) || g.lastSig != i.buildSig ||
     (i.fingerprint != "" && g.lastDigests != i.fingerprint))
  }

  /** A rebuild round starts. */
  predicate StartsRound(g: Gate, i: Inputs, operators: seq<Operator>)
  {
    Proceeds(g, i, operators) && NeedsRebuild(g, i, operators)
  }

  /** The annotations after the reconcile. */
  function Recorded(g: Gate, i: Inputs, operators: seq<Operator>): Gate
  {
    if !(Proceeds(g, i, operators) && MustRecord(g, i, operators)) then g else
      g.(lastSig := i.buildSig,
         lastDigests := if i.fingerprint != "" then i.fingerprint else g.lastDigests,
         lastRecollect := if RecollectForces(g, i) then i.recollect else g.lastRecollect,
         lastPoll := if PollTrigger(g, i, operators) then i.poll else g.lastPoll)
  }

  /** A job the reconcile creates: it pulls the catalog at one digest and filters
      it with these packages. */
  datatype Created = Created(op: Operator, digest: string, packages: seq<IncludePackage>)

  /** Full means no package filtering in the job. */
  function JobPackages(op: Operator): seq<IncludePackage>
  {
    if op.full then [] else op.packages
  }

  // ------------------------------------------------------------ the job loop

  /** A deletion, with the phase the deleted job was in. */
  datatype Deleted = Deleted(catalog: string, phase: JobPhase)

  /** What the loop over the operators has done so far. */
  datatype Progress = Progress(jobs: map<string, JobPhase>, created: seq<Created>, deleted: seq<Deleted>, stopped: bool)

  /** What the loop goes by: the phases read before it, and what was decided. */
  datatype Plan = Plan(phases: map<string, JobPhase>, rebuild: bool, ready: bool, complete: bool, digests: map<string, string>)

  predicate Stale(plan: Plan, catalog: string)
  {
    plan.rebuild && catalog in plan.phases && !IsActive(plan.phases[catalog])
  }

  function VisitOperator(p: Progress, op: Operator, plan: Plan): Progress
  {
    if p.stopped || op.catalog == "" then p else
      var p1 := if Stale(plan, op.catalog) then DeleteJob(p, op.catalog) else p;
      if (Stale(plan, op.catalog) || op.catalog !in plan.phases) && !plan.ready then EnsureJob(p1, op, plan) else p1
  }

  /** Deletes whatever job of the catalog exists by now. */
  function DeleteJob(p: Progress, catalog: string): Progress
  {
    if catalog !in p.jobs then p
    else p.(jobs := p.jobs - {catalog}, deleted := p.deleted + [Deleted(catalog, p.jobs[catalog])])
  }

  /** Creates the job at the recorded digest, or gives up for this reconcile. */
  function EnsureJob(p: Progress, op: Operator, plan: Plan): Progress
  {
    var digest := RecordedDigest(plan.digests, op.sig);
    if !plan.complete || digest.None? then p.(stopped := true)
    else if op.catalog in p.jobs then p
    else p.(created := p.created + [Created(op, digest.value, JobPackages(op))],
            jobs := p.jobs[op.catalog := JobPending])
  }

  function VisitAll(operators: seq<Operator>, plan: Plan): Progress
  {
    if operators == [] then Progress(plan.phases, [], [], false)
    else VisitOperator(VisitAll(operators[..|operators| - 1], plan), operators[|operators| - 1], plan)
  }

  ghost predicate DistinctCatalogs(operators: seq<Operator>)
  {
    forall i, j :: 0 <= i < j < |operators| ==> operators[i].catalog != operators[j].catalog
  }

  ghost predicate DeletesActive(deleted: seq<Deleted>)
  {
    exists x :: x in deleted && IsActive(x.phase)
  }

  /** The loop gives up at this operator: a job is due and no digest recorded. */
  predicate GivesUp(op: Operator, plan: Plan)
  {
    op.catalog != "" && (Stale(plan, op.catalog) || op.catalog !in plan.phases) &&
    RecordedDigest(plan.digests, op.sig).None?
  }

  /** The operator at j lists a catalog again whose terminal job was replaced for
      an earlier operator. */
  ghost predicate ListedAgain(operators: seq<Operator>, plan: Plan, j: nat)
    requires j < |operators|
  {
    && operators[j].catalog != "" && Stale(plan, operators[j].catalog)
    && (exists i :: 0 <= i < j && operators[i].catalog == operators[j].catalog)
    && forall m :: 0 <= m < j ==> !GivesUp(operators[m], plan)
  }

  ghost predicate AnyListedAgain(operators: seq<Operator>, plan: Plan)
  {
    exists j: nat :: j < |operators| && ListedAgain(operators, plan, j)
  }

  /** The state of the loop in a rebuild round. */
  ghost predicate LoopState(operators: seq<Operator>, plan: Plan, p: Progress)
  {
    && (p.stopped <==> exists m :: 0 <= m < |operators| && GivesUp(operators[m], plan))
    && (!p.stopped ==> forall c :: c != "" && Stale(plan, c) ==>
          c in p.jobs && p.jobs[c] == (if exists i :: 0 <= i < |operators| && operators[i].catalog == c
                                       then JobPending else plan.phases[c]))
  }

  lemma {:induction false} LoopStates(operators: seq<Operator>, plan: Plan)
    requires plan.rebuild && plan.complete && !plan.ready
    ensures LoopState(operators, plan, VisitAll(operators, plan))
  {
    if operators != [] {
      var n := |operators| - 1;
      LoopStates(operators[..n], plan);
      assert operators == operators[..n] + [operators[n]];
      LoopMore(operators[..n], plan, VisitAll(operators[..n], plan), operators[n]);
    }
  }

  lemma LoopMore(front: seq<Operator>, plan: Plan, p: Progress, op: Operator)
    requires plan.rebuild && plan.complete && !plan.ready && LoopState(front, plan, p)
    ensures LoopState(front + [op], plan, VisitOperator(p, op, plan))
  {
    var operators, p' := front + [op], VisitOperator(p, op, plan);
    assert operators[|front|] == op;
    assert forall m :: 0 <= m < |front| ==> operators[m] == front[m];
    if !p'.stopped {
      forall c | c != "" && Stale(plan, c)
        ensures c in p'.jobs && p'.jobs[c] == (if exists i :: 0 <= i < |operators| && operators[i].catalog == c
                                               then JobPending else plan.phases[c])
      {
        assert (exists i :: 0 <= i < |operators| && operators[i].catalog == c) <==>
               (exists i :: 0 <= i < |front| && front[i].catalog == c) || op.catalog == c;
      }
    }
  }

  /** In a rebuild round, an active job is deleted exactly if a catalog with a
      terminal job is listed again before the loop gives up. */
  lemma {:induction false} LoopDeletesActiveIff(operators: seq<Operator>, plan: Plan)
    requires plan.rebuild && plan.complete && !plan.ready
    ensures DeletesActive(VisitAll(operators, plan).deleted) <==> AnyListedAgain(operators, plan)
  {
    if operators != [] {
      var n := |operators| - 1;
      var front, op := operators[..n], operators[n];
      var p := VisitAll(front, plan);
      LoopDeletesActiveIff(front, plan);
      LoopStates(front, plan);
      VisitDeletes(p, op, plan);
      ListedMore(operators, plan);
      assert operators == front + [op];
      assert (exists m :: 0 <= m < |front| && GivesUp(front[m], plan)) <==>
             !(forall m :: 0 <= m < n ==> !GivesUp(operators[m], plan));
      assert (exists i :: 0 <= i < |front| && front[i].catalog == op.catalog) <==>
             (exists i :: 0 <= i < n && operators[i].catalog == op.catalog);
    }
  }

  /** What one operator adds to the deletions. */
  lemma VisitDeletes(p: Progress, op: Operator, plan: Plan)
    ensures VisitOperator(p, op, plan).deleted ==
      if !p.stopped && op.catalog != "" && Stale(plan, op.catalog) && op.catalog in p.jobs
      then p.deleted + [Deleted(op.catalog, p.jobs[op.catalog])] else p.deleted
  {
  }

  lemma ListedMore(operators: seq<Operator>, plan: Plan)
    requires operators != []
    ensures
      var n := |operators| - 1;
      AnyListedAgain(operators, plan) <==> AnyListedAgain(operators[..n], plan) || ListedAgain(operators, plan, n)
  {
    var n := |operators| - 1;
    var front := operators[..n];
    forall j: nat | j < n ensures ListedAgain(operators, plan, j) <==> ListedAgain(front, plan, j)
    {
      assert forall m :: 0 <= m <= j ==> front[m] == operators[m];
    }
  }

  /** Outside a rebuild round nothing is deleted. */
  lemma {:induction false} LoopDeletesNothing(operators: seq<Operator>, plan: Plan)
    requires !plan.rebuild
    ensures VisitAll(operators, plan).deleted == []
  {
    if operators != [] {
      LoopDeletesNothing(operators[..|operators| - 1], plan);
    }
  }

  lemma {:induction false} StoppedStays(operators: seq<Operator>, plan: Plan, n: nat)
    requires n <= |operators| && VisitAll(operators[..n], plan).stopped
    ensures VisitAll(operators, plan) == VisitAll(operators[..n], plan)
    decreases |operators|
  {
    if n < |operators| {
      var front := operators[..|operators| - 1];
      assert front[..n] == operators[..n];
      StoppedStays(front, plan, n);
    } else {
      assert operators[..n] == operators;
    }
  }

  /** What the loop creates, and what it leaves alone. */
  ghost predicate Keeps(operators: seq<Operator>, plan: Plan, p: Progress)
  {
    && (forall c :: c in p.created ==>
          && c.op in operators && c.op.catalog != "" && c.packages == JobPackages(c.op)
          && RecordedDigest(plan.digests, c.op.sig) == Some(c.digest))
    && (forall c :: c in plan.phases && (IsActive(plan.phases[c]) || !plan.rebuild) ==>
          c in p.jobs && p.jobs[c] == plan.phases[c])
    && (!plan.complete && !plan.rebuild ==> p.created == [] && p.jobs == plan.phases)
    && (DistinctCatalogs(operators) ==> forall c :: c in p.created ==> c.op.catalog in p.jobs)
  }

  lemma {:induction false} LoopKeeps(operators: seq<Operator>, plan: Plan)
    ensures Keeps(operators, plan, VisitAll(operators, plan))
  {
    if operators != [] {
      var n := |operators| - 1;
      LoopKeeps(operators[..n], plan);
      assert operators == operators[..n] + [operators[n]];
      KeepsMore(operators[..n], plan, VisitAll(operators[..n], plan), operators[n]);
    }
  }

  lemma KeepsMore(front: seq<Operator>, plan: Plan, p: Progress, op: Operator)
    requires Keeps(front, plan, p)
    ensures Keeps(front + [op], plan, VisitOperator(p, op, plan))
  {
    var operators, p' := front + [op], VisitOperator(p, op, plan);
    assert operators[|front|] == op;
    assert forall o :: o in front ==> o in operators;
    if DistinctCatalogs(operators) {
      assert forall m :: 0 <= m < |front| ==> operators[m] == front[m];
      assert DistinctCatalogs(front);
      forall o | o in front ensures o.catalog != op.catalog
      {
        var m :| 0 <= m < |front| && front[m] == o;
        assert operators[m].catalog != operators[|front|].catalog;
      }
    }
  }

  // ---------------------------------------------------------- what is created

  ghost predicate Listed(operators: seq<Operator>, catalog: string)
  {
    catalog != "" && exists op :: op in operators && op.catalog == catalog
  }

  ghost predicate CreatedFor(created: seq<Created>, catalog: string)
  {
    exists c :: c in created && c.op.catalog == catalog
  }

  /** Every listed operator has a digest to build from. */
  ghost predicate AllRecorded(operators: seq<Operator>, digests: map<string, string>)
  {
    forall op :: op in operators && op.catalog != "" ==> RecordedDigest(digests, op.sig).Some?
  }

  /** What the loop has created once it is through these operators: a job for
      exactly the listed catalogs that had none, or a terminal one to replace. */
  ghost predicate Creates(operators: seq<Operator>, plan: Plan, p: Progress, catalog: string)
  {
    && !p.stopped
    && (CreatedFor(p.created, catalog) <==>
          Listed(operators, catalog) && (catalog !in plan.phases || Stale(plan, catalog)))
    && (Listed(operators, catalog) ==> catalog in p.jobs)
    && (CreatedFor(p.created, catalog) ==> catalog in p.jobs && p.jobs[catalog] == JobPending)
    && (catalog in plan.phases ==> catalog in p.jobs)
    && (catalog !in plan.phases && !Listed(operators, catalog) ==> catalog !in p.jobs)
  }

  lemma {:induction false} LoopCreates(operators: seq<Operator>, plan: Plan, catalog: string)
    requires plan.complete && !plan.ready && AllRecorded(operators, plan.digests)
    ensures Creates(operators, plan, VisitAll(operators, plan), catalog)
  {
    if operators != [] {
      var n := |operators| - 1;
      assert operators == operators[..n] + [operators[n]];
      LoopCreates(operators[..n], plan, catalog);
      CreatesMore(operators[..n], plan, VisitAll(operators[..n], plan), operators[n], catalog);
    }
  }

  lemma CreatesMore(front: seq<Operator>, plan: Plan, p: Progress, op: Operator, catalog: string)
    requires plan.complete && !plan.ready && AllRecorded(front + [op], plan.digests)
    requires Creates(front, plan, p, catalog)
    ensures Creates(front + [op], plan, VisitOperator(p, op, plan), catalog)
  {
    var p' := VisitOperator(p, op, plan);
    assert op in front + [op];
    assert Listed(front + [op], catalog) <==> Listed(front, catalog) || (catalog == op.catalog && catalog != "") by {
      ListedOneMore(front, op, catalog);
    }
    VisitCreates(p, op, plan);
    if p'.created != p.created {
      var c := p'.created[|p.created|];
      assert c in p'.created;
      CreatedOneMore(p.created, c, catalog);
    }
  }

  lemma ListedOneMore(front: seq<Operator>, op: Operator, catalog: string)
    ensures Listed(front + [op], catalog) <==> Listed(front, catalog) || (catalog == op.catalog && catalog != "")
  {
    assert op in front + [op];
  }

  lemma CreatedOneMore(created: seq<Created>, c: Created, catalog: string)
    ensures CreatedFor(created + [c], catalog) <==> CreatedFor(created, catalog) || c.op.catalog == catalog
  {
    assert c in created + [c];
  }

  lemma VisitCreates(p: Progress, op: Operator, plan: Plan)
    ensures
      var p' := VisitOperator(p, op, plan);
      p'.created == p.created || exists c: Created :: c.op == op && p'.created == p.created + [c]
  {
  }

  // ------------------------------------------------------------- when it rebuilds

  /** A listed catalog has a job that is still at work. */
  ghost predicate SomeActive(jobs: map<string, JobPhase>, operators: seq<Operator>)
  {
    exists c :: Listed(operators, c) && c in jobs && (jobs[c] == JobPending || jobs[c] == JobRunning)
  }

  /** Something changed since the last build: a recollect was honoured, the build
      inputs or the resolved content differ, or the poll interval is over. */
  predicate Changed(g: Gate, i: Inputs)
  {
    || (i.recollect != "" && i.recollect != g.lastRecollect)
    || (g.lastSig != "" && g.lastSig != i.buildSig)
    || (i.fingerprint != "" && g.lastDigests != i.fingerprint && (g.lastDigests != "" || g.ready))
    || (i.pollExpired && i.poll != g.lastPoll)
  }

  lemma ActiveIff(g: Gate, operators: seq<Operator>)
    ensures AnyActive(g, operators) <==> SomeActive(g.jobs, operators)
  {
    if AnyActive(g, operators) {
      var op :| op in operators && op.catalog != "" && op.catalog in g.jobs && IsActive(g.jobs[op.catalog]);
      assert Listed(operators, op.catalog);
    }
  }

  /** A rebuild round starts exactly if something changed, the state is complete,
      no listed job is at work and the records can be written. */
  lemma RoundStartsIff(g: Gate, i: Inputs, operators: seq<Operator>)
    ensures StartsRound(g, i, operators) <==>
      operators != [] && i.complete && !SomeActive(g.jobs, operators) && i.updateOk && Changed(g, i)
  {
    ActiveIff(g, operators);
  }

  /** What a round records, so that what triggered it is handled. */
  lemma RoundRecords(g: Gate, i: Inputs, operators: seq<Operator>)
    requires StartsRound(g, i, operators)
    ensures
      var g' := Recorded(g, i, operators);
      && g'.lastSig == i.buildSig && (i.fingerprint != "" ==> g'.lastDigests == i.fingerprint)
      && (i.recollect != "" ==> g'.lastRecollect == i.recollect)
      && (g.lastPoll != g'.lastPoll ==> g'.lastPoll == i.poll && i.pollExpired)
      && (Changed(g', i) ==> i.pollExpired && i.poll != g'.lastPoll)
      && g'.jobs == g.jobs && g'.ready == g.ready
  {
  }

  /** A reconcile proceeds on complete state unless a change has to wait for a
      job at work or for the records to be written. */
  lemma ProceedsWhenComplete(g: Gate, i: Inputs, operators: seq<Operator>)
    requires operators != [] && i.complete && i.updateOk && !SomeActive(g.jobs, operators)
    ensures Proceeds(g, i, operators) && (NeedsRebuild(g, i, operators) <==> Changed(g, i))
  {
    ActiveIff(g, operators);
  }

  /** What a reconcile that proceeds goes by. */
  function PlanOf(g: Gate, i: Inputs, operators: seq<Operator>, digests: map<string, string>): Plan
  {
    var rebuild := NeedsRebuild(g, i, operators);
    Plan(g.jobs, rebuild, g.ready && !rebuild, i.complete, digests)
  }

  /** Nothing stands in the way of a build: complete state, no listed job at work,
      records and digests there, and something to do. */
  ghost predicate CanBuild(g: Gate, i: Inputs, operators: seq<Operator>, digests: map<string, string>)
  {
    && operators != [] && i.complete && i.updateOk && !SomeActive(g.jobs, operators)
    && AllRecorded(operators, digests) && (Changed(g, i) || !g.ready)
  }

  /** A job was created for exactly the listed catalogs that had none, or, if
      something changed, for all of them; and every listed catalog has a job. */
  ghost predicate BuildsAll(g: Gate, i: Inputs, operators: seq<Operator>, created: seq<Created>, jobs: map<string, JobPhase>)
  {
    forall c ::
      && (CreatedFor(created, c) <==> Listed(operators, c) && (c !in g.jobs || Changed(g, i)))
      && (Listed(operators, c) ==> c in jobs)
      && (CreatedFor(created, c) ==> c in jobs && jobs[c] == JobPending)
  }

  lemma ReconcileBuilds(g: Gate, i: Inputs, operators: seq<Operator>, digests: map<string, string>)
    requires CanBuild(g, i, operators, digests)
    ensures
      var p := VisitAll(operators, PlanOf(g, i, operators, digests));
      Proceeds(g, i, operators) && BuildsAll(g, i, operators, p.created, p.jobs)
  {
    var plan := PlanOf(g, i, operators, digests);
    ProceedsWhenComplete(g, i, operators);
    var p := VisitAll(operators, plan);
    forall c
      ensures CreatedFor(p.created, c) <==> Listed(operators, c) && (c !in g.jobs || Changed(g, i))
      ensures Listed(operators, c) ==> c in p.jobs
      ensures CreatedFor(p.created, c) ==> c in p.jobs && p.jobs[c] == JobPending
    {
      LoopCreates(operators, plan, c);
      assert Creates(operators, plan, p, c);
      if Listed(operators, c) && c in g.jobs {
        assert !(g.jobs[c] == JobPending || g.jobs[c] == JobRunning);
        assert Stale(plan, c) <==> Changed(g, i);
      }
    }
  }

  /** Exactly when a reconcile deletes a Pending or Running job: never if no
      catalog is listed twice, and otherwise in a rebuild round that lists a
      catalog with a terminal job again, where the later operator deletes the job
      just created for the earlier one. */
  lemma ReconcileDeletesActiveIff(g: Gate, i: Inputs, operators: seq<Operator>, digests: map<string, string>)
    requires Proceeds(g, i, operators)
    ensures
      var plan := PlanOf(g, i, operators, digests);
      DeletesActive(VisitAll(operators, plan).deleted) <==>
        NeedsRebuild(g, i, operators) && AnyListedAgain(operators, plan)
    ensures DistinctCatalogs(operators) ==> !DeletesActive(VisitAll(operators, PlanOf(g, i, operators, digests)).deleted)
  {
    var plan := PlanOf(g, i, operators, digests);
    if plan.rebuild {
      LoopDeletesActiveIff(operators, plan);
    } else {
      LoopDeletesNothing(operators, plan);
    }
  }

  /** Two entries for one catalog, whose job is terminal: a recollect makes the
      second delete the job that was just created for the first. */
  lemma DuplicateCatalogDeletesPending(a: Operator, b: Operator, g: Gate, i: Inputs, digests: map<string, string>)
    requires a.catalog == b.catalog != "" && RecordedDigest(digests, a.sig).Some?
    requires a.catalog in g.jobs && !IsActive(g.jobs[a.catalog])
    requires RecollectForces(g, i) && i.complete && i.updateOk
    ensures Proceeds(g, i, [a, b])
    ensures Deleted(a.catalog, JobPending) in VisitAll([a, b], PlanOf(g, i, [a, b], digests)).deleted
  {
    var ops, plan := [a, b], PlanOf(g, i, [a, b], digests);
    assert a in ops;
    assert ops[..1] == [a] && [a][..0] == [];
    var p0 := VisitAll([], plan);
    var p1 := VisitAll([a], plan);
    assert p1 == VisitOperator(p0, a, plan);
    assert p1.jobs[a.catalog] == JobPending && !p1.stopped;
    VisitDeletes(p1, b, plan);
  }

  /** The jobs of the ImageSet. */
  class CatalogJobs {
    var gate: Gate

    constructor (g: Gate)
      ensures gate == g
    {
      gate := g;
    }

    /** reconcileCatalogBuildJobs: records what is about to be built, deletes
        terminal jobs for a rebuild and creates the missing ones. */
    method Reconcile(operators: seq<Operator>, i: Inputs, digests: map<string, string>)
      returns (created: seq<Created>, deleted: seq<Deleted>)
      modifies this
      // nothing is created, and nothing deleted, unless the state is complete
      ensures !i.complete ==> created == [] && gate == old(gate)
      // every job pulls exactly the digest recorded with the entries
      ensures forall c :: c in created ==>
        && c.op in operators && c.op.catalog != "" && c.packages == JobPackages(c.op)
        && RecordedDigest(digests, c.op.sig) == Some(c.digest)
      // a job that was active before is never deleted
      ensures forall c :: c in old(gate).jobs && IsActive(old(gate).jobs[c]) ==>
        c in gate.jobs && gate.jobs[c] == old(gate).jobs[c]
      // and one created in this reconcile is deleted only if its catalog is listed again
      ensures DeletesActive(deleted) <==>
        StartsRound(old(gate), i, operators) && AnyListedAgain(operators, PlanOf(old(gate), i, operators, digests))
      ensures DistinctCatalogs(operators) ==>
        !DeletesActive(deleted) && forall c :: c in created ==> c.op.catalog in gate.jobs
      // a terminal job is only deleted in a rebuild round
      ensures !StartsRound(old(gate), i, operators) ==>
        deleted == [] && forall c :: c in old(gate).jobs ==> c in gate.jobs && gate.jobs[c] == old(gate).jobs[c]
      ensures gate == Recorded(old(gate), i, operators).(jobs := gate.jobs)
      // where nothing stands in the way, exactly the due jobs are created
      ensures CanBuild(old(gate), i, operators, digests) ==> BuildsAll(old(gate), i, operators, created, gate.jobs)
    {
      if CanBuild(gate, i, operators, digests) {
        ReconcileBuilds(gate, i, operators, digests);
      }
      created, deleted := [], [];
      if !Proceeds(gate, i, operators) {
        return;
      }
      ghost var plan := PlanOf(gate, i, operators, digests);
      ReconcileDeletesActiveIff(gate, i, operators, digests);
      LoopKeeps(operators, plan);
      if !plan.rebuild {
        LoopDeletesNothing(operators, plan);
      }
      var rebuild := NeedsRebuild(gate, i, operators);
      var alreadyReady := gate.ready && !rebuild;
      gate := Recorded(gate, i, operators);
      created, deleted := RunJobs(operators, gate.jobs, rebuild, alreadyReady, i.complete, digests);
    }

    /** The loop over the operators. */
    method RunJobs(operators: seq<Operator>, phases: map<string, JobPhase>, rebuild: bool, alreadyReady: bool,
                   complete: bool, digests: map<string, string>)
      returns (created: seq<Created>, deleted: seq<Deleted>)
      requires gate.jobs == phases
      modifies this
      ensures
        var p := VisitAll(operators, Plan(phases, rebuild, alreadyReady, complete, digests));
        created == p.created && deleted == p.deleted && gate == old(gate).(jobs := p.jobs)
    {
      ghost var plan := Plan(phases, rebuild, alreadyReady, complete, digests);
      created, deleted := [], [];
      for k := 0 to |operators|
        invariant VisitAll(operators[..k], plan) == Progress(gate.jobs, created, deleted, false)
        invariant gate == old(gate).(jobs := gate.jobs)
      {
        var op := operators[k];
        assert operators[..k + 1][..k] == operators[..k];
        if op.catalog != "" {
          var stale := rebuild && op.catalog in phases && !IsActive(phases[op.catalog]);
          if stale && op.catalog in gate.jobs {
            deleted := deleted + [Deleted(op.catalog, gate.jobs[op.catalog])];
            gate := gate.(jobs := gate.jobs - {op.catalog});
          }
          if (stale || op.catalog !in phases) && !alreadyReady {
            var digest := RecordedDigest(digests, op.sig);
            if !complete || digest.None? {
              StoppedStays(operators, plan, k + 1);
              return;
            }
            if op.catalog !in gate.jobs {
              created := created + [Created(op, digest.value, JobPackages(op))];
              gate := gate.(jobs := gate.jobs[op.catalog := JobPending]);
            }
          }
        }
      }
      assert operators[..|operators|] == operators;
    }
  }

  // --------------------------------------------------------- rounds are bounded

  /** The inputs that stay fixed: build signature, fingerprint of the resolved
      digests, honoured recollect and poll marker. A reconcile that cannot read
      the state sees no fingerprint and is not complete. */
  predicate Fixed(i: Inputs, buildSig: string, fingerprint: string, recollect: string, poll: string)
  {
    && i.buildSig == buildSig && i.recollect == recollect && i.poll == poll
    && (i.fingerprint == fingerprint || (i.fingerprint == "" && !i.complete))
  }

  /** Between two reconciles only jobs and the ready condition change. */
  predicate SameRecords(g: Gate, h: Gate)
  {
    h == g.(ready := h.ready, jobs := h.jobs)
  }

  ghost predicate ReconcileRun(gates: seq<Gate>, inputs: seq<Inputs>, operators: seq<Operator>,
                               buildSig: string, fingerprint: string, recollect: string, poll: string)
  {
    && |gates| == |inputs| + 1
    && forall k :: 0 <= k < |inputs| ==>
        && Fixed(inputs[k], buildSig, fingerprint, recollect, poll)
        && SameRecords(Recorded(gates[k], inputs[k], operators), gates[k + 1])
  }

  function Rounds(gates: seq<Gate>, inputs: seq<Inputs>, operators: seq<Operator>, n: nat): nat
    requires n <= |inputs| < |gates|
  {
    if n == 0 then 0 else
      Rounds(gates, inputs, operators, n - 1) +
      (if StartsRound(gates[n - 1], inputs[n - 1], operators) then 1 else 0)
  }

  /** Triggers not handled yet: recollect, signature or content on one side,
      the poll marker on the other. */
  predicate MainOpen(g: Gate, buildSig: string, fingerprint: string, recollect: string)
  {
    || (recollect != "" && recollect != g.lastRecollect)
    || g.lastSig != buildSig
    || (fingerprint != "" && g.lastDigests != fingerprint)
  }

  function Open(g: Gate, buildSig: string, fingerprint: string, recollect: string, poll: string): nat
  {
    (if MainOpen(g, buildSig, fingerprint, recollect) then 1 else 0) + (if poll != g.lastPoll then 1 else 0)
  }

  /** Every round closes a trigger, and nothing opens one. */
  lemma RoundClosesTrigger(g: Gate, i: Inputs, operators: seq<Operator>,
                           buildSig: string, fingerprint: string, recollect: string, poll: string)
    requires Fixed(i, buildSig, fingerprint, recollect, poll)
    ensures
      var g' := Recorded(g, i, operators);
      Open(g', buildSig, fingerprint, recollect, poll) + (if StartsRound(g, i, operators) then 1 else 0)
      <= Open(g, buildSig, fingerprint, recollect, poll)
  {
  }

  /** With the inputs fixed, any run of reconciles starts at most two rounds. */
  lemma {:induction false} RebuildsBounded(gates: seq<Gate>, inputs: seq<Inputs>, operators: seq<Operator>, n: nat,
                                           buildSig: string, fingerprint: string, recollect: string, poll: string)
    requires ReconcileRun(gates, inputs, operators, buildSig, fingerprint, recollect, poll) && n <= |inputs|
    ensures Rounds(gates, inputs, operators, n) + Open(gates[n], buildSig, fingerprint, recollect, poll)
            <= Open(gates[0], buildSig, fingerprint, recollect, poll)
    ensures Rounds(gates, inputs, operators, n) <= 2
  {
    if n > 0 {
      RebuildsBounded(gates, inputs, operators, n - 1, buildSig, fingerprint, recollect, poll);
      RoundClosesTrigger(gates[n - 1], inputs[n - 1], operators, buildSig, fingerprint, recollect, poll);
      assert SameRecords(Recorded(gates[n - 1], inputs[n - 1], operators), gates[n]);
    }
  }
}

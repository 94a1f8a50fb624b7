/** Dispatch of worker pods: what the loop over the pending list tracks. */
module Batches {
  import opened Options
  import opened ImageState
  import opened ManagerModel

  function BatchEnd(pending: seq<Dest>, batchSize: nat, i: nat): nat
  {
    if i + batchSize > |pending| then |pending| else i + batchSize
  }

  function Batch(dests: seq<Dest>, pod: Pod): map<Dest, Pod>
  {
    map d | d in dests :: pod
  }

  /** What is tracked after the loop has gone on from position i of the pending
      list. */
  function StartFrom(tracked: map<Dest, Pod>, active: set<Pod>, pending: seq<Dest>, concurrency: int, batchSize: nat,
                     started: map<nat, Pod>, i: nat): map<Dest, Pod>
    requires batchSize > 0
    decreases |pending| - i
  {
    if i >= |pending| || |active| >= concurrency then tracked
    else if i !in started then StartFrom(tracked, active, pending, concurrency, batchSize, started, i + batchSize)
    else
      var pod := started[i];
      StartFrom(tracked + Batch(pending[i..BatchEnd(pending, batchSize, i)], pod), active + {pod},
                pending, concurrency, batchSize, started, i + batchSize)
  }

  lemma StartStep(tracked: map<Dest, Pod>, active: set<Pod>, pending: seq<Dest>, concurrency: int, batchSize: nat,
                  started: map<nat, Pod>, i: nat)
    requires batchSize > 0 && i < |pending| && |active| < concurrency
    ensures StartFrom(tracked, active, pending, concurrency, batchSize, started, i) ==
      if i !in started then StartFrom(tracked, active, pending, concurrency, batchSize, started, i + batchSize)
      else StartFrom(tracked + Batch(pending[i..BatchEnd(pending, batchSize, i)], started[i]),
                     active + {started[i]}, pending, concurrency, batchSize, started, i + batchSize)
  {
  }

  /** A destination that is not pending from position i on stays as it is. */
  lemma {:induction false} StartKeeps(tracked: map<Dest, Pod>, active: set<Pod>, pending: seq<Dest>, concurrency: int,
                                      batchSize: nat, started: map<nat, Pod>, i: nat, d: Dest)
    requires batchSize > 0 && forall k :: i <= k < |pending| ==> pending[k] != d
    ensures
      var after := StartFrom(tracked, active, pending, concurrency, batchSize, started, i);
      (d in after <==> d in tracked) && (d in tracked ==> after[d] == tracked[d])
    decreases |pending| - i
  {
    if i < |pending| && |active| < concurrency {
      if i !in started {
        StartKeeps(tracked, active, pending, concurrency, batchSize, started, i + batchSize, d);
      } else {
        var pod, end := started[i], BatchEnd(pending, batchSize, i);
        StartKeeps(tracked + Batch(pending[i..end], pod), active + {pod}, pending, concurrency, batchSize, started,
                   i + batchSize, d);
      }
    }
  }

  /** The batch that starts as a pod is tracked for that pod to the end, if no
      destination is listed twice. */
  lemma StartTracks(tracked: map<Dest, Pod>, active: set<Pod>, pending: seq<Dest>, concurrency: int, batchSize: nat,
                    started: map<nat, Pod>, i: nat, k: nat)
    requires batchSize > 0 && Distinct(pending) && i <= k < BatchEnd(pending, batchSize, i)
    requires |active| < concurrency && i in started
    ensures
      var after := StartFrom(tracked, active, pending, concurrency, batchSize, started, i);
      pending[k] in after && after[pending[k]] == started[i]
  {
    var pod, end := started[i], BatchEnd(pending, batchSize, i);
    var batch := pending[i..end];
    assert batch[k - i] == pending[k];
    StartKeeps(tracked + Batch(batch, pod), active + {pod}, pending, concurrency, batchSize, started, i + batchSize,
               pending[k]);
  }

  /** New pods never push the number of active pods above the limit. */
  lemma {:induction false} StartBounded(tracked: map<Dest, Pod>, active: set<Pod>, pending: seq<Dest>, concurrency: int,
                                        batchSize: nat, started: map<nat, Pod>, i: nat, initial: set<Pod>)
    requires batchSize > 0 && tracked.Values <= active && (active == initial || |active| <= concurrency)
    ensures
      var after := StartFrom(tracked, active, pending, concurrency, batchSize, started, i);
      after.Values <= initial || |after.Values| <= concurrency
    decreases |pending| - i
  {
    if i < |pending| && |active| < concurrency {
      if i !in started {
        StartBounded(tracked, active, pending, concurrency, batchSize, started, i + batchSize, initial);
      } else {
        var pod, end := started[i], BatchEnd(pending, batchSize, i);
        StartBounded(tracked + Batch(pending[i..end], pod), active + {pod}, pending, concurrency, batchSize, started,
                     i + batchSize, initial);
      }
    } else if active != initial {
      Smaller(tracked.Values, active);
    }
  }

  lemma Smaller(a: set<Pod>, b: set<Pod>)
    requires a <= b
    ensures |a| <= |b|
  {
    assert b == a + (b - a);
  }

  /** Tracking one batch is what a run takes as the start of a batch. */
  lemma BatchIsDispatch(m: Memory, batch: seq<Dest>, pod: Pod, early: seq<Report>)
    ensures
      var m' := Dispatch(m, batch, pod, early);
      && m'.inProgress == m.inProgress + Batch(batch, pod) && m'.queue == m.queue + early
      && m'.imageState == m.imageState && m'.mirrored == m.mirrored && m'.owners == m.owners
      && forall d :: d in batch ==> d in m'.inProgress && m'.inProgress[d] == pod
  {
  }
}

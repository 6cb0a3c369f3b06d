/** What a run of the scheduler records, as values: the state of the wave loop
    (internal/scheduler/scheduler.go), the facts that hold between two rounds,
    and why a round keeps them.
 */
module Runs {
  import opened Graphs
  import opened Options
  import opened Strings

  datatype Error = ContextCanceled | DeadlineExceeded | Other(message: string)

  datatype DispatchResult = Dispatched(taskID: string) | DispatchFailed(error: Error)

  datatype WaitResult = Result(state: string) | WaitFailed(error: Error)

  /** Everything a run asks of the outside: the dispatcher (task, context ID),
      the collector (the waiting task, the dispatched ID), and the context,
      which is cancelled from its n-th inspection on. */
  datatype Env = Env(
    dispatch: (Id, string) -> DispatchResult,
    waitFor: (Id, string) -> WaitResult,
    cancelledFrom: Option<nat>)

  predicate Cancelled(env: Env, inspection: nat) {
    env.cancelledFrom.Some? && env.cancelledFrom.value <= inspection
  }

  datatype Outcome = Outcome(taskID: Id, status: string, error: Option<Error>, batch: int)

  function Skipped(id: Id, batch: int): Outcome {
    Outcome(id, "skipped", None, batch)
  }

  /** The status string of a reported task state. The special cases map to
      themselves, so every state passes through unchanged. */
  function OutcomeStatus(state: string): (status: string)
    ensures status == state
  {
    match state
    case "completed" => "completed"
    case "failed" => "failed"
    case "canceled" => "canceled"
    case _ => state
  }

  /** The outcome recorded for one answer of the collector. */
  function WaitOutcome(id: Id, result: WaitResult, batch: int): (o: Outcome)
    ensures o.taskID == id && o.batch == batch
    ensures result.Result? ==> o.status == result.state && o.error == None
    ensures result.WaitFailed? ==> o.error == Some(result.error) && o.status in {"canceled", "failed"}
    ensures result.WaitFailed? ==> (o.status == "canceled" <==> result.error in {ContextCanceled, DeadlineExceeded})
  {
    match result
    case WaitFailed(e) =>
      Outcome(id, if e.ContextCanceled? || e.DeadlineExceeded? then "canceled" else "failed", Some(e), batch)
    case Result(state) =>
      Outcome(id, OutcomeStatus(state), None, batch)
  }

  /** The outcome of a task that is dispatched in the given batch. */
  function Own(env: Env, contextID: string, id: Id, batch: int): Outcome {
    match env.dispatch(id, contextID)
    case DispatchFailed(e) => Outcome(id, "failed", Some(e), batch)
    case Dispatched(taskID) =>
      WaitOutcome(id, env.waitFor(id, taskID), batch)
  }

  /** The local variables of the wave loop. */
  datatype Progress = Progress(out: map<Id, Outcome>, skip: set<Id>, order: seq<seq<Id>>, batch: nat)

  /** A direct dependency of v has an outcome other than "completed". */
  ghost predicate Blocked(r: Rel, out: map<Id, Outcome>, v: Id) {
    exists u {:trigger (u, v) in r} :: (u, v) in r && u in out && out[u].status != "completed"
  }

  /** Every direct dependency of v has an outcome. */
  ghost predicate Released(r: Rel, out: map<Id, Outcome>, v: Id) {
    forall u {:trigger (u, v) in r} :: (u, v) in r ==> u in out
  }

  /** The outcome that v gets in batch b once it is released. */
  ghost function Due(r: Rel, env: Env, cid: string, out: map<Id, Outcome>, v: Id, b: int): Outcome {
    if Blocked(r, out, v) then Skipped(v, b) else Own(env, cid, v, b)
  }

  /** Outcomes are closed under dependencies and each is the one due. */
  ghost predicate Consistent(r: Rel, env: Env, cid: string, out: map<Id, Outcome>) {
    && (forall v :: v in out ==> Released(r, out, v))
    && (forall v :: v in out ==> out[v] == Due(r, env, cid, out, v, out[v].batch))
  }

  /** Holds after every single task is settled; the skip set is exactly the
      blocked tasks. */
  ghost predicate Core(r: Rel, env: Env, cid: string, out: map<Id, Outcome>, skip: set<Id>) {
    && Consistent(r, env, cid, out)
    && (forall v :: v in skip <==> Blocked(r, out, v))
  }

  /** The skip set after settling the tasks of `added`: the dependents of those
      that did not complete are marked. */
  ghost function SkipWith(r: Rel, skip: set<Id>, added: map<Id, Outcome>): set<Id> {
    skip + set e | e in r && e.0 in added && added[e.0].status != "completed" :: e.1
  }

  lemma InSkipWith(r: Rel, skip: set<Id>, added: map<Id, Outcome>, v: Id)
    ensures v in SkipWith(r, skip, added)
            <==> v in skip || exists u {:trigger (u, v) in r} :: (u, v) in r && u in added && added[u].status != "completed"
  {
  }

  // ------------------------------------------------------------- round history

  ghost predicate WasDispatched(r: Rel, out: map<Id, Outcome>, v: Id) {
    v in out && !Blocked(r, out, v)
  }

  /** The execution order lists, batch by batch and sorted, exactly the
      dispatched tasks, and the batch of each is its longest chain. */
  ghost predicate Batched(r: Rel, out: map<Id, Outcome>, order: seq<seq<Id>>) {
    && (forall k :: 0 <= k < |order| ==> StrictlySorted(order[k]) && order[k] != [])
    && (forall k, v :: 0 <= k < |order| ==> (v in order[k] <==> WasDispatched(r, out, v) && out[v].batch == k))
    && (forall v :: WasDispatched(r, out, v) ==> 0 <= out[v].batch < |order| && IsLevel(r, v, out[v].batch))
  }

  /** The batch recorded for v, skipped or dispatched, is its longest chain,
      capped by the number of batches: skip-only rounds open none. */
  ghost predicate AtBatch(r: Rel, out: map<Id, Outcome>, batches: nat, v: Id)
    requires v in out
  {
    exists k: nat :: IsLevel(r, v, k) && out[v].batch == if k < batches then k else batches
  }

  ghost predicate History(r: Rel, env: Env, cid: string, p: Progress) {
    && Core(r, env, cid, p.out, p.skip)
    && |p.order| == p.batch
    && Batched(r, p.out, p.order)
    && (forall v :: v in p.out ==> AtBatch(r, p.out, p.batch, v))
  }

  /** The released tasks without an outcome: what a round works on. */
  ghost predicate Waiting(r: Rel, nodes: set<Id>, out: map<Id, Outcome>, v: Id) {
    v in nodes && v !in out && Released(r, out, v)
  }

  ghost predicate DependenciesIn(r: Rel, nodes: set<Id>) {
    forall u, v {:trigger (u, v) in r} :: (u, v) in r ==> u in nodes
  }

  /** After n complete rounds the waiting tasks are those of level n, the
      settled ones are all those below, and once a round opened no batch only
      blocked tasks are left. */
  ghost predicate Frontier(r: Rel, nodes: set<Id>, p: Progress, n: nat) {
    && p.batch <= n
    && DependenciesIn(r, nodes)
    && (forall v :: v in p.out ==> LevelBelow(r, v, n))
    && (forall v :: v in nodes && LevelBelow(r, v, n) ==> v in p.out)
    && (forall v :: Waiting(r, nodes, p.out, v) ==> IsLevel(r, v, n) && (p.batch < n ==> Blocked(r, p.out, v)))
  }

  /** p0 is the state at the start of a round, `done` the tasks settled in it. */
  ghost predicate InRound(r: Rel, nodes: set<Id>, env: Env, cid: string, p0: Progress,
                          out: map<Id, Outcome>, skip: set<Id>, done: set<Id>)
  {
    && Core(r, env, cid, out, skip)
    && out.Keys == p0.out.Keys + done
    && (forall x :: x in p0.out ==> out[x] == p0.out[x])
    && (forall x :: x in done ==> Waiting(r, nodes, p0.out, x) && out[x].batch == p0.batch)
  }

  /** Facts about tasks released before the round are final. */
  lemma StableInRound(r: Rel, out0: map<Id, Outcome>, out: map<Id, Outcome>, x: Id)
    requires out0.Keys <= out.Keys && forall y :: y in out0 ==> out[y] == out0[y]
    requires Released(r, out0, x)
    ensures Released(r, out, x) && (Blocked(r, out, x) <==> Blocked(r, out0, x))
  {
  }

  /** A round settles waiting tasks with what is due to them when it begins;
      what it settles cannot change what is due. */
  lemma RoundFromFresh(r: Rel, nodes: set<Id>, env: Env, cid: string, p0: Progress, added: map<Id, Outcome>)
    requires Core(r, env, cid, p0.out, p0.skip)
    requires forall x :: x in added ==> Waiting(r, nodes, p0.out, x)
                                        && added[x] == Due(r, env, cid, p0.out, x, p0.batch)
    ensures InRound(r, nodes, env, cid, p0, p0.out + added, SkipWith(r, p0.skip, added), added.Keys)
  {
    FreshIsConsistent(r, nodes, env, cid, p0, added);
    forall v
      ensures v in SkipWith(r, p0.skip, added) <==> Blocked(r, p0.out + added, v)
    {
      BlockedWith(r, p0.out, added, v);
      InSkipWith(r, p0.skip, added, v);
    }
  }

  lemma FreshIsConsistent(r: Rel, nodes: set<Id>, env: Env, cid: string, p0: Progress, added: map<Id, Outcome>)
    requires Consistent(r, env, cid, p0.out)
    requires forall x :: x in added ==> Waiting(r, nodes, p0.out, x)
                                        && added[x] == Due(r, env, cid, p0.out, x, p0.batch)
    ensures Consistent(r, env, cid, p0.out + added)
  {
    var out := p0.out + added;
    forall x | x in out
      ensures Released(r, out, x) && (Blocked(r, out, x) <==> Blocked(r, p0.out, x))
    {
      StableInRound(r, p0.out, out, x);
    }
  }

  lemma BlockedWith(r: Rel, out: map<Id, Outcome>, added: map<Id, Outcome>, v: Id)
    requires out.Keys !! added.Keys
    ensures Blocked(r, out + added, v)
            <==> Blocked(r, out, v) || exists u {:trigger (u, v) in r} :: (u, v) in r && u in added && added[u].status != "completed"
  {
  }

  /** The wave is the dispatched part of a round; an empty wave opens no batch. */
  ghost predicate RoundEnds(r: Rel, p0: Progress, p: Progress, done: set<Id>, wave: seq<Id>) {
    && StrictlySorted(wave)
    && (forall x :: x in wave <==> x in done && !Blocked(r, p0.out, x))
    && p.order == p0.order + (if wave == [] then [] else [wave])
    && p.batch == |p.order|
  }

  /** Who counts as dispatched after the round. */
  lemma RoundDispatched(r: Rel, nodes: set<Id>, env: Env, cid: string, p0: Progress, p: Progress, done: set<Id>,
                        x: Id)
    requires History(r, env, cid, p0) && InRound(r, nodes, env, cid, p0, p.out, p.skip, done)
    ensures WasDispatched(r, p.out, x) <==> WasDispatched(r, p0.out, x) || (x in done && !Blocked(r, p0.out, x))
    ensures x in p.out ==> (Blocked(r, p.out, x) <==> Blocked(r, p0.out, x))
  {
  }

  lemma RoundBatched(r: Rel, nodes: set<Id>, env: Env, cid: string, p0: Progress, p: Progress, done: set<Id>,
                     wave: seq<Id>)
    requires History(r, env, cid, p0) && forall x :: x in wave ==> IsLevel(r, x, p0.batch)
    requires InRound(r, nodes, env, cid, p0, p.out, p.skip, done) && RoundEnds(r, p0, p, done, wave)
    ensures Batched(r, p.out, p.order)
  {
    forall x
      ensures WasDispatched(r, p.out, x) <==> WasDispatched(r, p0.out, x) || x in wave
    {
      RoundDispatched(r, nodes, env, cid, p0, p, done, x);
    }
    forall k, v | 0 <= k < |p.order|
      ensures v in p.order[k] <==> WasDispatched(r, p.out, v) && p.out[v].batch == k
    {
      if k < |p0.order| {
        assert p.order[k] == p0.order[k];
        assert v in wave ==> p.out[v].batch == p0.batch;
        assert WasDispatched(r, p0.out, v) ==> p.out[v] == p0.out[v];
      } else {
        assert p.order[k] == wave;
        assert WasDispatched(r, p0.out, v) ==> p0.out[v].batch < |p0.order|;
      }
    }
  }

  /** Only a round that follows no skip-only round has a wave. */
  lemma WaveNeedsFullBatches(r: Rel, nodes: set<Id>, env: Env, cid: string, p0: Progress, p: Progress, done: set<Id>,
                             wave: seq<Id>, n: nat)
    requires Frontier(r, nodes, p0, n) && p0.batch == |p0.order|
    requires InRound(r, nodes, env, cid, p0, p.out, p.skip, done) && RoundEnds(r, p0, p, done, wave)
    ensures if wave == [] then p.batch == p0.batch else p0.batch == n && p.batch == n + 1
    ensures forall x :: x in wave ==> IsLevel(r, x, p0.batch)
  {
    if wave != [] {
      assert wave[0] in wave && Waiting(r, nodes, p0.out, wave[0]) && !Blocked(r, p0.out, wave[0]);
    }
  }

  lemma RoundAtBatch(r: Rel, nodes: set<Id>, env: Env, cid: string, p0: Progress, p: Progress, done: set<Id>,
                     wave: seq<Id>, n: nat, v: Id)
    requires History(r, env, cid, p0) && Frontier(r, nodes, p0, n)
    requires InRound(r, nodes, env, cid, p0, p.out, p.skip, done) && RoundEnds(r, p0, p, done, wave)
    requires v in p.out
    ensures AtBatch(r, p.out, p.batch, v)
  {
    WaveNeedsFullBatches(r, nodes, env, cid, p0, p, done, wave, n);
    if v in p0.out {
      assert AtBatch(r, p0.out, p0.batch, v) && LevelBelow(r, v, n);
      var k: nat :| IsLevel(r, v, k) && p0.out[v].batch == if k < p0.batch then k else p0.batch;
      var j: nat :| j < n && IsLevel(r, v, j);
      LevelUnique(r, v, j, k);
    } else {
      assert Waiting(r, nodes, p0.out, v) && IsLevel(r, v, n);
    }
  }

  /** A round, complete or cut short before its wave, keeps the history. */
  lemma RoundKeepsHistory(r: Rel, nodes: set<Id>, env: Env, cid: string, p0: Progress, p: Progress, done: set<Id>,
                          wave: seq<Id>, n: nat)
    requires History(r, env, cid, p0) && Frontier(r, nodes, p0, n)
    requires InRound(r, nodes, env, cid, p0, p.out, p.skip, done) && RoundEnds(r, p0, p, done, wave)
    ensures History(r, env, cid, p)
  {
    WaveNeedsFullBatches(r, nodes, env, cid, p0, p, done, wave, n);
    RoundBatched(r, nodes, env, cid, p0, p, done, wave);
    forall v | v in p.out
      ensures AtBatch(r, p.out, p.batch, v)
    {
      RoundAtBatch(r, nodes, env, cid, p0, p, done, wave, n, v);
    }
  }

  /** A task that waits after a complete round was released in that round. */
  lemma NewlyWaiting(r: Rel, nodes: set<Id>, p0: Progress, p: Progress, v: Id) returns (u: Id)
    requires p0.out.Keys <= p.out.Keys
    requires forall x :: Waiting(r, nodes, p0.out, x) ==> x in p.out
    requires Waiting(r, nodes, p.out, v)
    ensures (u, v) in r && u in p.out && u !in p0.out
  {
    assert !Released(r, p0.out, v);
    u :| (u, v) in r && u !in p0.out;
  }

  /** After a complete round the waiting tasks are those of the next level. */
  lemma RoundKeepsFrontier(r: Rel, nodes: set<Id>, env: Env, cid: string, p0: Progress, p: Progress, done: set<Id>,
                           wave: seq<Id>, n: nat)
    requires History(r, env, cid, p0) && Frontier(r, nodes, p0, n)
    requires InRound(r, nodes, env, cid, p0, p.out, p.skip, done) && RoundEnds(r, p0, p, done, wave)
    requires forall x :: Waiting(r, nodes, p0.out, x) ==> x in done
    ensures Frontier(r, nodes, p, n + 1)
  {
    WaveNeedsFullBatches(r, nodes, env, cid, p0, p, done, wave, n);
    forall v | v in p.out
      ensures LevelBelow(r, v, n + 1)
    {
      SettledBelow(r, nodes, env, cid, p0, p, done, n, v);
    }
    forall v | v in nodes && LevelBelow(r, v, n + 1)
      ensures v in p.out
    {
      LevelIsSettled(r, nodes, p0, n, v);
    }
    forall v | Waiting(r, nodes, p.out, v)
      ensures IsLevel(r, v, n + 1) && (p.batch < n + 1 ==> Blocked(r, p.out, v))
    {
      var u := NewlyWaiting(r, nodes, p0, p, v);
      RoundLevel(r, p.out, n, v, u);
      if wave == [] {
        StableInRound(r, p0.out, p.out, u);
        assert p.out[u].status == "skipped";
      }
    }
  }

  lemma SettledBelow(r: Rel, nodes: set<Id>, env: Env, cid: string, p0: Progress, p: Progress, done: set<Id>, n: nat,
                     v: Id)
    requires Frontier(r, nodes, p0, n) && InRound(r, nodes, env, cid, p0, p.out, p.skip, done) && v in p.out
    ensures LevelBelow(r, v, n + 1) && (v !in p0.out ==> IsLevel(r, v, n))
  {
  }

  /** After n rounds the tasks of level n are settled or waiting. */
  lemma LevelIsSettled(r: Rel, nodes: set<Id>, p0: Progress, n: nat, v: Id)
    requires Frontier(r, nodes, p0, n) && v in nodes && LevelBelow(r, v, n + 1)
    ensures v in p0.out || Waiting(r, nodes, p0.out, v)
  {
    var k: nat :| k < n + 1 && IsLevel(r, v, k);
    if k < n {
      assert LevelBelow(r, v, n);
    } else {
      forall u | (u, v) in r
        ensures u in p0.out
      {
        LevelOfDependency(r, u, v, n);
      }
    }
  }

  /** All dependencies at level n or below and one at level n: level n + 1. */
  lemma RoundLevel(r: Rel, out: map<Id, Outcome>, n: nat, v: Id, u: Id)
    requires Released(r, out, v) && forall w :: w in out ==> LevelBelow(r, w, n + 1)
    requires (u, v) in r && IsLevel(r, u, n)
    ensures IsLevel(r, v, n + 1)
  {
    var level := map w | w in out :: (var k: nat :| k < n + 1 && IsLevel(r, w, k); k);
    LevelUnique(r, u, level[u], n);
    LevelAbove(r, v, u, n, level);
  }

  lemma SkipWithTwo(r: Rel, skip: set<Id>, a: map<Id, Outcome>, b: map<Id, Outcome>)
    requires a.Keys !! b.Keys
    ensures SkipWith(r, SkipWith(r, skip, a), b) == SkipWith(r, skip, a + b)
  {
  }

  /** A whole round: the blocked waiting tasks are skipped, and then either all
      the others are dispatched as one wave or, on cancellation, none. */
  ghost predicate RoundOf(r: Rel, nodes: set<Id>, env: Env, cid: string, p0: Progress, p: Progress,
                          skipped: map<Id, Outcome>, ran: map<Id, Outcome>, wave: seq<Id>)
  {
    && (forall x :: x in skipped <==> Waiting(r, nodes, p0.out, x) && x in p0.skip)
    && (forall x :: x in skipped ==> skipped[x] == Skipped(x, p0.batch))
    && (forall x :: x in ran <==> x in wave)
    && (forall x :: x in ran ==> ran[x] == Own(env, cid, x, p0.batch))
    && (forall x :: x in wave ==> Waiting(r, nodes, p0.out, x) && x !in p0.skip)
    && StrictlySorted(wave)
    && p.out == p0.out + skipped + ran
    && p.skip == SkipWith(r, SkipWith(r, p0.skip, skipped), ran)
    && p.order == p0.order + (if wave == [] then [] else [wave])
    && p.batch == |p.order|
  }

  /** The waiting tasks that are not marked for skipping, in order. */
  ghost predicate FullWave(r: Rel, nodes: set<Id>, p0: Progress, wave: seq<Id>) {
    StrictlySorted(wave) && forall x :: x in wave <==> Waiting(r, nodes, p0.out, x) && x !in p0.skip
  }

  /** The state after the skipping half of a round, and after the wave. */
  lemma RoundHalves(r: Rel, nodes: set<Id>, env: Env, cid: string, p0: Progress, p1: Progress,
                    skipped: map<Id, Outcome>)
    requires p0.batch == |p0.order|
    requires forall x :: x in skipped <==> Waiting(r, nodes, p0.out, x) && x in p0.skip
    requires forall x :: x in skipped ==> skipped[x] == Skipped(x, p0.batch)
    requires p1 == Progress(p0.out + skipped, SkipWith(r, p0.skip, skipped), p0.order, p0.batch)
    ensures RoundOf(r, nodes, env, cid, p0, p1, skipped, map[], [])
  {
  }

  lemma RoundWithWave(r: Rel, nodes: set<Id>, env: Env, cid: string, p0: Progress, p1: Progress, p: Progress,
                      skipped: map<Id, Outcome>, ran: map<Id, Outcome>, wave: seq<Id>)
    requires RoundOf(r, nodes, env, cid, p0, p1, skipped, map[], []) && p0.batch == |p0.order|
    requires FullWave(r, nodes, p0, wave) && wave != []
    requires forall x :: x in ran <==> x in wave
    requires forall x :: x in ran ==> ran[x] == Own(env, cid, x, p1.batch)
    requires p == Progress(p1.out + ran, SkipWith(r, p1.skip, ran), p1.order + [wave], p1.batch + 1)
    ensures RoundOf(r, nodes, env, cid, p0, p, skipped, ran, wave)
  {
    assert p0.out + skipped + map[] == p0.out + skipped;
    assert SkipWith(r, SkipWith(r, p0.skip, skipped), map[]) == SkipWith(r, p0.skip, skipped);
  }

  lemma RoundOfSettles(r: Rel, nodes: set<Id>, env: Env, cid: string, p0: Progress, p: Progress,
                       skipped: map<Id, Outcome>, ran: map<Id, Outcome>, wave: seq<Id>)
    requires Core(r, env, cid, p0.out, p0.skip) && RoundOf(r, nodes, env, cid, p0, p, skipped, ran, wave)
    ensures InRound(r, nodes, env, cid, p0, p.out, p.skip, skipped.Keys + ran.Keys)
    ensures RoundEnds(r, p0, p, skipped.Keys + ran.Keys, wave)
  {
    var added := skipped + ran;
    assert p.out == p0.out + added && added.Keys == skipped.Keys + ran.Keys;
    SkipWithTwo(r, p0.skip, skipped, ran);
    forall x | x in added
      ensures added[x] == Due(r, env, cid, p0.out, x, p0.batch)
    {
      assert x in skipped ==> added[x] == skipped[x];
    }
    RoundFromFresh(r, nodes, env, cid, p0, added);
  }

  /** The dispatcher was called once for each dispatched task. */
  ghost predicate Counts(r: Rel, out: map<Id, Outcome>, calls: multiset<Id>) {
    forall x :: calls[x] == if WasDispatched(r, out, x) then 1 else 0
  }

  lemma CloseRound(r: Rel, nodes: set<Id>, env: Env, cid: string, p0: Progress, p: Progress,
                   skipped: map<Id, Outcome>, ran: map<Id, Outcome>, wave: seq<Id>,
                   calls0: multiset<Id>, calls: multiset<Id>, n: nat)
    requires History(r, env, cid, p0) && Frontier(r, nodes, p0, n) && Counts(r, p0.out, calls0)
    requires RoundOf(r, nodes, env, cid, p0, p, skipped, ran, wave)
    requires forall x :: calls[x] == calls0[x] + if x in wave then 1 else 0
    ensures History(r, env, cid, p) && Counts(r, p.out, calls)
    ensures FullWave(r, nodes, p0, wave) ==> Frontier(r, nodes, p, n + 1)
    ensures p0.out.Keys <= nodes ==> p.out.Keys <= nodes
  {
    var done := skipped.Keys + ran.Keys;
    RoundOfSettles(r, nodes, env, cid, p0, p, skipped, ran, wave);
    RoundKeepsHistory(r, nodes, env, cid, p0, p, done, wave, n);
    forall x
      ensures calls[x] == if WasDispatched(r, p.out, x) then 1 else 0
    {
      RoundDispatched(r, nodes, env, cid, p0, p, done, x);
    }
    if FullWave(r, nodes, p0, wave) {
      RoundKeepsFrontier(r, nodes, env, cid, p0, p, done, wave, n);
    }
  }

  /** Where a run stops that finds the context cancelled before wave c: the
      levels below are settled, of level c only the blocked tasks, and some
      task of level c was about to be dispatched. */
  ghost predicate Cut(r: Rel, nodes: set<Id>, out: map<Id, Outcome>, c: nat) {
    && (forall v :: v in nodes ==> (v in out <==> LevelBelow(r, v, c) || (IsLevel(r, v, c) && Blocked(r, out, v))))
    && (exists v :: Waiting(r, nodes, out, v) && IsLevel(r, v, c) && !Blocked(r, out, v))
  }

  lemma StoppedIsCut(r: Rel, nodes: set<Id>, env: Env, cid: string, p0: Progress, p: Progress,
                     skipped: map<Id, Outcome>, wave: seq<Id>, n: nat)
    requires Core(r, env, cid, p0.out, p0.skip) && Frontier(r, nodes, p0, n)
    requires forall x :: x in skipped <==> Waiting(r, nodes, p0.out, x) && x in p0.skip
    requires forall x :: x in skipped ==> skipped[x] == Skipped(x, p0.batch)
    requires p == Progress(p0.out + skipped, SkipWith(r, p0.skip, skipped), p0.order, p0.batch)
    requires FullWave(r, nodes, p0, wave) && wave != []
    ensures Cut(r, nodes, p.out, p.batch)
  {
    RoundFromFresh(r, nodes, env, cid, p0, skipped);
    assert wave[0] in wave;
    SkippedHalfIsCut(r, nodes, env, cid, p0, p, skipped, wave[0], n);
  }

  lemma SkippedHalfIsCut(r: Rel, nodes: set<Id>, env: Env, cid: string, p0: Progress, p: Progress,
                         skipped: map<Id, Outcome>, x: Id, n: nat)
    requires Core(r, env, cid, p0.out, p0.skip) && Frontier(r, nodes, p0, n)
    requires InRound(r, nodes, env, cid, p0, p.out, p.skip, skipped.Keys)
    requires forall y :: y in skipped <==> Waiting(r, nodes, p0.out, y) && y in p0.skip
    requires Waiting(r, nodes, p0.out, x) && x !in p0.skip
    ensures Cut(r, nodes, p.out, p0.batch)
  {
    NextIsWaiting(r, nodes, env, cid, p0, p, skipped, x, n);
    forall v | v in nodes
      ensures v in p.out <==> LevelBelow(r, v, n) || (IsLevel(r, v, n) && Blocked(r, p.out, v))
    {
      StoppedAt(r, nodes, env, cid, p0, p, skipped, n, v);
    }
  }

  lemma NextIsWaiting(r: Rel, nodes: set<Id>, env: Env, cid: string, p0: Progress, p: Progress,
                      skipped: map<Id, Outcome>, x: Id, n: nat)
    requires Core(r, env, cid, p0.out, p0.skip) && Frontier(r, nodes, p0, n)
    requires InRound(r, nodes, env, cid, p0, p.out, p.skip, skipped.Keys)
    requires Waiting(r, nodes, p0.out, x) && x !in p0.skip && x !in skipped
    ensures p0.batch == n && Waiting(r, nodes, p.out, x) && IsLevel(r, x, n) && !Blocked(r, p.out, x)
  {
    StableInRound(r, p0.out, p.out, x);
  }

  lemma StoppedAt(r: Rel, nodes: set<Id>, env: Env, cid: string, p0: Progress, p: Progress,
                  skipped: map<Id, Outcome>, n: nat, v: Id)
    requires Core(r, env, cid, p0.out, p0.skip) && Frontier(r, nodes, p0, n) && v in nodes
    requires InRound(r, nodes, env, cid, p0, p.out, p.skip, skipped.Keys)
    requires forall y :: y in skipped <==> Waiting(r, nodes, p0.out, y) && y in p0.skip
    ensures v in p.out <==> LevelBelow(r, v, n) || (IsLevel(r, v, n) && Blocked(r, p.out, v))
  {
    if LevelBelow(r, v, n + 1) {
      LevelIsSettled(r, nodes, p0, n, v);
    }
    if Waiting(r, nodes, p0.out, v) {
      StableInRound(r, p0.out, p.out, v);
    }
  }

  // ------------------------------------------------------------ complete rounds

  const START := Progress(map[], {}, [], 0)

  /** After the first half of a round: the waiting tasks marked for skipping are
      skipped, and the others are the wave. */
  ghost predicate HalfRound(r: Rel, nodes: set<Id>, p0: Progress, p: Progress, skipped: map<Id, Outcome>, wave: seq<Id>) {
    && (forall x :: x in skipped <==> Waiting(r, nodes, p0.out, x) && x in p0.skip)
    && (forall x :: x in skipped ==> skipped[x] == Skipped(x, p0.batch))
    && p == Progress(p0.out + skipped, SkipWith(r, p0.skip, skipped), p0.order, p0.batch)
    && FullWave(r, nodes, p0, wave)
  }

  /** One complete round, with the dispatcher's calls before and after it. */
  ghost predicate FullRound(r: Rel, nodes: set<Id>, env: Env, cid: string, p0: Progress, p: Progress,
                            calls0: multiset<Id>, calls: multiset<Id>)
  {
    exists skipped, ran, wave {:trigger RoundOf(r, nodes, env, cid, p0, p, skipped, ran, wave)} ::
      && RoundOf(r, nodes, env, cid, p0, p, skipped, ran, wave)
      && FullWave(r, nodes, p0, wave)
      && forall x :: calls[x] == calls0[x] + if x in wave then 1 else 0
  }

  /** A round that stops before its wave. */
  ghost predicate CutRound(r: Rel, nodes: set<Id>, p0: Progress, p: Progress) {
    exists skipped, wave {:trigger HalfRound(r, nodes, p0, p, skipped, wave)} ::
      HalfRound(r, nodes, p0, p, skipped, wave) && wave != []
  }

  lemma RoundWithoutWave(r: Rel, nodes: set<Id>, env: Env, cid: string, p0: Progress, p: Progress,
                         skipped: map<Id, Outcome>, calls: multiset<Id>)
    requires HalfRound(r, nodes, p0, p, skipped, []) && p0.batch == |p0.order|
    ensures FullRound(r, nodes, env, cid, p0, p, calls, calls)
  {
    RoundHalves(r, nodes, env, cid, p0, p, skipped);
    assert RoundOf(r, nodes, env, cid, p0, p, skipped, map[], []);
  }

  lemma RoundAfterHalf(r: Rel, nodes: set<Id>, env: Env, cid: string, p0: Progress, p1: Progress, p: Progress,
                       skipped: map<Id, Outcome>, ran: map<Id, Outcome>, wave: seq<Id>, calls0: multiset<Id>,
                       calls: multiset<Id>)
    requires HalfRound(r, nodes, p0, p1, skipped, wave) && p0.batch == |p0.order| && wave != []
    requires forall x :: x in ran <==> x in wave
    requires forall x :: x in ran ==> ran[x] == Own(env, cid, x, p1.batch)
    requires p == Progress(p1.out + ran, SkipWith(r, p1.skip, ran), p1.order + [wave], p1.batch + 1)
    requires forall x :: calls[x] == calls0[x] + if x in wave then 1 else 0
    ensures FullRound(r, nodes, env, cid, p0, p, calls0, calls)
  {
    RoundHalves(r, nodes, env, cid, p0, p1, skipped);
    RoundWithWave(r, nodes, env, cid, p0, p1, p, skipped, ran, wave);
  }

  /** What holds of a run between its rounds. */
  ghost predicate BetweenRounds(r: Rel, nodes: set<Id>, env: Env, cid: string, p: Progress, calls: multiset<Id>) {
    p.out.Keys <= nodes && History(r, env, cid, p) && Counts(r, p.out, calls)
  }

  lemma FullRoundKeeps(r: Rel, nodes: set<Id>, env: Env, cid: string, p0: Progress, p: Progress,
                       calls0: multiset<Id>, calls: multiset<Id>, n0: nat, n: nat)
    requires BetweenRounds(r, nodes, env, cid, p0, calls0) && Frontier(r, nodes, p0, n0) && n == n0 + 1
    requires FullRound(r, nodes, env, cid, p0, p, calls0, calls)
    ensures BetweenRounds(r, nodes, env, cid, p, calls) && Frontier(r, nodes, p, n)
  {
    var skipped, ran, wave :|
      && RoundOf(r, nodes, env, cid, p0, p, skipped, ran, wave)
      && FullWave(r, nodes, p0, wave)
      && forall x :: calls[x] == calls0[x] + if x in wave then 1 else 0;
    CloseRound(r, nodes, env, cid, p0, p, skipped, ran, wave, calls0, calls, n0);
  }

  lemma CutRoundKeeps(r: Rel, nodes: set<Id>, env: Env, cid: string, p0: Progress, p: Progress, calls: multiset<Id>, n: nat)
    requires BetweenRounds(r, nodes, env, cid, p0, calls) && Frontier(r, nodes, p0, n) && CutRound(r, nodes, p0, p)
    ensures BetweenRounds(r, nodes, env, cid, p, calls) && Cut(r, nodes, p.out, p.batch)
  {
    var skipped, wave :| HalfRound(r, nodes, p0, p, skipped, wave) && wave != [];
    StoppedIsCut(r, nodes, env, cid, p0, p, skipped, wave, n);
    RoundHalves(r, nodes, env, cid, p0, p, skipped);
    CloseRound(r, nodes, env, cid, p0, p, skipped, map[], [], calls, calls, n);
  }

  lemma StartOfRun(r: Rel, nodes: set<Id>, env: Env, cid: string)
    requires DependenciesIn(r, nodes)
    ensures BetweenRounds(r, nodes, env, cid, START, multiset{}) && Frontier(r, nodes, START, 0)
  {
    forall v | Waiting(r, nodes, map[], v)
      ensures IsLevel(r, v, 0)
    {
      LevelOfSource(r, v);
    }
  }
}

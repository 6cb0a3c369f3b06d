/** What the outcomes that a schedule returns mean, for every run: statuses
    follow the dependency cascade, batches are longest chains, and nothing
    depends on the order in which results arrived.
 */
module Reports {
  import opened Graphs
  import opened Options
  import opened Runs

  function NeverRun(id: Id): Outcome {
    Outcome(id, "canceled", None, -1)
  }

  /** The outcomes of the tasks that were dispatched or skipped. */
  ghost function RanPart(f: map<Id, Outcome>): map<Id, Outcome> {
    map v | v in f && f[v].batch >= 0 :: f[v]
  }

  /** The outcomes f and execution order of a run that may have been cut short. */
  ghost predicate Reported(r: Rel, nodes: set<Id>, env: Env, cid: string, f: map<Id, Outcome>, order: seq<seq<Id>>) {
    var out := RanPart(f);
    && f.Keys == nodes
    && (forall v :: v in f && v !in out ==> f[v] == NeverRun(v))
    && Consistent(r, env, cid, out)
    && Batched(r, out, order)
    && (forall v :: v in out ==> AtBatch(r, out, |order|, v))
  }

  ghost predicate AllRan(f: map<Id, Outcome>) {
    forall v :: v in f ==> f[v].batch >= 0
  }

  /** How a run ends: with an outcome for every task, or cut short before the
      wave at which the context is first found cancelled. */
  ghost predicate Ended(r: Rel, nodes: set<Id>, env: Env, f: map<Id, Outcome>, order: seq<seq<Id>>) {
    && (env.cancelledFrom.Some? ==> |order| <= env.cancelledFrom.value)
    && (AllRan(f) || (env.cancelledFrom == Some(|order|) && Cut(r, nodes, RanPart(f), |order|)))
  }

  ghost predicate DispatchedIn(r: Rel, f: map<Id, Outcome>, v: Id) {
    WasDispatched(r, RanPart(f), v)
  }

  // ------------------------------------------------------ the status cascade

  lemma RankDropsInto(r: Rel, v: Id)
    requires Acyclic(r)
    ensures forall u {:trigger (u, v) in r} :: (u, v) in r ==> Rank(r, u) < Rank(r, v)
  {
    forall u | (u, v) in r
      ensures Rank(r, u) < Rank(r, v)
    {
      RankDrops(r, u, v);
    }
  }

  /** Skipped below a dependency that did not complete, else the task's own status. */
  ghost function ExpectedStatus(r: Rel, env: Env, cid: string, v: Id): string
    requires Acyclic(r)
    decreases Rank(r, v)
  {
    RankDropsInto(r, v);
    if exists u {:trigger (u, v) in r} :: (u, v) in r && ExpectedStatus(r, env, cid, u) != "completed" then "skipped"
    else Own(env, cid, v, 0).status
  }

  /** Every task that ran, in a complete or a cancelled run, has exactly the
      status the recursive definition gives it. */
  lemma {:induction false} StatusIsExpected(r: Rel, nodes: set<Id>, env: Env, cid: string, f: map<Id, Outcome>,
                                            order: seq<seq<Id>>, v: Id)
    requires Acyclic(r) && Reported(r, nodes, env, cid, f, order)
    requires v in nodes && f[v].batch >= 0
    ensures f[v].status == ExpectedStatus(r, env, cid, v)
    decreases Rank(r, v)
  {
    var out := RanPart(f);
    assert v in out && Released(r, out, v);
    forall u | (u, v) in r
      ensures u in out && out[u].status == ExpectedStatus(r, env, cid, u)
    {
      RankDrops(r, u, v);
      StatusIsExpected(r, nodes, env, cid, f, order, u);
    }
  }

  /** The states an agent may report (internal/a2a). */
  const A2A_STATES := {"submitted", "working", "completed", "failed", "canceled", "input-required", "rejected"}

  ghost predicate ReportsA2AState(env: Env, cid: string, v: Id) {
    var d := env.dispatch(v, cid);
    d.Dispatched? ==> var w := env.waitFor(v, d.taskID); w.Result? ==> w.state in A2A_STATES
  }

  lemma OwnNotSkipped(env: Env, cid: string, v: Id)
    requires ReportsA2AState(env, cid, v)
    ensures Own(env, cid, v, 0).status != "skipped"
  {
  }

  lemma SkippedIfOwnIsNot(r: Rel, nodes: set<Id>, env: Env, cid: string, f: map<Id, Outcome>, order: seq<seq<Id>>,
                          v: Id)
    requires Reported(r, nodes, env, cid, f, order) && v in nodes && Own(env, cid, v, 0).status != "skipped"
    requires forall e :: e in r ==> e.0 in nodes
    ensures f[v].status == "skipped"
            <==> f[v].batch >= 0 && exists u {:trigger (u, v) in r} :: (u, v) in r && f[u].status != "completed"
  {
    var out := RanPart(f);
    if v in out {
      assert Released(r, out, v);
      assert Own(env, cid, v, out[v].batch).status == Own(env, cid, v, 0).status;
      if u :| (u, v) in r && f[u].status != "completed" {
        assert u in out && Blocked(r, out, v);
      }
    }
  }

  /** An agent that reports the state "skipped" is the one way to see that
      status without an uncompleted dependency. */
  lemma SkippedByAgent(r: Rel, nodes: set<Id>, env: Env, cid: string, f: map<Id, Outcome>, order: seq<seq<Id>>, v: Id)
    requires Reported(r, nodes, env, cid, f, order) && DispatchedIn(r, f, v)
    ensures f[v].status == "skipped" <==>
            var d := env.dispatch(v, cid); d.Dispatched? && env.waitFor(v, d.taskID) == Result("skipped")
  {
    var out := RanPart(f);
    assert v in out && out[v] == Own(env, cid, v, out[v].batch);
  }

  // --------------------------------------------------- batches and dependencies

  lemma LevelsRise(r: Rel, u: Id, v: Id, j: nat, k: nat)
    requires (u, v) in r && IsLevel(r, u, j) && IsLevel(r, v, k)
    ensures j < k
  {
    var p :| ChainTo(r, p, u) && |p| == j + 1;
    assert ChainTo(r, p + [v], v);
  }

  /** One edge of the next lemma: a dispatched task's direct dependency was
      dispatched earlier and completed. */
  lemma DependencyBefore(r: Rel, nodes: set<Id>, env: Env, cid: string, f: map<Id, Outcome>, order: seq<seq<Id>>,
                         u: Id, v: Id)
    requires Reported(r, nodes, env, cid, f, order) && DispatchedIn(r, f, v) && (u, v) in r
    ensures DispatchedIn(r, f, u) && f[u].status == "completed" && f[u].batch < f[v].batch
  {
    var out := RanPart(f);
    assert v in out && Released(r, out, v) && u in out;
    assert out[u].status == "completed";
    LevelsRise(r, u, v, out[u].batch, out[v].batch);
  }

  /** Safety: a task is dispatched only after all its transitive dependencies
      completed, in strictly earlier batches. */
  lemma {:induction false} DependenciesBefore(r: Rel, nodes: set<Id>, env: Env, cid: string, f: map<Id, Outcome>,
                                              order: seq<seq<Id>>, p: seq<Id>)
    requires Reported(r, nodes, env, cid, f, order)
    requires IsPath(r, p) && |p| >= 2 && DispatchedIn(r, f, p[|p| - 1])
    ensures DispatchedIn(r, f, p[0]) && f[p[0]].status == "completed" && f[p[0]].batch < f[p[|p| - 1]].batch
    decreases |p|
  {
    LastEdge(r, p);
    DependencyBefore(r, nodes, env, cid, f, order, p[|p| - 2], p[|p| - 1]);
    if |p| > 2 {
      DependenciesBefore(r, nodes, env, cid, f, order, p[..|p| - 1]);
    }
  }

  /** Wave optimality: batch k holds exactly the dispatched tasks whose longest
      dependency chain has k edges. */
  lemma WavesAreLevels(r: Rel, nodes: set<Id>, env: Env, cid: string, f: map<Id, Outcome>, order: seq<seq<Id>>,
                       k: nat, v: Id)
    requires Reported(r, nodes, env, cid, f, order) && k < |order|
    ensures v in order[k] <==> DispatchedIn(r, f, v) && IsLevel(r, v, k)
  {
    if DispatchedIn(r, f, v) && IsLevel(r, v, k) {
      LevelUnique(r, v, k, f[v].batch);
    }
  }

  /** Skip-only rounds shift nothing: the batch of every task that ran, skipped
      ones included, is its longest chain capped by the number of batches. */
  lemma BatchIsCappedLevel(r: Rel, nodes: set<Id>, env: Env, cid: string, f: map<Id, Outcome>, order: seq<seq<Id>>,
                           v: Id, k: nat)
    requires Reported(r, nodes, env, cid, f, order) && v in nodes && f[v].batch >= 0
    ensures IsLevel(r, v, k) ==> f[v].batch == if k < |order| then k else |order|
  {
    if IsLevel(r, v, k) {
      assert v in RanPart(f) && AtBatch(r, RanPart(f), |order|, v);
      var j: nat :| IsLevel(r, v, j) && f[v].batch == if j < |order| then j else |order|;
      LevelUnique(r, v, j, k);
    }
  }

  /** All direct dependencies complete, as the recursive definition has it. */
  ghost predicate Runnable(r: Rel, env: Env, cid: string, v: Id)
    requires Acyclic(r)
  {
    forall u {:trigger (u, v) in r} :: (u, v) in r ==> ExpectedStatus(r, env, cid, u) == "completed"
  }

  /** Of the tasks that ran, the graph and the environment alone decide which
      were dispatched and which were skipped. */
  lemma DispatchedIffExpected(r: Rel, nodes: set<Id>, env: Env, cid: string, f: map<Id, Outcome>,
                              order: seq<seq<Id>>, v: Id)
    requires Acyclic(r) && Reported(r, nodes, env, cid, f, order) && v in nodes && f[v].batch >= 0
    ensures DispatchedIn(r, f, v) <==> Runnable(r, env, cid, v)
  {
    var out := RanPart(f);
    assert v in out && Released(r, out, v);
    forall u | (u, v) in r
      ensures u in out && out[u].status == ExpectedStatus(r, env, cid, u)
    {
      StatusIsExpected(r, nodes, env, cid, f, order, u);
    }
  }
}

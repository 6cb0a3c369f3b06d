/** The wave scheduler (internal/scheduler/scheduler.go): validation, graph
    construction, the wave loop with its skip cascade, and the fill-in of
    tasks that a cancelled context kept from running.
 */
module Scheduling {
  import opened Graphs
  import opened Options
  import opened Strings
  import opened Dags
  import opened Runs
  import opened Traces
  import opened Reports
  import opened Cancellations

  datatype Task = Task(id: Id, dependsOn: seq<Id>)

  datatype Rejection =
    | NoTasks
    | EmptyID(index: nat)
    | DuplicateID(index: nat)
    | UnknownDependency(task: Id, dependency: Id)
    | BadEdge(error: EdgeError)
    | InvalidGraph

  datatype Reply =
    | Rejected(reason: Rejection)
    | Ran(contextID: string, outcomes: map<Id, Outcome>, order: seq<seq<Id>>, ctxErr: bool)

  // ----------------------------------------------------------------- requests

  ghost function IdsOf(tasks: seq<Task>): set<Id> {
    set i | 0 <= i < |tasks| :: tasks[i].id
  }

  /** The dependency edges of the first i tasks and the first j of the next. */
  ghost function EdgesUpTo(tasks: seq<Task>, i: nat, j: nat): Rel {
    set a, b | 0 <= a < |tasks| && 0 <= b < |tasks[a].dependsOn| && (a < i || (a == i && b < j)) ::
      (tasks[a].dependsOn[b], tasks[a].id)
  }

  ghost function DependencyRel(tasks: seq<Task>): Rel {
    EdgesUpTo(tasks, |tasks|, 0)
  }

  ghost predicate ProperIds(tasks: seq<Task>) {
    && (forall i :: 0 <= i < |tasks| ==> tasks[i].id != "")
    && (forall i, j :: 0 <= i < j < |tasks| ==> tasks[i].id != tasks[j].id)
  }

  /** Which requests a caller may expect to run. */
  ghost predicate Acceptable(tasks: seq<Task>) {
    && tasks != []
    && ProperIds(tasks)
    && (forall e :: e in DependencyRel(tasks) ==> e.0 in IdsOf(tasks))
    && Acyclic(DependencyRel(tasks))
  }

  /** What a refusal says about the request; the graph check never refuses. */
  ghost predicate Explains(tasks: seq<Task>, reason: Rejection) {
    match reason
    case NoTasks => tasks == []
    case EmptyID(i) => i < |tasks| && tasks[i].id == ""
    case DuplicateID(i) => i < |tasks| && exists j :: 0 <= j < i && tasks[j].id == tasks[i].id
    case UnknownDependency(task, dep) => (dep, task) in DependencyRel(tasks) && dep !in IdsOf(tasks)
    case BadEdge(_) => !Acyclic(DependencyRel(tasks))
    case InvalidGraph => false
  }

  lemma EdgesGrow(tasks: seq<Task>, i: nat, j: nat)
    requires i < |tasks|
    ensures j < |tasks[i].dependsOn| ==>
              EdgesUpTo(tasks, i, j + 1) == EdgesUpTo(tasks, i, j) + {(tasks[i].dependsOn[j], tasks[i].id)}
    ensures EdgesUpTo(tasks, i, |tasks[i].dependsOn|) == EdgesUpTo(tasks, i + 1, 0)
    ensures EdgesUpTo(tasks, i, j) <= DependencyRel(tasks)
  {
  }

  /** The order in which a request lists its tasks decides nothing: neither its
      graph nor whether it is acceptable. */
  lemma TaskOrderIsIrrelevant(tasks: seq<Task>, tasks': seq<Task>)
    requires multiset(tasks) == multiset(tasks')
    ensures IdsOf(tasks) == IdsOf(tasks') && DependencyRel(tasks) == DependencyRel(tasks')
    ensures Acceptable(tasks) <==> Acceptable(tasks')
  {
    forall t
      ensures t in tasks <==> t in tasks'
    {
      assert t in multiset(tasks) <==> t in multiset(tasks');
    }
    SameTasks(tasks, tasks');
    SameTasks(tasks', tasks);
    DistinctCounts(tasks);
    DistinctCounts(tasks');
    assert |multiset(tasks)| == |multiset(tasks')|;
    ProperIffDistinct(tasks);
    ProperIffDistinct(tasks');
  }

  lemma SameTasks(tasks: seq<Task>, tasks': seq<Task>)
    requires forall t :: t in tasks ==> t in tasks'
    ensures IdsOf(tasks) <= IdsOf(tasks') && DependencyRel(tasks) <= DependencyRel(tasks')
  {
    forall i | 0 <= i < |tasks|
      ensures exists k :: 0 <= k < |tasks'| && tasks'[k] == tasks[i]
    {
      assert tasks[i] in tasks;
    }
    forall e | e in DependencyRel(tasks)
      ensures e in DependencyRel(tasks')
    {
      var a, b :| 0 <= a < |tasks| && 0 <= b < |tasks[a].dependsOn| && e == (tasks[a].dependsOn[b], tasks[a].id);
      var k :| 0 <= k < |tasks'| && tasks'[k] == tasks[a];
      assert e == (tasks'[k].dependsOn[b], tasks'[k].id);
    }
  }

  lemma ProperIffDistinct(tasks: seq<Task>)
    ensures ProperIds(tasks)
            <==> Distinct(tasks) && forall t, u :: t in tasks && u in tasks ==> t.id != "" && (t.id == u.id ==> t == u)
  {
  }

  method IndexTasks(tasks: seq<Task>) returns (err: Option<Rejection>, ids: set<Id>)
    ensures err.None? <==> tasks != [] && ProperIds(tasks)
    ensures err.None? ==> ids == IdsOf(tasks)
    ensures err.Some? ==> Explains(tasks, err.value)
  {
    ids := {};
    if |tasks| == 0 {
      return Some(NoTasks), ids;
    }
    for i := 0 to |tasks|
      invariant ids == set k | 0 <= k < i :: tasks[k].id
      invariant forall k :: 0 <= k < i ==> tasks[k].id != ""
      invariant forall k, l :: 0 <= k < l < i ==> tasks[k].id != tasks[l].id
    {
      if tasks[i].id == "" {
        return Some(EmptyID(i)), ids;
      }
      if tasks[i].id in ids {
        return Some(DuplicateID(i)), ids;
      }
      ids := ids + {tasks[i].id};
    }
    err := None;
  }

  /** Inserts the dependencies of task i. */
  method AddDependencies(d: DAG, ids: set<Id>, tasks: seq<Task>, i: nat) returns (err: Option<Rejection>)
    requires d.Valid() && d.completed == {} && d.nodes == ids == IdsOf(tasks) && i < |tasks|
    requires d.Relation() == EdgesUpTo(tasks, i, 0)
    modifies d`edges, d`inDegree
    ensures err.None? ==> d.Valid() && d.Relation() == EdgesUpTo(tasks, i + 1, 0)
                          && forall e :: e in d.Relation() ==> e.0 in ids
    ensures err.Some? ==> Explains(tasks, err.value)
  {
    var deps := tasks[i].dependsOn;
    for j := 0 to |deps|
      invariant d.Valid() && d.Relation() == EdgesUpTo(tasks, i, j)
    {
      EdgesGrow(tasks, i, j);
      EdgesGrow(tasks, i, j + 1);
      assert (deps[j], tasks[i].id) in DependencyRel(tasks);
      if deps[j] !in ids {
        return Some(UnknownDependency(tasks[i].id, deps[j]));
      }
      if Acyclic(DependencyRel(tasks)) {
        SubgraphAcyclic(EdgesUpTo(tasks, i, j + 1), DependencyRel(tasks));
      }
      var res := d.AddEdge(deps[j], tasks[i].id);
      if res.Refused? {
        return Some(BadEdge(res.error));
      }
    }
    EdgesGrow(tasks, i, 0);
    err := None;
  }

  method NodesOnly(ids: set<Id>) returns (d: DAG)
    ensures fresh(d) && d.Valid() && d.nodes == ids && d.Relation() == {} && d.completed == {}
  {
    d := new DAG();
    var todo := ids;
    while todo != {}
      invariant d.Valid() && d.edges == map[] && d.completed == {}
      invariant todo <= ids && d.nodes == ids - todo
      decreases todo
    {
      var id :| id in todo;
      d.AddNode(id);
      todo := todo - {id};
    }
  }

  /** Accepts exactly the acceptable requests, whatever the order of their
      tasks and dependencies. */
  method BuildGraph(tasks: seq<Task>) returns (err: Option<Rejection>, d: DAG)
    ensures fresh(d)
    ensures err.None? <==> Acceptable(tasks)
    ensures err.Some? ==> Explains(tasks, err.value)
    ensures err.None? ==> d.Valid() && d.completed == {} && d.nodes == IdsOf(tasks)
                          && d.Relation() == DependencyRel(tasks)
  {
    var ids;
    err, ids := IndexTasks(tasks);
    d := NodesOnly(ids);
    if err.Some? {
      return;
    }
    assert d.Relation() == EdgesUpTo(tasks, 0, 0);
    for i := 0 to |tasks|
      invariant d.Valid() && d.completed == {} && d.nodes == ids
      invariant d.Relation() == EdgesUpTo(tasks, i, 0)
      invariant forall e :: e in d.Relation() ==> e.0 in ids
    {
      err := AddDependencies(d, ids, tasks, i);
      if err.Some? {
        return;
      }
    }
    assert tasks[0].id in ids;
    var ok := d.Validate();
    if !ok {
      return Some(InvalidGraph), d;
    }
    err := None;
  }

  // ------------------------------------------------------------ one wave round

  method MarkDependents(d: DAG, skip: set<Id>, id: Id) returns (skip': set<Id>)
    ensures skip' == skip + Successors(d.Relation(), id)
  {
    var succs := d.Dependents(id);
    skip' := skip;
    for i := 0 to |succs|
      invariant forall x :: x in skip' <==> x in skip || x in succs[..i]
    {
      skip' := skip' + {succs[i]};
    }
    assert succs[..|succs|] == succs;
  }

  /** Since the start of a round the outcomes of `added` were recorded, their
      tasks completed, and the dependents of failures marked. */
  ghost predicate Settled(d: DAG, completed0: set<Id>, out0: map<Id, Outcome>, skip0: set<Id>,
                          out: map<Id, Outcome>, skip: set<Id>, added: map<Id, Outcome>)
    reads d
  {
    && d.Valid()
    && d.completed == completed0 + added.Keys
    && out == out0 + added
    && skip == SkipWith(d.Relation(), skip0, added)
  }

  /** Records an outcome, completes the task and marks its dependents when it
      did not complete. */
  method Settle(d: DAG, ghost completed0: set<Id>, ghost out0: map<Id, Outcome>, ghost skip0: set<Id>,
                out: map<Id, Outcome>, skip: set<Id>, ghost added: map<Id, Outcome>, id: Id, o: Outcome)
    returns (out': map<Id, Outcome>, skip': set<Id>)
    requires Settled(d, completed0, out0, skip0, out, skip, added) && id in d.nodes && id !in added
    modifies d`inDegree, d`completed
    ensures Settled(d, completed0, out0, skip0, out', skip', added[id := o])
  {
    out', skip' := out[id := o], skip;
    if o.status != "completed" {
      skip' := MarkDependents(d, skip, id);
    }
    var _ := d.Complete(id);
    MapPlusUpdate(out0, added, id, o);
    SkipWithMore(d.Relation(), skip0, added, id, o);
  }

  lemma MapPlusUpdate<K, V>(m: map<K, V>, n: map<K, V>, k: K, v: V)
    ensures (m + n)[k := v] == m + n[k := v]
  {
  }

  lemma SkipWithMore(r: Rel, skip: set<Id>, added: map<Id, Outcome>, id: Id, o: Outcome)
    requires id !in added
    ensures SkipWith(r, skip, added[id := o])
            == SkipWith(r, skip, added) + if o.status != "completed" then Successors(r, id) else {}
  {
  }

  /** Marking the dependents of ready tasks marks no ready task. */
  lemma ReadyUnmarked(e: Edges, open: set<Id>, ready: seq<Id>, skip: set<Id>, added: map<Id, Outcome>, id: Id)
    requires Elems(ready) == ReadyIn(e, open) && id in ready && forall x :: x in added ==> x in ready
    ensures id in SkipWith(RelOf(e), skip, added) <==> id in skip
    ensures id in open
  {
    InSkipWith(RelOf(e), skip, added, id);
    assert id in Elems(ready) && forall x :: x in added ==> x in Elems(ready);
  }

  /** Splits the ready tasks into those skipped at once and those to dispatch.
      Skipping a ready task never marks another ready one. */
  method SkipBlocked(d: DAG, out0: map<Id, Outcome>, skip0: set<Id>, batch: nat, ready: seq<Id>)
    returns (out: map<Id, Outcome>, skip: set<Id>, toDispatch: seq<Id>, ghost added: map<Id, Outcome>)
    requires d.Valid() && StrictlySorted(ready) && Elems(ready) == d.ReadySet()
    modifies d`inDegree, d`completed
    ensures Settled(d, old(d.completed), out0, skip0, out, skip, added)
    ensures forall x :: x in added <==> x in ready && x in skip0
    ensures forall x :: x in added ==> added[x] == Skipped(x, batch)
    ensures StrictlySorted(toDispatch) && forall x :: x in toDispatch <==> x in ready && x !in skip0
  {
    out, skip, toDispatch, added := out0, skip0, [], map[];
    ghost var open := d.nodes - d.completed;
    for i := 0 to |ready|
      invariant Settled(d, old(d.completed), out0, skip0, out, skip, added)
      invariant forall x :: x in added <==> x in ready[..i] && x in skip0
      invariant forall x :: x in added ==> added[x] == Skipped(x, batch)
      invariant StrictlySorted(toDispatch)
      invariant forall x :: x in toDispatch <==> x in ready[..i] && x !in skip0
    {
      var id := ready[i];
      SortedPrefix(ready, i);
      ReadyUnmarked(d.edges, open, ready, skip0, added, id);
      if id in skip {
        out, skip := Settle(d, old(d.completed), out0, skip0, out, skip, added, id, Skipped(id, batch));
        added := added[id := Skipped(id, batch)];
      } else {
        toDispatch := toDispatch + [id];
      }
    }
    assert ready[..|ready|] == ready;
  }

  lemma SortedPrefix(s: seq<Id>, i: nat)
    requires StrictlySorted(s) && i < |s|
    ensures s[i] in s && s[i] !in s[..i] && forall x :: x in s[..i] ==> Less(x, s[i])
    ensures forall x :: x in s[..i + 1] <==> x in s[..i] || x == s[i]
  {
    assert s[..i + 1] == s[..i] + [s[i]];
    LessTotal(s[i], s[i]);
  }

  /** Dispatches a wave; the parallel calls may happen in any order. */
  method DispatchAll(env: Env, cid: string, wave: seq<Id>)
    returns (results: map<Id, DispatchResult>, calls: multiset<Id>)
    ensures forall x :: x in results <==> x in wave
    ensures forall x :: x in results ==> results[x] == env.dispatch(x, cid)
    ensures forall x :: calls[x] == if x in wave then 1 else 0
  {
    results, calls := map[], multiset{};
    var todo := set x | x in wave;
    while todo != {}
      invariant forall x :: x in todo ==> x in wave
      invariant forall x :: x in results <==> x in wave && x !in todo
      invariant forall x :: x in results ==> results[x] == env.dispatch(x, cid)
      invariant forall x :: calls[x] == if x in results then 1 else 0
      decreases todo
    {
      var id :| id in todo;
      results, calls := results[id := env.dispatch(id, cid)], calls + multiset{id};
      todo := todo - {id};
    }
  }

  /** Settles the tasks of a wave whose dispatch failed; the others are pending. */
  method RecordFailures(d: DAG, results: map<Id, DispatchResult>, batch: nat, out0: map<Id, Outcome>, skip0: set<Id>,
                        wave: seq<Id>)
    returns (out: map<Id, Outcome>, skip: set<Id>, pending: set<Id>, ghost added: map<Id, Outcome>)
    requires d.Valid() && StrictlySorted(wave) && forall x :: x in wave ==> x in d.nodes && x in results
    modifies d`inDegree, d`completed
    ensures Settled(d, old(d.completed), out0, skip0, out, skip, added)
    ensures forall x :: x in pending <==> x in wave && results[x].Dispatched?
    ensures forall x :: x in added <==> x in wave && results[x].DispatchFailed?
    ensures forall x :: x in added ==> added[x] == Outcome(x, "failed", Some(results[x].error), batch)
  {
    out, skip, pending, added := out0, skip0, {}, map[];
    for i := 0 to |wave|
      invariant Settled(d, old(d.completed), out0, skip0, out, skip, added)
      invariant forall x :: x in pending <==> x in wave[..i] && results[x].Dispatched?
      invariant forall x :: x in added <==> x in wave[..i] && results[x].DispatchFailed?
      invariant forall x :: x in added ==> added[x] == Outcome(x, "failed", Some(results[x].error), batch)
    {
      var id := wave[i];
      SortedPrefix(wave, i);
      if results[id].DispatchFailed? {
        var o := Outcome(id, "failed", Some(results[id].error), batch);
        out, skip := Settle(d, old(d.completed), out0, skip0, out, skip, added, id, o);
        added := added[id := o];
      } else {
        pending := pending + {id};
      }
    }
    assert wave[..|wave|] == wave;
  }

  /** added extends added1 with what the collector reported for the tasks of done. */
  ghost predicate Collected(env: Env, results: map<Id, DispatchResult>, batch: nat, added1: map<Id, Outcome>,
                            done: set<Id>, added: map<Id, Outcome>)
  {
    && (forall x :: x in added <==> x in added1 || x in done)
    && (forall x :: x in added1 ==> added[x] == added1[x])
    && (forall x :: x in done ==> x in results && results[x].Dispatched?
                                  && added[x] == WaitOutcome(x, env.waitFor(x, results[x].taskID), batch))
  }

  lemma CollectedOneMore(env: Env, results: map<Id, DispatchResult>, batch: nat, added1: map<Id, Outcome>,
                         pending: set<Id>, open: set<Id>, added: map<Id, Outcome>, id: Id)
    requires Collected(env, results, batch, added1, pending - open, added) && id in open && open <= pending
    requires id !in added1 && id in results && results[id].Dispatched?
    ensures id !in added
    ensures Collected(env, results, batch, added1, pending - (open - {id}),
                      added[id := WaitOutcome(id, env.waitFor(id, results[id].taskID), batch)])
  {
  }

  /** Settles the pending tasks in whatever order their results arrive. */
  method CollectResults(d: DAG, env: Env, results: map<Id, DispatchResult>, batch: nat, ghost completed0: set<Id>,
                        ghost out0: map<Id, Outcome>, ghost skip0: set<Id>,
                        out1: map<Id, Outcome>, skip1: set<Id>, pending: set<Id>, ghost added1: map<Id, Outcome>)
    returns (out: map<Id, Outcome>, skip: set<Id>, ghost added: map<Id, Outcome>)
    requires Settled(d, completed0, out0, skip0, out1, skip1, added1)
    requires forall x :: x in pending ==> x in d.nodes && x !in added1 && x in results && results[x].Dispatched?
    modifies d`inDegree, d`completed
    ensures Settled(d, completed0, out0, skip0, out, skip, added)
    ensures Collected(env, results, batch, added1, pending, added)
  {
    out, skip, added := out1, skip1, added1;
    var open := pending;
    while open != {}
      invariant open <= pending && Settled(d, completed0, out0, skip0, out, skip, added)
      invariant Collected(env, results, batch, added1, pending - open, added)
      decreases open
    {
      var id :| id in open;
      CollectedOneMore(env, results, batch, added1, pending, open, added, id);
      out, skip, added := CollectOne(d, env, results, batch, completed0, out0, skip0, out, skip, added, id);
      open := open - {id};
    }
    assert pending - open == pending;
  }

  method CollectOne(d: DAG, env: Env, results: map<Id, DispatchResult>, batch: nat, ghost completed0: set<Id>,
                    ghost out0: map<Id, Outcome>, ghost skip0: set<Id>,
                    out0': map<Id, Outcome>, skip0': set<Id>, ghost added0: map<Id, Outcome>, id: Id)
    returns (out: map<Id, Outcome>, skip: set<Id>, ghost added: map<Id, Outcome>)
    requires Settled(d, completed0, out0, skip0, out0', skip0', added0)
    requires id in d.nodes && id !in added0 && id in results && results[id].Dispatched?
    modifies d`inDegree, d`completed
    ensures added == added0[id := WaitOutcome(id, env.waitFor(id, results[id].taskID), batch)]
    ensures Settled(d, completed0, out0, skip0, out, skip, added)
  {
    var o := WaitOutcome(id, env.waitFor(id, results[id].taskID), batch);
    out, skip := Settle(d, completed0, out0, skip0, out0', skip0', added0, id, o);
    added := added0[id := o];
  }

  /** Dispatches and settles a wave: each task gets its own outcome. */
  method RunWave(d: DAG, env: Env, cid: string, batch: nat, out0: map<Id, Outcome>, skip0: set<Id>, wave: seq<Id>)
    returns (out: map<Id, Outcome>, skip: set<Id>, calls: multiset<Id>, ghost added: map<Id, Outcome>)
    requires d.Valid() && StrictlySorted(wave) && forall x :: x in wave ==> x in d.nodes
    modifies d`inDegree, d`completed
    ensures Settled(d, old(d.completed), out0, skip0, out, skip, added)
    ensures forall x :: x in added <==> x in wave
    ensures forall x :: x in added ==> added[x] == Own(env, cid, x, batch)
    ensures forall x :: calls[x] == if x in wave then 1 else 0
  {
    var results, pending;
    results, calls := DispatchAll(env, cid, wave);
    ghost var failed;
    out, skip, pending, failed := RecordFailures(d, results, batch, out0, skip0, wave);
    out, skip, added := CollectResults(d, env, results, batch, old(d.completed), out0, skip0, out, skip, pending, failed);
    WaveIsOwn(env, cid, batch, wave, results, failed, pending, added);
  }

  /** Failed dispatches and collected results together are the tasks' own outcomes. */
  lemma WaveIsOwn(env: Env, cid: string, batch: nat, wave: seq<Id>, results: map<Id, DispatchResult>,
                  failed: map<Id, Outcome>, pending: set<Id>, added: map<Id, Outcome>)
    requires forall x :: x in results <==> x in wave
    requires forall x :: x in results ==> results[x] == env.dispatch(x, cid)
    requires forall x :: x in pending <==> x in wave && results[x].Dispatched?
    requires forall x :: x in failed <==> x in wave && results[x].DispatchFailed?
    requires forall x :: x in failed ==> failed[x] == Outcome(x, "failed", Some(results[x].error), batch)
    requires Collected(env, results, batch, failed, pending, added)
    ensures forall x :: x in added <==> x in wave
    ensures forall x :: x in added ==> added[x] == Own(env, cid, x, batch)
  {
  }

  // ------------------------------------------------------------- the wave loop

  /** The graph of a run, of which only the completed tasks change. */
  ghost predicate RunsOn(d: DAG, r: Rel, nodes: set<Id>, p: Progress)
    reads d
  {
    d.Valid() && d.Relation() == r && d.nodes == nodes && d.completed == p.out.Keys <= nodes
  }

  /** The context was inspected once before each wave and found live. */
  ghost predicate LiveUntil(env: Env, p: Progress, inspections: nat) {
    inspections == p.batch == |p.order| && (env.cancelledFrom.Some? ==> p.batch <= env.cancelledFrom.value)
  }

  /** The first half of a round: the blocked ready tasks are skipped. With no
      wave left to dispatch something was skipped, so the loop is never stuck. */
  method SkipPhase(d: DAG, ghost r: Rel, ghost nodes: set<Id>, p0: Progress)
    returns (p: Progress, wave: seq<Id>, ghost skipped: map<Id, Outcome>)
    requires RunsOn(d, r, nodes, p0) && !(nodes <= d.completed)
    modifies d`inDegree, d`completed
    ensures RunsOn(d, r, nodes, p) && HalfRound(r, nodes, p0, p, skipped, wave)
    ensures old(d.completed) <= d.completed && (wave == [] ==> old(d.completed) != d.completed)
  {
    var ready := d.Ready();
    ReadyIsWaiting(d, p0.out, ready);
    var out, skip;
    out, skip, wave, skipped := SkipBlocked(d, p0.out, p0.skip, p0.batch, ready);
    p := Progress(out, skip, p0.order, p0.batch);
    assert ready[0] in ready;
  }

  /** The second half of a round: the wave runs and opens a batch. */
  method WavePhase(d: DAG, ghost r: Rel, ghost nodes: set<Id>, env: Env, cid: string, ghost p0: Progress,
                   p1: Progress, wave: seq<Id>, ghost skipped: map<Id, Outcome>, calls0: multiset<Id>)
    returns (p: Progress, calls: multiset<Id>)
    requires RunsOn(d, r, nodes, p1) && HalfRound(r, nodes, p0, p1, skipped, wave)
    requires wave != [] && p0.batch == |p0.order|
    modifies d`inDegree, d`completed
    ensures RunsOn(d, r, nodes, p) && p.batch == p1.batch + 1 == |p.order| && old(d.completed) < d.completed
    ensures FullRound(r, nodes, env, cid, p0, p, calls0, calls)
  {
    var out, skip, more;
    ghost var ran;
    assert wave[0] in wave;
    out, skip, more, ran := RunWave(d, env, cid, p1.batch, p1.out, p1.skip, wave);
    p := Progress(out, skip, p1.order + [wave], p1.batch + 1);
    calls := calls0 + more;
    RoundAfterHalf(r, nodes, env, cid, p0, p1, p, skipped, ran, wave, calls0, calls);
  }

  /** One iteration of the wave loop: it makes progress unless the context is
      found cancelled, and then the round stops before its wave. */
  method Round(d: DAG, ghost r: Rel, ghost nodes: set<Id>, env: Env, cid: string, p0: Progress, inspections: nat,
               calls0: multiset<Id>)
    returns (p: Progress, calls: multiset<Id>, inspections': nat, stopped: bool)
    requires RunsOn(d, r, nodes, p0) && !(nodes <= d.completed) && LiveUntil(env, p0, inspections)
    modifies d`inDegree, d`completed
    ensures RunsOn(d, r, nodes, p)
    ensures !stopped ==> FullRound(r, nodes, env, cid, p0, p, calls0, calls) && LiveUntil(env, p, inspections')
                         && old(d.completed) < d.completed
    ensures stopped ==> CutRound(r, nodes, p0, p) && calls == calls0
                        && env.cancelledFrom == Some(p.batch) && inspections' == p.batch + 1
  {
    ghost var skipped;
    var wave;
    p, wave, skipped := SkipPhase(d, r, nodes, p0);
    calls, inspections', stopped := calls0, inspections, false;
    if wave == [] {
      RoundWithoutWave(r, nodes, env, cid, p0, p, skipped, calls);
    } else {
      inspections', stopped := inspections + 1, Cancelled(env, inspections);
      if !stopped {
        p, calls := WavePhase(d, r, nodes, env, cid, p0, p, wave, skipped, calls0);
      }
    }
  }

  lemma ReadyIsWaiting(d: DAG, out: map<Id, Outcome>, ready: seq<Id>)
    requires d.Valid() && d.completed == out.Keys && Elems(ready) == d.ReadySet()
    ensures forall x :: x in ready <==> Waiting(d.Relation(), d.nodes, out, x)
  {
    assert forall x :: x in ready <==> x in Elems(ready);
  }

  /** A round extends the trace of the run, or ends the run. */
  method TracedRound(d: DAG, ghost r: Rel, ghost nodes: set<Id>, env: Env, cid: string, p0: Progress, inspections: nat,
                     calls0: multiset<Id>, ghost trace0: seq<(Progress, multiset<Id>)>)
    returns (p: Progress, calls: multiset<Id>, inspections': nat, stopped: bool,
             ghost trace: seq<(Progress, multiset<Id>)>)
    requires RunsOn(d, r, nodes, p0) && !(nodes <= d.completed) && LiveUntil(env, p0, inspections)
    requires IsTrace(r, nodes, env, cid, trace0) && trace0[|trace0| - 1] == (p0, calls0)
    modifies d`inDegree, d`completed
    ensures !stopped ==> IsTrace(r, nodes, env, cid, trace) && trace[|trace| - 1] == (p, calls)
                         && RunsOn(d, r, nodes, p) && LiveUntil(env, p, inspections') && old(d.completed) < d.completed
    ensures stopped ==> RunEnds(r, nodes, env, cid, trace, p, calls)
                        && env.cancelledFrom == Some(p.batch) && inspections' == p.batch + 1
  {
    p, calls, inspections', stopped := Round(d, r, nodes, env, cid, p0, inspections, calls0);
    trace := trace0;
    if !stopped {
      TraceGrows(r, nodes, env, cid, trace, p, calls);
      trace := trace + [(p, calls)];
    }
  }

  /** The loop's condition, d.Remaining() > 0. */
  method AnyRemaining(d: DAG) returns (more: bool)
    requires d.completed <= d.nodes
    ensures more <==> !(d.nodes <= d.completed)
  {
    more := d.Remaining() > 0;
    assert d.completed - d.nodes == {};
    assert d.nodes <= d.completed <==> d.nodes - d.completed == {};
  }

  /** Rounds until every task has an outcome or a wave finds the context
      cancelled; Traces.EndOfRun says what that makes of the outcomes. */
  method WaveLoop(d: DAG, ghost r: Rel, ghost nodes: set<Id>, env: Env, cid: string)
    returns (p: Progress, calls: multiset<Id>, inspections: nat, ghost trace: seq<(Progress, multiset<Id>)>)
    requires d.Valid() && d.Relation() == r && d.nodes == nodes && d.completed == {}
    modifies d`inDegree, d`completed
    ensures RunEnds(r, nodes, env, cid, trace, p, calls)
    ensures env.cancelledFrom.Some? ==> p.batch <= env.cancelledFrom.value
    ensures Cancelled(env, inspections) <==> env.cancelledFrom == Some(p.batch)
  {
    p, calls, inspections := START, multiset{}, 0;
    trace := [(p, calls)];
    var more := AnyRemaining(d);
    while more
      invariant more <==> !(nodes <= d.completed)
      invariant RunsOn(d, r, nodes, p) && LiveUntil(env, p, inspections)
      invariant IsTrace(r, nodes, env, cid, trace) && trace[|trace| - 1] == (p, calls)
      decreases nodes - d.completed
    {
      var stopped;
      p, calls, inspections, stopped, trace := TracedRound(d, r, nodes, env, cid, p, inspections, calls, trace);
      if stopped {
        return;
      }
      more := AnyRemaining(d);
    }
    CancelledNow(env, p.batch);
  }

  lemma CancelledNow(env: Env, batch: nat)
    requires env.cancelledFrom.Some? ==> batch <= env.cancelledFrom.value
    ensures Cancelled(env, batch) <==> env.cancelledFrom == Some(batch)
  {
  }

  /** Tasks without an outcome are reported as canceled in batch -1. */
  method FillCanceled(ids: set<Id>, out: map<Id, Outcome>) returns (f: map<Id, Outcome>)
    requires out.Keys <= ids
    ensures f.Keys == ids && forall x :: x in ids ==> f[x] == if x in out then out[x] else NeverRun(x)
  {
    f := out;
    var todo := ids;
    while todo != {}
      invariant todo <= ids && f.Keys == out.Keys + (ids - todo)
      invariant forall x :: x in f ==> f[x] == if x in out then out[x] else NeverRun(x)
      decreases todo
    {
      var id :| id in todo;
      if id !in f {
        f := f[id := NeverRun(id)];
      }
      todo := todo - {id};
    }
  }

  lemma FilledIsReported(r: Rel, ids: set<Id>, env: Env, cid: string, p: Progress, f: map<Id, Outcome>)
    requires History(r, env, cid, p) && p.out.Keys <= ids
    requires f.Keys == ids && forall x :: x in ids ==> f[x] == if x in p.out then p.out[x] else NeverRun(x)
    ensures RanPart(f) == p.out && Reported(r, ids, env, cid, f, p.order)
    ensures AllRan(f) <==> p.out.Keys == ids
  {
    forall v | v in p.out
      ensures p.out[v].batch >= 0
    {
      assert AtBatch(r, p.out, p.batch, v);
    }
    FilledRanPart(ids, p.out, f);
  }

  lemma FilledRanPart(ids: set<Id>, out: map<Id, Outcome>, f: map<Id, Outcome>)
    requires out.Keys <= ids && forall v :: v in out ==> out[v].batch >= 0
    requires f.Keys == ids && forall x :: x in ids ==> f[x] == if x in out then out[x] else NeverRun(x)
    ensures RanPart(f) == out
    ensures AllRan(f) <==> out.Keys == ids
  {
    assert RanPart(f) == out;
    if AllRan(f) {
      assert forall x :: x in ids ==> x in out;
    }
  }

  /** The scheduler. A request is refused, before any dispatch, exactly when it
      is not acceptable; otherwise every task has exactly one outcome, each
      dispatched task is dispatched once, and the status of a task that ran is
      that of the recursive definition, whatever the order of tasks,
      dependencies and results. A run is cut short only before the wave whose
      inspection finds the context cancelled, and it reports the cancellation
      exactly when the context is cancelled before the next wave. The lemmas of
      modules Reports and Cancellations say what such a run means. */
  method Schedule(env: Env, tasks: seq<Task>, cid: string) returns (reply: Reply, calls: multiset<Id>)
    ensures reply.Rejected? <==> !Acceptable(tasks)
    ensures reply.Rejected? ==> calls == multiset{} && Explains(tasks, reply.reason)
    ensures reply.Ran? ==>
              && reply.contextID == cid
              && RunOf(DependencyRel(tasks), IdsOf(tasks), env, cid, reply.outcomes, reply.order)
              && Counts(DependencyRel(tasks), RanPart(reply.outcomes), calls)
              && (reply.ctxErr <==> env.cancelledFrom == Some(|reply.order|))
    ensures reply.Ran? ==> forall v :: v in RanPart(reply.outcomes) ==>
                                         reply.outcomes[v].status == ExpectedStatus(DependencyRel(tasks), env, cid, v)
  {
    var err, d := BuildGraph(tasks);
    if err.Some? {
      return Rejected(err.value), multiset{};
    }
    var p, inspections;
    ghost var trace;
    p, calls, inspections, trace := WaveLoop(d, DependencyRel(tasks), IdsOf(tasks), env, cid);
    EndOfRun(DependencyRel(tasks), IdsOf(tasks), env, cid, trace, p, calls);
    var f := FillCanceled(d.nodes, p.out);
    FilledIsReported(d.Relation(), d.nodes, env, cid, p, f);
    reply := Ran(cid, f, p.order, Cancelled(env, inspections));
    forall v | v in RanPart(f)
      ensures f[v].status == ExpectedStatus(DependencyRel(tasks), env, cid, v)
    {
      StatusIsExpected(DependencyRel(tasks), IdsOf(tasks), env, cid, f, p.order, v);
    }
  }

  // ----------------------------------------------------- two telling requests

  /** b depends on a, which fails, and on y, before whose wave the context is
      cancelled. */
  const CUT_REQUEST := [Task("a", []), Task("x", []), Task("y", ["x"]), Task("b", ["a", "y"])]

  function CutEnv(): Env {
    Env((id: Id, cid: string) => Dispatched(id),
        (id: Id, taskID: string) => Result(if id == "a" then "failed" else "completed"),
        Some(1))
  }

  lemma CutRequestIsAcceptable()
    ensures IdsOf(CUT_REQUEST) == {"a", "x", "y", "b"}
    ensures DependencyRel(CUT_REQUEST) == {("x", "y"), ("a", "b"), ("y", "b")}
    ensures Acceptable(CUT_REQUEST)
  {
    var tasks := CUT_REQUEST;
    assert tasks[0].id == "a" && tasks[1].id == "x" && tasks[2].id == "y" && tasks[3].id == "b";
    assert IdsOf(tasks) == {"a", "x", "y", "b"};
    assert DependencyRel(tasks) == {("x", "y"), ("a", "b"), ("y", "b")} by {
      assert (tasks[2].dependsOn[0], tasks[2].id) == ("x", "y");
      assert (tasks[3].dependsOn[0], tasks[3].id) == ("a", "b");
      assert (tasks[3].dependsOn[1], tasks[3].id) == ("y", "b");
    }
    NumberedIsAcyclic(DependencyRel(tasks), map["a" := 0, "x" := 0, "y" := 1, "b" := 2]);
  }

  lemma CutLevels(r: Rel)
    requires r == {("x", "y"), ("a", "b"), ("y", "b")}
    ensures IsLevel(r, "a", 0) && IsLevel(r, "x", 0) && IsLevel(r, "y", 1) && IsLevel(r, "b", 2)
  {
    LevelOfSource(r, "a");
    LevelOfSource(r, "x");
    LevelAbove(r, "y", "x", 0, map["x" := 0]);
    LevelAbove(r, "b", "y", 1, map["a" := 0, "y" := 1]);
  }

  /** A cancelled context can leave a task below a failed one "canceled" in batch
      -1 and not "skipped". */
  lemma CanceledBelowFailure(cid: string, f: map<Id, Outcome>, order: seq<seq<Id>>)
    requires RunOf(DependencyRel(CUT_REQUEST), IdsOf(CUT_REQUEST), CutEnv(), cid, f, order)
    ensures "a" in f && "b" in f && ("a", "b") in DependencyRel(CUT_REQUEST)
    ensures f["a"].status == "failed" && f["b"] == NeverRun("b")
  {
    CutRequestIsAcceptable();
    var r, nodes := DependencyRel(CUT_REQUEST), IdsOf(CUT_REQUEST);
    CutTurns(r, nodes, cid);
    RanIff(r, nodes, CutEnv(), cid, f, order, "a");
    StatusIsExpected(r, nodes, CutEnv(), cid, f, order, "a");
    RanIff(r, nodes, CutEnv(), cid, f, order, "b");
    NamesItself(r, nodes, CutEnv(), cid, f, order, "b");
  }

  lemma CutTurns(r: Rel, nodes: set<Id>, cid: string)
    requires r == {("x", "y"), ("a", "b"), ("y", "b")} && "y" in nodes && Acyclic(r)
    ensures ExpectedStatus(r, CutEnv(), cid, "a") == "failed"
    ensures GetsTurn(r, nodes, CutEnv(), cid, "a") && !GetsTurn(r, nodes, CutEnv(), cid, "b")
  {
    CutLevels(r);
    assert LevelBelow(r, "a", 1);
    assert ExpectedStatus(r, CutEnv(), cid, "x") == "completed";
    assert Runnable(r, CutEnv(), cid, "y");
    OnlyLevel(r, "b", 2);
  }

  lemma OnlyLevel(r: Rel, v: Id, k: nat)
    requires IsLevel(r, v, k)
    ensures forall j: nat :: IsLevel(r, v, j) ==> j == k
  {
    forall j: nat | IsLevel(r, v, j)
      ensures j == k
    {
      LevelUnique(r, v, j, k);
    }
  }

  const ONE_REQUEST := [Task("a", [])]

  function WorkingEnv(): Env {
    Env((id: Id, cid: string) => Dispatched(id), (id: Id, taskID: string) => Result("working"), None)
  }

  /** A task may end in a status that is not documented. */
  lemma UndocumentedStatus(cid: string, f: map<Id, Outcome>, order: seq<seq<Id>>)
    requires RunOf(DependencyRel(ONE_REQUEST), IdsOf(ONE_REQUEST), WorkingEnv(), cid, f, order)
    ensures Acceptable(ONE_REQUEST)
    ensures "a" in f && f["a"].status == "working" && f["a"].status !in DOCUMENTED_STATUSES
  {
    var r, nodes, env := DependencyRel(ONE_REQUEST), IdsOf(ONE_REQUEST), WorkingEnv();
    assert r == {};
    assert ONE_REQUEST[0].id in nodes && f["a"].batch >= 0;
    StatusIsExpected(r, nodes, env, cid, f, order, "a");
    assert "working"[0] == 'w';
  }
}

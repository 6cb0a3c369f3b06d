/** Which tasks of a request get their turn, and why what a run reports is
    determined by the request and the environment, for complete runs and for
    runs that a cancelled context cuts short.
 */
module Cancellations {
  import opened Graphs
  import opened Options
  import opened Strings
  import opened Runs
  import opened Reports

  /** The context is cancelled before a wave that the run would reach: some task
      at that level can be dispatched. */
  ghost predicate CutShort(r: Rel, nodes: set<Id>, env: Env, cid: string)
    requires Acyclic(r)
  {
    env.cancelledFrom.Some?
    && exists w :: w in nodes && IsLevel(r, w, env.cancelledFrom.value) && Runnable(r, env, cid, w)
  }

  /** Which tasks run before the cut, dispatched or skipped. */
  ghost predicate GetsTurn(r: Rel, nodes: set<Id>, env: Env, cid: string, v: Id)
    requires Acyclic(r)
  {
    CutShort(r, nodes, env, cid) ==>
      var c := env.cancelledFrom.value;
      LevelBelow(r, v, c) || (IsLevel(r, v, c) && !Runnable(r, env, cid, v))
  }

  ghost predicate RunOf(r: Rel, nodes: set<Id>, env: Env, cid: string, f: map<Id, Outcome>, order: seq<seq<Id>>) {
    && Acyclic(r) && DependenciesIn(r, nodes)
    && Reported(r, nodes, env, cid, f, order)
    && Ended(r, nodes, env, f, order)
  }

  /** Once its dependencies ran, a task is blocked exactly when it is not runnable. */
  lemma BlockedIffNotRunnable(r: Rel, nodes: set<Id>, env: Env, cid: string, f: map<Id, Outcome>,
                              order: seq<seq<Id>>, v: Id)
    requires Acyclic(r) && Reported(r, nodes, env, cid, f, order) && Released(r, RanPart(f), v)
    ensures Blocked(r, RanPart(f), v) <==> !Runnable(r, env, cid, v)
  {
    forall u | (u, v) in r
      ensures u in RanPart(f) && RanPart(f)[u].status == ExpectedStatus(r, env, cid, u)
    {
      assert u in RanPart(f);
      StatusIsExpected(r, nodes, env, cid, f, order, u);
    }
  }

  /** A run leaves tasks unrun exactly when the context is cancelled before a
      wave that it would reach. */
  lemma CutShortIff(r: Rel, nodes: set<Id>, env: Env, cid: string, f: map<Id, Outcome>, order: seq<seq<Id>>)
    requires RunOf(r, nodes, env, cid, f, order)
    ensures !AllRan(f) <==> CutShort(r, nodes, env, cid)
  {
    if !AllRan(f) {
      CutIsShort(r, nodes, env, cid, f, order);
    } else if CutShort(r, nodes, env, cid) {
      CompleteIsNotShort(r, nodes, env, cid, f, order);
    }
  }

  lemma CutIsShort(r: Rel, nodes: set<Id>, env: Env, cid: string, f: map<Id, Outcome>, order: seq<seq<Id>>)
    requires RunOf(r, nodes, env, cid, f, order) && !AllRan(f)
    ensures CutShort(r, nodes, env, cid)
  {
    var out := RanPart(f);
    var w :| Waiting(r, nodes, out, w) && IsLevel(r, w, |order|) && !Blocked(r, out, w);
    BlockedIffNotRunnable(r, nodes, env, cid, f, order, w);
  }

  lemma CompleteIsNotShort(r: Rel, nodes: set<Id>, env: Env, cid: string, f: map<Id, Outcome>, order: seq<seq<Id>>)
    requires RunOf(r, nodes, env, cid, f, order) && AllRan(f)
    ensures !CutShort(r, nodes, env, cid)
  {
    if CutShort(r, nodes, env, cid) {
      var c := env.cancelledFrom.value;
      var w :| w in nodes && IsLevel(r, w, c) && Runnable(r, env, cid, w);
      DispatchedIffExpected(r, nodes, env, cid, f, order, w);
      LevelUnique(r, w, c, f[w].batch);
    }
  }

  /** Who runs, decided before the run. */
  lemma RanIff(r: Rel, nodes: set<Id>, env: Env, cid: string, f: map<Id, Outcome>, order: seq<seq<Id>>, v: Id)
    requires RunOf(r, nodes, env, cid, f, order) && v in nodes
    ensures f[v].batch >= 0 <==> GetsTurn(r, nodes, env, cid, v)
  {
    CutShortIff(r, nodes, env, cid, f, order);
    if CutShort(r, nodes, env, cid) {
      var c, out := |order|, RanPart(f);
      assert f[v].batch >= 0 <==> v in out;
      if IsLevel(r, v, c) {
        forall u | (u, v) in r
          ensures u in out
        {
          LevelOfDependency(r, u, v, c);
        }
        BlockedIffNotRunnable(r, nodes, env, cid, f, order, v);
      }
    }
  }

  /** Who is dispatched, decided before the run. */
  lemma DispatchedIff(r: Rel, nodes: set<Id>, env: Env, cid: string, f: map<Id, Outcome>, order: seq<seq<Id>>, v: Id)
    requires RunOf(r, nodes, env, cid, f, order) && v in nodes
    ensures DispatchedIn(r, f, v) <==> GetsTurn(r, nodes, env, cid, v) && Runnable(r, env, cid, v)
  {
    RanIff(r, nodes, env, cid, f, order, v);
    if f[v].batch >= 0 {
      DispatchedIffExpected(r, nodes, env, cid, f, order, v);
    }
  }

  /** With the A2A states a task is "skipped" exactly when it gets its turn and
      some direct dependency does not complete. A task that gets no turn is
      "canceled" whatever its dependencies did. */
  lemma SkippedExactly(r: Rel, nodes: set<Id>, env: Env, cid: string, f: map<Id, Outcome>, order: seq<seq<Id>>, v: Id)
    requires RunOf(r, nodes, env, cid, f, order) && v in nodes && ReportsA2AState(env, cid, v)
    ensures f[v].status == "skipped" <==> GetsTurn(r, nodes, env, cid, v) && !Runnable(r, env, cid, v)
    ensures f[v].status == "skipped"
            <==> f[v].batch >= 0 && exists u {:trigger (u, v) in r} :: (u, v) in r && f[u].status != "completed"
    ensures !GetsTurn(r, nodes, env, cid, v) ==> f[v] == NeverRun(v)
  {
    OwnNotSkipped(env, cid, v);
    SkippedIfOwnIsNot(r, nodes, env, cid, f, order, v);
    RanIff(r, nodes, env, cid, f, order, v);
    if f[v].batch >= 0 {
      assert v in RanPart(f) && Released(r, RanPart(f), v);
      BlockedIffNotRunnable(r, nodes, env, cid, f, order, v);
    }
  }

  // ------------------------------------------------------- what is reported

  /** What a dispatched task reports is what the dispatcher and the collector
      answered for it. */
  lemma OutcomeOfDispatched(r: Rel, nodes: set<Id>, env: Env, cid: string, f: map<Id, Outcome>,
                            order: seq<seq<Id>>, v: Id)
    requires RunOf(r, nodes, env, cid, f, order) && v in nodes && DispatchedIn(r, f, v)
    ensures env.dispatch(v, cid).DispatchFailed? ==>
              f[v].status == "failed" && f[v].error == Some(env.dispatch(v, cid).error)
    ensures env.dispatch(v, cid).Dispatched? ==>
              var answer := env.waitFor(v, env.dispatch(v, cid).taskID);
              match answer
              case WaitFailed(e) =>
                && f[v].error == Some(e)
                && f[v].status == if e.ContextCanceled? || e.DeadlineExceeded? then "canceled" else "failed"
              case Result(state) => f[v].status == state && f[v].error == None
  {
    assert v in RanPart(f) && f[v] == Due(r, env, cid, RanPart(f), v, f[v].batch);
  }

  /** A task that is not dispatched was skipped in its turn, or had none. */
  lemma OutcomeOfUndispatched(r: Rel, nodes: set<Id>, env: Env, cid: string, f: map<Id, Outcome>,
                              order: seq<seq<Id>>, v: Id)
    requires RunOf(r, nodes, env, cid, f, order) && v in nodes && !DispatchedIn(r, f, v)
    ensures if GetsTurn(r, nodes, env, cid, v) then f[v] == Outcome(v, "skipped", None, f[v].batch) && f[v].batch >= 0
            else f[v] == Outcome(v, "canceled", None, -1)
  {
    RanIff(r, nodes, env, cid, f, order, v);
    NamesItself(r, nodes, env, cid, f, order, v);
    if f[v].batch >= 0 {
      assert v in RanPart(f) && f[v] == Due(r, env, cid, RanPart(f), v, f[v].batch);
    }
  }

  /** A task completes exactly when it gets its turn, its dependencies completed,
      its dispatch succeeds and the agent reports "completed". */
  lemma CompletedIff(r: Rel, nodes: set<Id>, env: Env, cid: string, f: map<Id, Outcome>, order: seq<seq<Id>>, v: Id)
    requires RunOf(r, nodes, env, cid, f, order) && v in nodes
    ensures f[v].status == "completed" <==>
              && GetsTurn(r, nodes, env, cid, v)
              && (forall u {:trigger (u, v) in r} :: (u, v) in r ==> f[u].status == "completed")
              && env.dispatch(v, cid).Dispatched?
              && env.waitFor(v, env.dispatch(v, cid).taskID) == Result("completed")
  {
    RanIff(r, nodes, env, cid, f, order, v);
    if f[v].batch >= 0 {
      assert v in RanPart(f) && Released(r, RanPart(f), v);
      if DispatchedIn(r, f, v) {
        OutcomeOfDispatched(r, nodes, env, cid, f, order, v);
        assert "failed"[0] == 'f' && "completed"[1] == 'o' && "canceled"[1] == 'a';
      } else {
        OutcomeOfUndispatched(r, nodes, env, cid, f, order, v);
        assert "skipped"[0] == 's' && "completed"[0] == 'c';
        var u :| (u, v) in r && u in RanPart(f) && RanPart(f)[u].status != "completed";
      }
    } else {
      NamesItself(r, nodes, env, cid, f, order, v);
      assert "canceled"[1] == 'a' && "completed"[1] == 'o';
    }
  }

  // ------------------------------------------------------------ determinism

  /** Two runs over the same graph and environment agree on the status and error
      of every task that ran in both, and dispatch it in the same batch. */
  lemma SameDispatches(r: Rel, nodes: set<Id>, env: Env, cid: string,
                       f: map<Id, Outcome>, order: seq<seq<Id>>, f': map<Id, Outcome>, order': seq<seq<Id>>, v: Id)
    requires Acyclic(r) && Reported(r, nodes, env, cid, f, order) && Reported(r, nodes, env, cid, f', order')
    requires v in nodes && f[v].batch >= 0 && f'[v].batch >= 0
    ensures f[v].status == f'[v].status && f[v].error == f'[v].error
    ensures DispatchedIn(r, f, v) <==> DispatchedIn(r, f', v)
    ensures DispatchedIn(r, f, v) ==> f[v] == f'[v]
  {
    DispatchedIffExpected(r, nodes, env, cid, f, order, v);
    DispatchedIffExpected(r, nodes, env, cid, f', order', v);
    assert v in RanPart(f) && v in RanPart(f');
    if DispatchedIn(r, f, v) {
      LevelUnique(r, v, f[v].batch, f'[v].batch);
    }
  }

  ghost predicate SameTasksRan(nodes: set<Id>, f: map<Id, Outcome>, f': map<Id, Outcome>)
    requires f.Keys == f'.Keys == nodes
  {
    forall v :: v in nodes ==> (f[v].batch >= 0 <==> f'[v].batch >= 0)
  }

  lemma NotMoreBatches(r: Rel, nodes: set<Id>, env: Env, cid: string,
                       f: map<Id, Outcome>, order: seq<seq<Id>>, f': map<Id, Outcome>, order': seq<seq<Id>>)
    requires Acyclic(r) && Reported(r, nodes, env, cid, f, order) && Reported(r, nodes, env, cid, f', order')
    requires SameTasksRan(nodes, f, f')
    ensures |order| <= |order'|
  {
    if |order| > |order'| {
      var v := order[|order'|][0];
      assert v in order[|order'|];
      assert WasDispatched(r, RanPart(f), v);
      SameDispatches(r, nodes, env, cid, f, order, f', order', v);
    }
  }

  /** Runs of the same tasks have the same execution order. */
  lemma SameExecutionOrder(r: Rel, nodes: set<Id>, env: Env, cid: string,
                           f: map<Id, Outcome>, order: seq<seq<Id>>, f': map<Id, Outcome>, order': seq<seq<Id>>)
    requires Acyclic(r) && Reported(r, nodes, env, cid, f, order) && Reported(r, nodes, env, cid, f', order')
    requires SameTasksRan(nodes, f, f')
    ensures order == order'
  {
    NotMoreBatches(r, nodes, env, cid, f, order, f', order');
    NotMoreBatches(r, nodes, env, cid, f', order', f, order);
    forall k | 0 <= k < |order|
      ensures order[k] == order'[k]
    {
      forall v
        ensures v in order[k] <==> v in order'[k]
      {
        assert v in order[k] ==> WasDispatched(r, RanPart(f), v);
        assert v in order'[k] ==> WasDispatched(r, RanPart(f'), v);
        if v in nodes && f[v].batch >= 0 {
          SameDispatches(r, nodes, env, cid, f, order, f', order', v);
        }
      }
      StrictlySortedUnique(order[k], order'[k]);
    }
  }

  lemma SameBatch(r: Rel, nodes: set<Id>, env: Env, cid: string, f: map<Id, Outcome>, f': map<Id, Outcome>,
                  order: seq<seq<Id>>, v: Id)
    requires Reported(r, nodes, env, cid, f, order) && Reported(r, nodes, env, cid, f', order)
    requires v in nodes && f[v].batch >= 0 && f'[v].batch >= 0
    ensures f[v].batch == f'[v].batch
  {
    assert v in RanPart(f) && AtBatch(r, RanPart(f), |order|, v);
    var k: nat :| IsLevel(r, v, k) && f[v].batch == if k < |order| then k else |order|;
    BatchIsCappedLevel(r, nodes, env, cid, f', order, v, k);
  }

  lemma NamesItself(r: Rel, nodes: set<Id>, env: Env, cid: string, f: map<Id, Outcome>, order: seq<seq<Id>>, v: Id)
    requires Reported(r, nodes, env, cid, f, order) && v in nodes
    ensures f[v].taskID == v && (f[v].batch < 0 ==> f[v] == NeverRun(v))
  {
    if f[v].batch >= 0 {
      assert v in RanPart(f) && f[v] == Due(r, env, cid, RanPart(f), v, f[v].batch);
    }
  }

  lemma SameOutcome(r: Rel, nodes: set<Id>, env: Env, cid: string, f: map<Id, Outcome>, f': map<Id, Outcome>,
                    order: seq<seq<Id>>, v: Id)
    requires Acyclic(r) && Reported(r, nodes, env, cid, f, order) && Reported(r, nodes, env, cid, f', order)
    requires v in nodes && (f[v].batch >= 0 <==> f'[v].batch >= 0)
    ensures f[v] == f'[v]
  {
    NamesItself(r, nodes, env, cid, f, order, v);
    NamesItself(r, nodes, env, cid, f', order, v);
    if f[v].batch >= 0 {
      SameDispatches(r, nodes, env, cid, f, order, f', order, v);
      SameBatch(r, nodes, env, cid, f, f', order, v);
    }
  }

  /** What a run reports is determined by the graph and the environment, complete
      or cut short: arrival order, task-list order and map order do not matter. */
  lemma SameOutcomes(r: Rel, nodes: set<Id>, env: Env, cid: string,
                     f: map<Id, Outcome>, order: seq<seq<Id>>, f': map<Id, Outcome>, order': seq<seq<Id>>)
    requires RunOf(r, nodes, env, cid, f, order) && RunOf(r, nodes, env, cid, f', order')
    ensures f == f' && order == order'
  {
    forall v | v in nodes
      ensures f[v].batch >= 0 <==> f'[v].batch >= 0
    {
      RanIff(r, nodes, env, cid, f, order, v);
      RanIff(r, nodes, env, cid, f', order', v);
    }
    SameExecutionOrder(r, nodes, env, cid, f, order, f', order');
    forall v | v in nodes
      ensures f[v] == f'[v]
    {
      SameOutcome(r, nodes, env, cid, f, f', order, v);
    }
  }

  // --------------------------------------------------- the documented statuses

  const DOCUMENTED_STATUSES := {"completed", "failed", "canceled", "skipped"}

  /** What the environment answers for a dispatched task has a documented status. */
  ghost predicate AnswersDocumented(env: Env, cid: string, v: Id) {
    match env.dispatch(v, cid)
    case DispatchFailed(_) => true
    case Dispatched(taskID) =>
      match env.waitFor(v, taskID)
      case WaitFailed(_) => true
      case Result(state) => state in DOCUMENTED_STATUSES
  }

  /** A status is one of the four documented ones exactly when the task is not
      dispatched, or its dispatch or wait fails, or the agent reports one. */
  lemma StatusDocumentedIff(r: Rel, nodes: set<Id>, env: Env, cid: string, f: map<Id, Outcome>,
                            order: seq<seq<Id>>, v: Id)
    requires RunOf(r, nodes, env, cid, f, order) && v in nodes
    ensures f[v].status in DOCUMENTED_STATUSES
            <==> !GetsTurn(r, nodes, env, cid, v) || !Runnable(r, env, cid, v) || AnswersDocumented(env, cid, v)
  {
    DispatchedIff(r, nodes, env, cid, f, order, v);
    NamesItself(r, nodes, env, cid, f, order, v);
    if f[v].batch >= 0 {
      assert v in RanPart(f) && f[v] == Due(r, env, cid, RanPart(f), v, f[v].batch);
    }
  }
}

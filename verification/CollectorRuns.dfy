/** Every interleaving of the collector's locked sections: callers that wait,
    receive, give up and clean up, and message handlers.
 */
module CollectorRuns {
  import opened Strings
  import opened Options
  import opened Collectors

  /** Where a WaitFor call is. A call that gave up still has to clean up. */
  datatype Phase =
    | Waiting(task: string)
    | Leaving(task: string)
    | Returned(task: string, result: TaskResult)
    | Cancelled(task: string)

  /** `pending` holds the status handlers that found no result and have not
      stored theirs yet: the check and the store are separate sections. */
  datatype System = System(shared: Shared, calls: map<Call, Phase>, pending: map<nat, TaskResult>)

  const INIT := System(Shared(map[], map[], map[]), map[], map[])

  datatype Step =
    | Wait(c: Call, task: string)
    | Receive(c: Call)
    | GiveUp(c: Call)
    | CleanUp(c: Call)
    | ResultMessage(subject: string, payload: Option<Task>)
    | StatusCheck(h: nat, subject: string, state: Option<string>)
    | StatusStore(h: nat)

  predicate Enabled(y: System, step: Step) {
    match step
    case Wait(c, _) => c !in y.calls
    case Receive(c) => c in y.calls && y.calls[c].Waiting? && c in y.shared.buffers && y.shared.buffers[c] != []
    case GiveUp(c) => c in y.calls && y.calls[c].Waiting?
    case CleanUp(c) => c in y.calls && y.calls[c].Leaving?
    case ResultMessage(_, _) => true
    case StatusCheck(h, _, _) => h !in y.pending
    case StatusStore(h) => h in y.pending
  }

  /** The task a result message is about: the embedded ID wins over the subject. */
  function ResultTask(subject: string, task: Task): string {
    if task.id != "" then task.id else TrimPrefix(subject, "agent.results.")
  }

  function Apply(y: System, step: Step): System
    requires Enabled(y, step)
  {
    match step
    case Wait(c, t) =>
      if t in y.shared.results then y.(calls := y.calls[c := Returned(t, y.shared.results[t])])
      else y.(shared := Register(y.shared, t, c), calls := y.calls[c := Waiting(t)])
    case Receive(c) =>
      var b := y.shared.buffers[c];
      y.(shared := y.shared.(buffers := y.shared.buffers[c := b[1..]]),
         calls := y.calls[c := Returned(y.calls[c].task, b[0])])
    case GiveUp(c) =>
      y.(calls := y.calls[c := Leaving(y.calls[c].task)])
    case CleanUp(c) =>
      var t := y.calls[c].task;
      y.(shared := Unregister(y.shared, t, c), calls := y.calls[c := Cancelled(t)])
    case ResultMessage(subject, payload) =>
      if TrimPrefix(subject, "agent.results.") == "" || payload.None? then y
      else
        var t := ResultTask(subject, payload.value);
        y.(shared := Store(y.shared, t, TaskResult(t, payload.value.state, payload)))
    case StatusCheck(h, subject, state) =>
      var t := TrimPrefix(subject, "agent.status.");
      if t == "" || state.None? || !IsTerminal(state.value) || t in y.shared.results then y
      else y.(pending := y.pending[h := TaskResult(t, state.value, None)])
    case StatusStore(h) =>
      y.(shared := Store(y.shared, y.pending[h].taskID, y.pending[h]), pending := y.pending - {h})
  }

  /** A run: states[0] is initial and each step leads to the next state. */
  ghost predicate IsRun(states: seq<System>, steps: seq<Step>) {
    && |states| == |steps| + 1
    && states[0] == INIT
    && forall i {:trigger steps[i]} :: 0 <= i < |steps| ==>
                 Enabled(states[i], steps[i]) && states[i + 1] == Apply(states[i], steps[i])
  }

  // -------------------------------------------------------------- the invariant

  /** r was stored and at most superseded since: a full result is final. */
  ghost predicate Agrees(current: TaskResult, r: TaskResult) {
    r.taskID == current.taskID && (current == r || r.task.None?)
  }

  /** A result is about task t: a partial one tells a terminal state, a full one
      the state of its task, which names t or nothing. */
  ghost predicate About(r: TaskResult, t: string) {
    && r.taskID == t
    && match r.task
       case None => IsTerminal(r.status)
       case Some(task) => r.status == task.state && (task.id == t || task.id == "")
  }

  /** What a status handler may be about to store. */
  ghost predicate Storable(r: TaskResult) {
    r.task.None? && r.taskID != "" && About(r, r.taskID)
  }

  ghost predicate Queued(s: Shared, t: string, c: Call) {
    t in s.waiters && c in s.waiters[t]
  }

  ghost predicate CallOk(s: Shared, c: Call, phase: Phase) {
    match phase
    case Waiting(t) =>
      if t in s.results then c in s.buffers && |s.buffers[c]| == 1
                                 && Agrees(s.results[t], s.buffers[c][0]) && About(s.buffers[c][0], t)
      else Queued(s, t, c)
    case Leaving(t) => t in s.results || Queued(s, t, c)
    case Returned(t, r) => t in s.results && Agrees(s.results[t], r) && About(r, t)
    case Cancelled(_) => true
  }

  /** No task has both a result and waiters; a queued channel is empty and
      belongs to a call still waiting or leaving; every call is as CallOk says. */
  ghost predicate Inv(y: System) {
    var s := y.shared;
    && (forall t :: t in s.waiters ==> t !in s.results && s.waiters[t] != [])
    && (forall t, c :: Queued(s, t, c) ==>
                         && c in y.calls && (y.calls[c] == Waiting(t) || y.calls[c] == Leaving(t))
                         && c in s.buffers && s.buffers[c] == [])
    && (forall c :: c in y.calls ==> CallOk(s, c, y.calls[c]))
    && s.buffers.Keys <= y.calls.Keys
    && (forall t :: t in s.results ==> t != "" && About(s.results[t], t))
    && (forall h :: h in y.pending ==> Storable(y.pending[h]))
  }

  /** Storing wakes everyone: the channels of the task's waiters are empty, so
      none drops the value, and each gets exactly what was just stored. */
  lemma StoreWakesAll(y: System, t: string, tr: TaskResult)
    requires Inv(y)
    ensures forall c :: Queued(y.shared, t, c) ==>
                          && y.shared.buffers[c] == []
                          && Store(y.shared, t, tr).buffers[c] == [tr]
                          && Store(y.shared, t, tr).results[t] == tr
  {
  }

  lemma StoreKeepsInv(y: System, t: string, tr: TaskResult, pending: map<nat, TaskResult>)
    requires Inv(y) && t != "" && About(tr, t)
    requires forall h :: h in pending ==> Storable(pending[h])
    ensures Inv(System(Store(y.shared, t, tr), y.calls, pending))
  {
    var s, s' := y.shared, Store(y.shared, t, tr);
    StoreWakesAll(y, t, tr);
    forall u, c | Queued(s', u, c)
      ensures Queued(s, u, c) && s'.buffers[c] == []
    {
      assert Queued(s, u, c);
      assert c in WaitersOf(s, t) ==> Queued(s, t, c);
    }
    forall c | c in y.calls
      ensures CallOk(s', c, y.calls[c])
    {
      assert CallOk(s, c, y.calls[c]);
      var u := y.calls[c].task;
      assert u != t && Queued(s, u, c) ==> Queued(s', u, c);
    }
  }

  lemma WaitKeepsInv(y: System, c: Call, t: string)
    requires Inv(y) && c !in y.calls
    ensures Inv(Apply(y, Wait(c, t)))
  {
    if t !in y.shared.results {
      var y' := Apply(y, Wait(c, t));
      forall u, d
        ensures Queued(y'.shared, u, d) <==> Queued(y.shared, u, d) || (u == t && d == c)
      {
      }
      forall d | d in y.calls
        ensures CallOk(y'.shared, d, y.calls[d])
      {
        assert CallOk(y.shared, d, y.calls[d]);
      }
    }
  }

  lemma CleanUpKeepsInv(y: System, c: Call)
    requires Inv(y) && Enabled(y, CleanUp(c))
    ensures Inv(Apply(y, CleanUp(c)))
  {
    var t := y.calls[c].task;
    var y' := Apply(y, CleanUp(c));
    forall u, d
      ensures Queued(y'.shared, u, d) <==> Queued(y.shared, u, d) && d != c
    {
      assert u == t ==> (d in WaitersOf(y.shared, t) <==> Queued(y.shared, t, d));
      assert Queued(y.shared, u, c) ==> u == t;
    }
    forall d | d in y.calls && d != c
      ensures CallOk(y'.shared, d, y.calls[d])
    {
      assert CallOk(y.shared, d, y.calls[d]);
    }
  }

  lemma ReceiveKeepsInv(y: System, c: Call)
    requires Inv(y) && Enabled(y, Receive(c))
    ensures Inv(Apply(y, Receive(c)))
  {
    var y' := Apply(y, Receive(c));
    assert CallOk(y.shared, c, y.calls[c]);
    assert forall u, d :: Queued(y'.shared, u, d) <==> Queued(y.shared, u, d);
    assert forall u :: !Queued(y.shared, u, c);
    forall d | d in y.calls && d != c
      ensures CallOk(y'.shared, d, y.calls[d])
    {
      assert CallOk(y.shared, d, y.calls[d]);
    }
  }

  lemma GiveUpKeepsInv(y: System, c: Call)
    requires Inv(y) && Enabled(y, GiveUp(c))
    ensures Inv(Apply(y, GiveUp(c)))
  {
    assert CallOk(y.shared, c, y.calls[c]);
  }

  lemma StatusCheckKeepsInv(y: System, h: nat, subject: string, state: Option<string>)
    requires Inv(y) && h !in y.pending
    ensures Inv(Apply(y, StatusCheck(h, subject, state)))
  {
  }

  lemma StepKeepsInv(y: System, step: Step)
    requires Inv(y) && Enabled(y, step)
    ensures Inv(Apply(y, step))
  {
    match step
    case Wait(c, t) => WaitKeepsInv(y, c, t);
    case Receive(c) => ReceiveKeepsInv(y, c);
    case GiveUp(c) => GiveUpKeepsInv(y, c);
    case CleanUp(c) => CleanUpKeepsInv(y, c);
    case ResultMessage(subject, payload) =>
      if payload.Some? && TrimPrefix(subject, "agent.results.") != "" {
        var t := ResultTask(subject, payload.value);
        StoreKeepsInv(y, t, TaskResult(t, payload.value.state, payload), y.pending);
      }
    case StatusCheck(h, subject, state) => StatusCheckKeepsInv(y, h, subject, state);
    case StatusStore(h) =>
      StoreKeepsInv(y, y.pending[h].taskID, y.pending[h], y.pending - {h});
  }

  lemma {:induction false} RunKeepsInv(states: seq<System>, steps: seq<Step>, k: nat)
    requires IsRun(states, steps) && k < |states|
    ensures Inv(states[k])
  {
    if k > 0 {
      RunKeepsInv(states, steps, k - 1);
      StepKeepsInv(states[k - 1], steps[k - 1]);
    }
  }

  // ---------------------------------------------------------------- the theorems

  /** No lost wake-up, in every reachable state: no task has a result and
      waiters; a call waiting for a task with a result has exactly one value to
      receive, and a full one is the stored result; a call waiting for a task
      without a result is queued. What a call returned is about its own task, in a
      terminal state if partial, and still the stored result unless partial. */
  lemma NoLostWakeUp(states: seq<System>, steps: seq<Step>, k: nat)
    requires IsRun(states, steps) && k < |states|
    ensures var s := states[k].shared;
            && s.results.Keys !! s.waiters.Keys
            && (forall c :: c in states[k].calls && states[k].calls[c].Waiting? ==>
                  var t := states[k].calls[c].task;
                  if t in s.results then
                    Enabled(states[k], Receive(c)) && |s.buffers[c]| == 1
                    && (s.buffers[c][0].task.Some? ==> s.buffers[c][0] == s.results[t])
                  else Queued(s, t, c))
            && (forall c :: c in states[k].calls && states[k].calls[c].Returned? ==>
                  var r := states[k].calls[c];
                  r.task in s.results && About(r.result, r.task)
                  && (r.result.task.Some? ==> r.result == s.results[r.task]))
  {
    RunKeepsInv(states, steps, k);
    forall c | c in states[k].calls
      ensures CallOk(states[k].shared, c, states[k].calls[c])
    {
    }
  }

  /** Absent, partial, full. */
  ghost function Progress(y: System, t: string): nat {
    if t !in y.shared.results then 0 else if y.shared.results[t].task.None? then 1 else 2
  }

  /** A task's entry only moves forward, and a full result never changes, even
      when it lands between a status handler's check and its store. */
  lemma {:induction false} ResultsAreMonotone(states: seq<System>, steps: seq<Step>, i: nat, j: nat, t: string)
    requires IsRun(states, steps) && i <= j < |states|
    ensures Progress(states[i], t) <= Progress(states[j], t)
    ensures Progress(states[i], t) == 2 ==> states[j].shared.results[t] == states[i].shared.results[t]
    decreases j
  {
    if i < j {
      ResultsAreMonotone(states, steps, i, j - 1, t);
      RunKeepsInv(states, steps, j - 1);
      assert states[j] == Apply(states[j - 1], steps[j - 1]);
    }
  }

  ghost predicate Continues(states: seq<System>, steps: seq<Step>, states': seq<System>, steps': seq<Step>) {
    states <= states' && steps <= steps' && IsRun(states', steps')
  }

  /** A stored result stays in every continuation of the run exactly when it is
      full: the task's result message replaces any partial one. */
  lemma FinalIffFull(states: seq<System>, steps: seq<Step>, t: string)
    requires IsRun(states, steps) && t in states[|steps|].shared.results
    ensures (forall states': seq<System>, steps': seq<Step> :: Continues(states, steps, states', steps') ==>
               t in states'[|steps'|].shared.results
               && states'[|steps'|].shared.results[t] == states[|steps|].shared.results[t])
            <==> states[|steps|].shared.results[t].task.Some?
  {
    if states[|steps|].shared.results[t].task.Some? {
      forall states': seq<System>, steps': seq<Step> | Continues(states, steps, states', steps')
        ensures t in states'[|steps'|].shared.results
                && states'[|steps'|].shared.results[t] == states[|steps|].shared.results[t]
      {
        assert states'[|steps|] == states[|steps|];
        ResultsAreMonotone(states', steps', |steps|, |steps'|, t);
      }
    } else {
      var states', steps' := ReplacePartial(states, steps, t);
    }
  }

  lemma ReplacePartial(states: seq<System>, steps: seq<Step>, t: string) returns (states': seq<System>, steps': seq<Step>)
    requires IsRun(states, steps) && t in states[|steps|].shared.results
    requires states[|steps|].shared.results[t].task.None?
    ensures Continues(states, steps, states', steps') && t in states'[|steps'|].shared.results
    ensures states'[|steps'|].shared.results[t].task.Some?
  {
    RunKeepsInv(states, steps, |steps|);
    var y, step := states[|steps|], ResultMessage("agent.results." + t, Some(Task(t, "completed")));
    assert TrimPrefix("agent.results." + t, "agent.results.") == t;
    states', steps' := states + [Apply(y, step)], steps + [step];
  }

  /** Status messages are handled one at a time, as one subscription delivers them. */
  ghost predicate OneAtATime(states: seq<System>) {
    forall k, g, h :: 0 <= k < |states| && g in states[k].pending && h in states[k].pending ==> g == h
  }

  /** Then what a status handler is about to store meets nothing or a full result. */
  lemma {:induction false} LoneStoreMeetsNoPartial(states: seq<System>, steps: seq<Step>, k: nat, h: nat)
    requires IsRun(states, steps) && OneAtATime(states) && k < |states| && h in states[k].pending
    ensures Progress(states[k], states[k].pending[h].taskID) != 1
  {
    var y, y' := states[k - 1], states[k];
    assert y' == Apply(y, steps[k - 1]);
    if h in y.pending {
      LoneStoreMeetsNoPartial(states, steps, k - 1, h);
    }
  }

  /** And a partial result stays until the full one comes. */
  lemma {:induction false} PartialIsKept(states: seq<System>, steps: seq<Step>, i: nat, j: nat, t: string)
    requires IsRun(states, steps) && OneAtATime(states) && i <= j < |states|
    requires Progress(states[i], t) == 1 && Progress(states[j], t) == 1
    ensures states[j].shared.results[t] == states[i].shared.results[t]
    decreases j
  {
    if i < j {
      ResultsAreMonotone(states, steps, i, j - 1, t);
      ResultsAreMonotone(states, steps, j - 1, j, t);
      PartialIsKept(states, steps, i, j - 1, t);
      assert states[j] == Apply(states[j - 1], steps[j - 1]);
      if steps[j - 1].StatusStore? {
        LoneStoreMeetsNoPartial(states, steps, j - 1, steps[j - 1].h);
      }
    }
  }

  /** A partial result may even be replaced by another partial one, when two
      status handlers overlap: both find nothing and store one after the other. */
  lemma PartialMayBeReplaced() returns (states: seq<System>, steps: seq<Step>)
    ensures IsRun(states, steps) && |states| == 5
    ensures "a" in states[3].shared.results && states[3].shared.results["a"].status == "completed"
    ensures "a" in states[4].shared.results && states[4].shared.results["a"].status == "failed"
  {
    var subject := "agent.status." + "a";
    assert TrimPrefix(subject, "agent.status.") == "a";
    var first, second := StatusCheck(0, subject, Some("completed")), StatusCheck(1, subject, Some("failed"));
    var y1 := Apply(INIT, first);
    var y2 := Apply(y1, second);
    var y3 := Apply(y2, StatusStore(0));
    var y4 := Apply(y3, StatusStore(1));
    states, steps := [INIT, y1, y2, y3, y4], [first, second, StatusStore(0), StatusStore(1)];
    assert IsTerminal("completed") && IsTerminal("failed");
  }

  // ------------------------------------------------- what each message does

  /** Call c waits for t and its channel holds nothing. */
  ghost predicate WaitsEmpty(y: System, c: Call, t: string) {
    c in y.calls && y.calls[c] == Waiting(t) && c in y.shared.buffers && y.shared.buffers[c] == []
  }

  /** A result message leaves its task with a full result: its own, unless there
      was a full one already. It wakes every call that waited for one with
      exactly that result, and touches no other task. */
  lemma ResultIsStored(states: seq<System>, steps: seq<Step>, i: nat, subject: string, task: Task, t: string)
    requires IsRun(states, steps) && i < |steps| && steps[i] == ResultMessage(subject, Some(task))
    requires TrimPrefix(subject, "agent.results.") != ""
    requires t == if task.id != "" then task.id else TrimPrefix(subject, "agent.results.")
    ensures var s, s' := states[i].shared, states[i + 1].shared;
            var stored := TaskResult(t, task.state, Some(task));
            && t in s'.results && t !in s'.waiters
            && s'.results[t] == (if t in s.results && s.results[t].task.Some? then s.results[t] else stored)
            && (forall c :: c in states[i].calls && states[i].calls[c] == Waiting(t) && t !in s.results ==>
                  c in s'.buffers && s'.buffers[c] == [stored] && Enabled(states[i + 1], Receive(c)))
            && (forall u :: u != t ==> (u in s'.results <==> u in s.results)
                                       && (u in s.results ==> s'.results[u] == s.results[u]))
    ensures states[i + 1].calls == states[i].calls && states[i + 1].pending == states[i].pending
  {
    RunKeepsInv(states, steps, i);
    var y := states[i];
    assert states[i + 1] == Apply(y, steps[i]);
    forall c | c in y.calls && y.calls[c] == Waiting(t) && t !in y.shared.results
      ensures Queued(y.shared, t, c)
    {
      assert CallOk(y.shared, c, y.calls[c]);
    }
    StoreWakesAll(y, t, TaskResult(t, task.state, Some(task)));
  }

  /** A message that does not decode or names no task is ignored. */
  lemma MalformedIsIgnored(y: System, step: Step)
    requires
      || (step.ResultMessage? && (step.payload.None? || TrimPrefix(step.subject, "agent.results.") == ""))
      || (step.StatusCheck? && (step.state.None? || TrimPrefix(step.subject, "agent.status.") == ""))
    requires Enabled(y, step)
    ensures Apply(y, step) == y
  {
  }

  /** Only the four final states count; any other leaves everything as it was. */
  lemma IntermediateStatusIsIgnored(y: System, h: nat, subject: string, state: string)
    requires Enabled(y, StatusCheck(h, subject, Some(state)))
    requires state != "completed" && state != "failed" && state != "canceled" && state != "rejected"
    ensures Apply(y, StatusCheck(h, subject, Some(state))) == y
  {
  }

  /** Until its store a handler keeps what it is about to store. */
  lemma {:induction false} PendingStays(states: seq<System>, steps: seq<Step>, i: nat, k: nat, h: nat)
    requires IsRun(states, steps) && i <= k < |states| && h in states[i].pending
    requires forall j {:trigger steps[j]} :: i <= j < k ==> steps[j] != StatusStore(h)
    ensures h in states[k].pending && states[k].pending[h] == states[i].pending[h]
    decreases k
  {
    if i < k {
      PendingStays(states, steps, i, k - 1, h);
      assert states[k] == Apply(states[k - 1], steps[k - 1]);
      assert steps[k - 1] != StatusStore(h);
    }
  }

  /** A final status for a task without a result, once its check and its store
      have run, leaves a result there: the status itself if nothing full came
      first; and every call waiting for the task can receive. */
  lemma TerminalStatusIsStored(states: seq<System>, steps: seq<Step>, i: nat, k: nat, h: nat, subject: string, state: string,
                               t: string)
    requires IsRun(states, steps) && i < k < |steps|
    requires steps[i] == StatusCheck(h, subject, Some(state)) && steps[k] == StatusStore(h)
    requires forall j {:trigger steps[j]} :: i < j < k ==> steps[j] != StatusStore(h)
    requires t == TrimPrefix(subject, "agent.status.") && t != "" && t !in states[i].shared.results
    requires state == "completed" || state == "failed" || state == "canceled" || state == "rejected"
    ensures var s, s' := states[k].shared, states[k + 1].shared;
            && t in s'.results
            && s'.results[t] == (if t in s.results && s.results[t].task.Some? then s.results[t]
                                 else TaskResult(t, state, None))
    ensures forall c :: c in states[k + 1].calls && states[k + 1].calls[c] == Waiting(t) ==>
                          Enabled(states[k + 1], Receive(c))
  {
    assert states[i + 1] == Apply(states[i], steps[i]);
    PendingStays(states, steps, i + 1, k, h);
    assert states[k + 1] == Apply(states[k], steps[k]);
    NoLostWakeUp(states, steps, k + 1);
  }

  /** A call finds the stored result at once, or is queued on a new channel. */
  lemma WaitFindsOrQueues(states: seq<System>, steps: seq<Step>, i: nat, c: Call, t: string)
    requires IsRun(states, steps) && i < |steps| && steps[i] == Wait(c, t)
    ensures c in states[i + 1].calls
    ensures var s := states[i].shared;
            if t in s.results then states[i + 1].calls[c] == Returned(t, s.results[t]) && states[i + 1].shared == s
            else WaitsEmpty(states[i + 1], c, t) && Queued(states[i + 1].shared, t, c)
    ensures forall d :: d in states[i].calls ==> d in states[i + 1].calls && states[i + 1].calls[d] == states[i].calls[d]
  {
    assert states[i + 1] == Apply(states[i], steps[i]);
  }

  /** A waiting call returns the one value its channel holds. */
  lemma ReceiveReturnsHeld(states: seq<System>, steps: seq<Step>, i: nat, c: Call)
    requires IsRun(states, steps) && i < |steps| && steps[i] == Receive(c)
    ensures c in states[i].calls && states[i].calls[c].Waiting? && c in states[i].shared.buffers
    ensures exists v :: states[i].shared.buffers[c] == [v]
                        && states[i + 1].calls == states[i].calls[c := Returned(states[i].calls[c].task, v)]
    ensures states[i + 1].shared.results == states[i].shared.results
  {
    RunKeepsInv(states, steps, i);
    assert CallOk(states[i].shared, c, states[i].calls[c]);
    assert states[i + 1] == Apply(states[i], steps[i]);
    var v := states[i].shared.buffers[c][0];
    assert states[i].shared.buffers[c] == [v];
  }

  /** A call that gave up leaves no channel behind and drops out as cancelled. */
  lemma CleanUpForgets(states: seq<System>, steps: seq<Step>, i: nat, c: Call, t: string)
    requires IsRun(states, steps) && i < |steps| && steps[i] == CleanUp(c)
    ensures c in states[i + 1].calls && states[i + 1].calls[c].Cancelled? && !Queued(states[i + 1].shared, t, c)
    ensures states[i + 1].shared.results == states[i].shared.results
  {
    RunKeepsInv(states, steps, i);
    RunKeepsInv(states, steps, i + 1);
    assert states[i + 1] == Apply(states[i], steps[i]);
  }

  /** A call may give up while it waits, and then cleans up; a new call, a result
      message and a status message can come at any time. */
  lemma CallsCanMove(y: System, c: Call, t: string, h: nat, subject: string, payload: Option<Task>, state: Option<string>)
    ensures c !in y.calls ==> Enabled(y, Wait(c, t))
    ensures c in y.calls && y.calls[c] == Waiting(t) ==>
              && Enabled(y, GiveUp(c))
              && Apply(y, GiveUp(c)) == y.(calls := y.calls[c := Leaving(t)])
              && Enabled(Apply(y, GiveUp(c)), CleanUp(c))
    ensures Enabled(y, ResultMessage(subject, payload))
    ensures if h in y.pending then Enabled(y, StatusStore(h)) else Enabled(y, StatusCheck(h, subject, state))
  {
  }
}

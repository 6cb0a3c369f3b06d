/** Graceful shutdown of the proxy (internal/proxy/shutdown.go with the
    admission gate and session tracking of internal/proxy/handler.go), as a
    step machine. Time-outs are steps that may happen at any moment.
 */
module Shutdowns {
  /** A Handle call after it passed the gate. Deferred calls run in reverse
      order: the session is dropped first, the wait group last. */
  datatype Handler =
    | Admitted
    | InSession(session: string)
    | Dropped
    | Left

  datatype Outcome = Drained | CallerGone | TimedOut

  /** The phases of Shutdown. */
  datatype Manager =
    | Running
    | AwaitingHandlers
    | GraceOver
    | WorkStopped
    | Cancelling(todo: set<string>)
    | AwaitingExit
    | Returned(outcome: Outcome)

  datatype Proxy = Proxy(
    shuttingDown: bool,
    inFlight: int,                  // the wait group's counter
    sessions: set<string>,
    handlers: map<nat, Handler>,
    manager: Manager,
    drained: bool,                  // phase 2: the waiting goroutine saw zero
    drainedLate: bool,              // phase 4: its second goroutine saw zero
    graceExpired: bool,
    callerGone: bool,               // the context passed to Shutdown is done
    workCancelled: bool,
    snapshot: set<string>,          // the sessions found active in phase 3
    notified: set<string>)          // the sessions sent a cancel

  const INIT := Proxy(false, 0, {}, map[], Running, false, false, false, false, false, {}, {})

  datatype Step =
    | Admit(h: nat)
    | OpenSession(h: nat, session: string)
    | Fail(h: nat)
    | DropSession(h: nat)
    | Leave(h: nat)
    | CloseGate
    | SeeDrained
    | SeeDrainedLate
    | ExpireGrace
    | LoseCaller
    | ReturnCallerGone
    | ReturnDrained
    | PassGrace
    | CancelWork
    | ListSessions
    | CancelSession(session: string)
    | EndCancelling
    | ReturnDrainedLate
    | ReturnTimedOut
    | ReturnCallerGoneLate

  predicate At(p: Proxy, h: nat, state: Handler) {
    h in p.handlers && p.handlers[h] == state
  }

  predicate Enabled(p: Proxy, step: Step) {
    match step
    case Admit(h) => h !in p.handlers
    case OpenSession(h, _) => At(p, h, Admitted)
    case Fail(h) => At(p, h, Admitted)
    case DropSession(h) => h in p.handlers && p.handlers[h].InSession?
    case Leave(h) => At(p, h, Dropped)
    case CloseGate => p.manager.Running?
    case SeeDrained => p.manager != Running && p.inFlight == 0
    case SeeDrainedLate => p.manager.AwaitingExit? && p.inFlight == 0
    case ExpireGrace => p.manager != Running
    case LoseCaller => true
    case ReturnCallerGone => p.manager.AwaitingHandlers? && p.callerGone
    case ReturnDrained => p.manager.AwaitingHandlers? && p.drained
    case PassGrace => p.manager.AwaitingHandlers? && (p.graceExpired || p.callerGone)
    case CancelWork => p.manager.GraceOver?
    case ListSessions => p.manager.WorkStopped?
    case CancelSession(s) => p.manager.Cancelling? && s in p.manager.todo
    case EndCancelling => p.manager.Cancelling? && p.manager.todo == {}
    case ReturnDrainedLate => p.manager.AwaitingExit? && p.drainedLate
    case ReturnTimedOut => p.manager.AwaitingExit?
    case ReturnCallerGoneLate => p.manager.AwaitingExit? && p.callerGone
  }

  function Apply(p: Proxy, step: Step): Proxy
    requires Enabled(p, step)
  {
    match step
    case Admit(h) =>
      if p.shuttingDown then p
      else p.(handlers := p.handlers[h := Admitted], inFlight := p.inFlight + 1)
    case OpenSession(h, s) =>
      p.(handlers := p.handlers[h := InSession(s)], sessions := p.sessions + {s})
    case Fail(h) =>
      p.(handlers := p.handlers[h := Left], inFlight := p.inFlight - 1)
    case DropSession(h) =>
      p.(handlers := p.handlers[h := Dropped], sessions := p.sessions - {p.handlers[h].session})
    case Leave(h) =>
      p.(handlers := p.handlers[h := Left], inFlight := p.inFlight - 1)
    case CloseGate => p.(shuttingDown := true, manager := AwaitingHandlers)
    case SeeDrained => p.(drained := true)
    case SeeDrainedLate => p.(drainedLate := true)
    case ExpireGrace => p.(graceExpired := true)
    case LoseCaller => p.(callerGone := true)
    case ReturnCallerGone => p.(workCancelled := true, manager := Returned(CallerGone))
    case ReturnDrained => p.(workCancelled := true, manager := Returned(Drained))
    case PassGrace => p.(manager := GraceOver)
    case CancelWork => p.(workCancelled := true, manager := WorkStopped)
    case ListSessions => p.(manager := Cancelling(p.sessions), snapshot := p.sessions)
    case CancelSession(s) => p.(manager := Cancelling(p.manager.todo - {s}), notified := p.notified + {s})
    case EndCancelling => p.(manager := AwaitingExit)
    case ReturnDrainedLate => p.(manager := Returned(Drained))
    case ReturnTimedOut => p.(manager := Returned(TimedOut))
    case ReturnCallerGoneLate => p.(manager := Returned(CallerGone))
  }

  ghost predicate IsRun(states: seq<Proxy>, steps: seq<Step>) {
    && |states| == |steps| + 1
    && states[0] == INIT
    && forall i {:trigger steps[i]} :: 0 <= i < |steps| ==>
                 Enabled(states[i], steps[i]) && states[i + 1] == Apply(states[i], steps[i])
  }

  // -------------------------------------------------------------- the invariant

  ghost function Active(hs: map<nat, Handler>): set<nat> {
    set h | h in hs && hs[h] != Left
  }

  /** The sessions of the handlers that are in one. */
  ghost function OpenSessions(hs: map<nat, Handler>): set<string> {
    set h | h in hs && hs[h].InSession? :: hs[h].session
  }

  ghost predicate WorkStopJustified(p: Proxy) {
    p.shuttingDown && ((p.drained && p.inFlight == 0) || p.graceExpired || p.callerGone)
  }

  /** The counter counts the handlers in flight, and only their sessions are tracked. */
  ghost predicate Tracks(p: Proxy) {
    && p.inFlight == |Active(p.handlers)|
    && p.sessions <= OpenSessions(p.handlers)
  }

  /** What each phase of the manager has established. */
  ghost predicate InPhase(p: Proxy) {
    && (p.shuttingDown <==> p.manager != Running)
    && (p.drained || p.drainedLate ==> p.shuttingDown && p.inFlight == 0)
    && (p.workCancelled ==> WorkStopJustified(p))
    && (p.manager.GraceOver? ==> p.graceExpired || p.callerGone)
    && (p.manager.WorkStopped? || p.manager.Cancelling? || p.manager.AwaitingExit? || p.manager.Returned? ==>
          p.workCancelled)
    && (p.manager == Returned(Drained) ==> p.drained || p.drainedLate)
  }

  /** Cancels go to exactly the sessions listed in phase 3. */
  ghost predicate Notifies(p: Proxy) {
    match p.manager
    case Cancelling(todo) => todo + p.notified == p.snapshot
    case AwaitingExit => p.notified == p.snapshot
    case Returned(_) => p.notified == p.snapshot
    case _ => p.notified == p.snapshot == {}
  }

  ghost predicate Inv(p: Proxy) {
    Tracks(p) && InPhase(p) && Notifies(p)
  }

  /** One handler moves: what that does to the handlers in flight. */
  lemma ActiveMoves(hs: map<nat, Handler>, h: nat, state: Handler)
    ensures Active(hs[h := state]) == (if state != Left then Active(hs) + {h} else Active(hs) - {h})
    ensures |Active(hs[h := state])|
            == |Active(hs)| + (if state != Left then 1 else 0) - (if h in hs && hs[h] != Left then 1 else 0)
  {
    var hs' := hs[h := state];
    assert Active(hs') == (if state != Left then Active(hs) + {h} else Active(hs) - {h});
    assert h in Active(hs) <==> h in hs && hs[h] != Left;
    assert h in Active(hs) ==> Active(hs) + {h} == Active(hs);
    assert h !in Active(hs) ==> Active(hs) - {h} == Active(hs);
  }

  /** And to the open sessions. */
  lemma SessionsMove(hs: map<nat, Handler>, h: nat, state: Handler)
    ensures var hs' := hs[h := state];
            && OpenSessions(hs) <= OpenSessions(hs') + SessionAt(hs, h)
            && OpenSessions(hs') <= OpenSessions(hs) + SessionAt(hs', h)
            && SessionAt(hs', h) <= OpenSessions(hs')
  {
    var hs' := hs[h := state];
    assert forall g :: g != h && g in hs ==> g in hs' && hs'[g] == hs[g];
    assert h in hs' && hs'[h] == state;
  }

  ghost function SessionAt(hs: map<nat, Handler>, h: nat): set<string> {
    if h in hs && hs[h].InSession? then {hs[h].session} else {}
  }

  predicate IsHandlerStep(step: Step) {
    step.Admit? || step.OpenSession? || step.Fail? || step.DropSession? || step.Leave?
  }

  /** One handler moves on. */
  lemma HandlerKeepsTracks(p: Proxy, h: nat, state: Handler, inFlight: int, sessions: set<string>)
    requires Tracks(p)
    requires inFlight == p.inFlight + (if state != Left then 1 else 0) - (if h in p.handlers && p.handlers[h] != Left then 1 else 0)
    requires sessions <= p.sessions - SessionAt(p.handlers, h) + (if state.InSession? then {state.session} else {})
    ensures Tracks(p.(handlers := p.handlers[h := state], inFlight := inFlight, sessions := sessions))
  {
    ActiveMoves(p.handlers, h, state);
    SessionsMove(p.handlers, h, state);
  }

  /** A step of the handlers: what it does to the proxy. */
  lemma HandlerStepMoves(p: Proxy, step: Step) returns (state: Handler)
    requires Enabled(p, step) && IsHandlerStep(step) && !(step.Admit? && p.shuttingDown)
    ensures var p' := Apply(p, step);
            && p' == p.(handlers := p.handlers[step.h := state], inFlight := p'.inFlight, sessions := p'.sessions)
            && p'.inFlight == p.inFlight + (if state != Left then 1 else 0)
                              - (if step.h in p.handlers && p.handlers[step.h] != Left then 1 else 0)
            && p'.sessions <= p.sessions - SessionAt(p.handlers, step.h) + (if state.InSession? then {state.session} else {})
  {
    state := match step
      case Admit(_) => Admitted
      case OpenSession(_, s) => InSession(s)
      case DropSession(_) => Dropped
      case _ => Left;
  }

  lemma StepKeepsTracks(p: Proxy, step: Step)
    requires Tracks(p) && Enabled(p, step)
    ensures Tracks(Apply(p, step))
    ensures p.shuttingDown ==> Apply(p, step).inFlight <= p.inFlight
  {
    if IsHandlerStep(step) && !(step.Admit? && p.shuttingDown) {
      var state := HandlerStepMoves(p, step);
      HandlerKeepsTracks(p, step.h, state, Apply(p, step).inFlight, Apply(p, step).sessions);
    }
  }

  lemma StepKeepsPhase(p: Proxy, step: Step)
    requires Enabled(p, step) && InPhase(p) && p.inFlight >= 0 && Apply(p, step).inFlight >= 0
    requires p.shuttingDown ==> Apply(p, step).inFlight <= p.inFlight
    ensures InPhase(Apply(p, step))
  {
  }

  lemma StepKeepsNotifies(p: Proxy, step: Step)
    requires Enabled(p, step) && Notifies(p)
    ensures Notifies(Apply(p, step))
  {
  }

  lemma StepKeepsInv(p: Proxy, step: Step)
    requires Inv(p) && Enabled(p, step)
    ensures Inv(Apply(p, step))
  {
    StepKeepsTracks(p, step);
    StepKeepsPhase(p, step);
    StepKeepsNotifies(p, step);
  }

  lemma {:induction false} RunKeepsInv(states: seq<Proxy>, steps: seq<Step>, k: nat)
    requires IsRun(states, steps) && k < |states|
    ensures Inv(states[k])
  {
    if k > 0 {
      RunKeepsInv(states, steps, k - 1);
      StepKeepsInv(states[k - 1], steps[k - 1]);
    }
  }

  // ---------------------------------------------------------------- the theorems

  /** Once the gate is closed the number of handlers in flight never rises. */
  lemma {:induction false} GateHolds(states: seq<Proxy>, steps: seq<Step>, i: nat, j: nat)
    requires IsRun(states, steps) && i <= j < |states| && states[i].shuttingDown
    ensures states[j].shuttingDown && Active(states[j].handlers) <= Active(states[i].handlers)
    ensures states[j].inFlight <= states[i].inFlight
    decreases j
  {
    if i < j {
      GateHolds(states, steps, i, j - 1);
      RunKeepsInv(states, steps, j - 1);
      var p, step := states[j - 1], steps[j - 1];
      StepKeepsTracks(p, step);
      assert states[j] == Apply(p, step);
      assert Active(states[j].handlers) <= Active(p.handlers);
    }
  }

  /** A nil return means that no handler is in flight, none ever will be, and
      no session is tracked. */
  lemma NilReturnIsQuiet(states: seq<Proxy>, steps: seq<Step>, i: nat, j: nat)
    requires IsRun(states, steps) && i <= j < |states| && states[i].manager == Returned(Drained)
    ensures states[j].inFlight == 0 && Active(states[j].handlers) == {} && states[j].sessions == {}
  {
    RunKeepsInv(states, steps, i);
    RunKeepsInv(states, steps, j);
    GateHolds(states, steps, i, j);
    assert Active(states[j].handlers) == {};
    forall h | h in states[j].handlers
      ensures !states[j].handlers[h].InSession?
    {
      assert h !in Active(states[j].handlers);
    }
  }

  /** In every reachable state: tracked sessions belong to handlers in flight;
      the work context is cancelled only once the gate is closed and the
      handlers drained, the grace period expired or the caller gave up, and
      always before Shutdown returns; the sessions sent a cancel are exactly
      those tracked when phase 3 listed them. */
  lemma ShutdownIsOrderly(states: seq<Proxy>, steps: seq<Step>, k: nat)
    requires IsRun(states, steps) && k < |states|
    ensures var p := states[k];
            && (forall s :: s in p.sessions ==>
                              exists h :: h in Active(p.handlers) && p.handlers[h] == InSession(s))
            && (p.workCancelled ==> WorkStopJustified(p))
            && (p.manager.Returned? ==> p.workCancelled)
            && (p.manager.AwaitingExit? || p.manager.Returned? ==> p.notified == p.snapshot)
  {
    RunKeepsInv(states, steps, k);
    var p := states[k];
    forall s | s in p.sessions
      ensures exists h :: h in Active(p.handlers) && p.handlers[h] == InSession(s)
    {
      assert s in OpenSessions(p.handlers);
      var h :| h in p.handlers && p.handlers[h].InSession? && p.handlers[h].session == s;
      assert h in Active(p.handlers);
    }
  }

  /** No two handlers hold one session, as long as the agent issues fresh IDs. */
  ghost predicate FreshSessions(states: seq<Proxy>, steps: seq<Step>) {
    forall i {:trigger steps[i]} :: 0 <= i < |steps| && i < |states| && steps[i].OpenSession? ==>
                                      steps[i].session !in OpenSessions(states[i].handlers)
  }

  ghost predicate OneHandlerEach(hs: map<nat, Handler>) {
    forall g, h :: g in hs && h in hs && hs[g].InSession? && hs[g] == hs[h] ==> g == h
  }

  /** Then the tracked sessions are exactly the open ones, so phase 3 misses
      none that is open when it lists them. */
  lemma {:induction false} TracksAllFreshSessions(states: seq<Proxy>, steps: seq<Step>, k: nat)
    requires IsRun(states, steps) && FreshSessions(states, steps) && k < |states|
    ensures states[k].sessions == OpenSessions(states[k].handlers)
    ensures OneHandlerEach(states[k].handlers)
  {
    if k > 0 {
      TracksAllFreshSessions(states, steps, k - 1);
      var p, step := states[k - 1], steps[k - 1];
      assert states[k] == Apply(p, step);
      FreshStepTracksAll(p, step);
    }
  }

  lemma FreshStepTracksAll(p: Proxy, step: Step)
    requires Enabled(p, step) && p.sessions == OpenSessions(p.handlers) && OneHandlerEach(p.handlers)
    requires step.OpenSession? ==> step.session !in OpenSessions(p.handlers)
    ensures Apply(p, step).sessions == OpenSessions(Apply(p, step).handlers)
    ensures OneHandlerEach(Apply(p, step).handlers)
  {
    var p' := Apply(p, step);
    if p'.handlers != p.handlers {
      var h := step.h;
      MoveKeepsOneEach(p.handlers, h, p'.handlers[h]);
      assert p'.handlers == p.handlers[h := p'.handlers[h]];
      assert p'.sessions == p.sessions - SessionAt(p.handlers, h) + SessionAt(p'.handlers, h);
    } else {
      assert p'.sessions == p.sessions;
    }
  }

  lemma MoveKeepsOneEach(hs: map<nat, Handler>, h: nat, state: Handler)
    requires OneHandlerEach(hs) && (state.InSession? ==> state.session !in OpenSessions(hs))
    ensures OneHandlerEach(hs[h := state])
    ensures OpenSessions(hs[h := state]) == OpenSessions(hs) - SessionAt(hs, h) + SessionAt(hs[h := state], h)
  {
    var hs' := hs[h := state];
    assert forall g :: g in hs && hs[g].InSession? ==> hs[g].session in OpenSessions(hs);
    SessionsMove(hs, h, state);
  }

  /** Phase 3 was reached. */
  predicate PastListing(p: Proxy) {
    p.manager.Cancelling? || p.manager.AwaitingExit? || p.manager.Returned?
  }

  /** The listing is made once and kept. */
  lemma {:induction false} SnapshotIsListing(states: seq<Proxy>, steps: seq<Step>, i: nat, k: nat)
    requires IsRun(states, steps) && i < |steps| && steps[i] == ListSessions && i < k < |states|
    ensures PastListing(states[k]) && states[k].snapshot == states[i].sessions
    decreases k
  {
    assert states[k] == Apply(states[k - 1], steps[k - 1]);
    if i < k - 1 {
      SnapshotIsListing(states, steps, i, k - 1);
    }
  }

  /** Once phase 3 is over, the sessions sent a cancel are exactly those tracked
      when it listed them; with fresh session IDs, exactly those open then. */
  lemma CancelsTheListed(states: seq<Proxy>, steps: seq<Step>, i: nat, k: nat)
    requires IsRun(states, steps) && i < |steps| && steps[i] == ListSessions && i < k < |states|
    requires !states[k].manager.Cancelling?
    ensures states[k].notified == states[i].sessions
    ensures FreshSessions(states, steps) ==> states[k].notified == OpenSessions(states[i].handlers)
  {
    SnapshotIsListing(states, steps, i, k);
    RunKeepsInv(states, steps, k);
    if FreshSessions(states, steps) {
      TracksAllFreshSessions(states, steps, i);
    }
  }

  /** Every session open at k was sent a cancel exactly when none opened after
      the listing. */
  lemma AllCancelledIff(states: seq<Proxy>, steps: seq<Step>, i: nat, k: nat)
    requires IsRun(states, steps) && i < |steps| && steps[i] == ListSessions && i < k < |states|
    requires !states[k].manager.Cancelling? && FreshSessions(states, steps)
    ensures OpenSessions(states[k].handlers) <= states[k].notified
            <==> OpenSessions(states[k].handlers) <= OpenSessions(states[i].handlers)
  {
    CancelsTheListed(states, steps, i, k);
  }

  /** A session that opens after phase 3 listed the sessions is never sent a
      cancel, although its handler is in flight when Shutdown gives up. */
  lemma LateSessionIsMissed() returns (states: seq<Proxy>, steps: seq<Step>)
    ensures IsRun(states, steps) && |states| == 10
    ensures states[9].manager == Returned(TimedOut) && At(states[9], 0, InSession("s")) && "s" !in states[9].notified
  {
    states, steps := ListedBeforeOpen();
    states, steps := Extend(states, steps, OpenSession(0, "s"));
    states, steps := Extend(states, steps, ReturnTimedOut);
  }

  lemma ListedBeforeOpen() returns (states: seq<Proxy>, steps: seq<Step>)
    ensures IsRun(states, steps) && |states| == 8
    ensures states[7].manager == AwaitingExit && At(states[7], 0, Admitted) && states[7].notified == {}
  {
    states, steps := Extend([INIT], [], Admit(0));
    states, steps := Extend(states, steps, CloseGate);
    states, steps := Extend(states, steps, ExpireGrace);
    states, steps := Extend(states, steps, PassGrace);
    states, steps := Extend(states, steps, CancelWork);
    states, steps := Extend(states, steps, ListSessions);
    states, steps := Extend(states, steps, EndCancelling);
  }

  lemma Extend(states: seq<Proxy>, steps: seq<Step>, step: Step) returns (states': seq<Proxy>, steps': seq<Step>)
    requires IsRun(states, steps) && Enabled(states[|steps|], step)
    ensures IsRun(states', steps') && |steps'| == |steps| + 1
    ensures states'[|steps'|] == Apply(states[|steps|], step)
  {
    states', steps' := states + [Apply(states[|steps|], step)], steps + [step];
  }

  // --------------------------------------------------- what each step does

  /** The gate: a call is admitted and counted exactly while it is open. */
  lemma AdmittedIffOpen(p: Proxy, h: nat)
    requires h !in p.handlers
    ensures Enabled(p, Admit(h))
    ensures if p.shuttingDown then Apply(p, Admit(h)) == p
            else At(Apply(p, Admit(h)), h, Admitted) && Apply(p, Admit(h)).inFlight == p.inFlight + 1
                 && forall g :: g in p.handlers ==> At(Apply(p, Admit(h)), g, p.handlers[g])
  {
  }

  /** An admitted call opens a tracked session, drops it, and is counted out last;
      one that fails before that is counted out at once. */
  lemma HandlerPasses(p: Proxy, h: nat, s: string)
    requires At(p, h, Admitted)
    ensures Enabled(p, OpenSession(h, s)) && Enabled(p, Fail(h))
    ensures var p1 := Apply(p, OpenSession(h, s));
            && At(p1, h, InSession(s)) && p1.inFlight == p.inFlight && p1.sessions == p.sessions + {s}
            && Enabled(p1, DropSession(h))
            && var p2 := Apply(p1, DropSession(h));
               && At(p2, h, Dropped) && p2.inFlight == p.inFlight && p2.sessions == p.sessions - {s}
               && Enabled(p2, Leave(h))
               && At(Apply(p2, Leave(h)), h, Left) && Apply(p2, Leave(h)).inFlight == p.inFlight - 1
    ensures At(Apply(p, Fail(h)), h, Left) && Apply(p, Fail(h)).inFlight == p.inFlight - 1
  {
  }

  /** With no handler left Shutdown can return nil, in the second phase and in
      the fourth. */
  lemma DrainedCanReturnNil(p: Proxy)
    requires p.inFlight == 0
    ensures p.manager.AwaitingHandlers? ==>
              && Enabled(p, SeeDrained) && Enabled(Apply(p, SeeDrained), ReturnDrained)
              && Apply(Apply(p, SeeDrained), ReturnDrained).manager == Returned(Drained)
    ensures p.manager.AwaitingExit? ==>
              && Enabled(p, SeeDrainedLate) && Enabled(Apply(p, SeeDrainedLate), ReturnDrainedLate)
              && Apply(Apply(p, SeeDrainedLate), ReturnDrainedLate).manager == Returned(Drained)
  {
  }

  /** The phases in order: the gate closes, the grace period ends, the work
      context is cancelled, the tracked sessions are listed. */
  lemma PhasesFollow(p: Proxy)
    ensures p.manager.Running? ==> Enabled(p, CloseGate) && Apply(p, CloseGate).manager == AwaitingHandlers
    ensures p.manager.AwaitingHandlers? ==>
              && Enabled(p, ExpireGrace) && Enabled(Apply(p, ExpireGrace), PassGrace)
              && Apply(Apply(p, ExpireGrace), PassGrace).manager == GraceOver
    ensures p.manager.GraceOver? ==> Enabled(p, CancelWork) && Apply(p, CancelWork).manager == WorkStopped
    ensures p.manager.WorkStopped? ==> Enabled(p, ListSessions) && Apply(p, ListSessions).manager == Cancelling(p.sessions)
  {
  }

  /** Every listed session is cancelled, and then the last wait ends at the
      latest by its timer. */
  lemma CancellingEnds(p: Proxy)
    ensures p.manager.Cancelling? ==>
              && (forall s :: s in p.manager.todo ==> Enabled(p, CancelSession(s)))
              && (p.manager.todo == {} ==> Enabled(p, EndCancelling) && Apply(p, EndCancelling).manager == AwaitingExit)
    ensures p.manager.AwaitingExit? ==> Enabled(p, ReturnTimedOut) && Apply(p, ReturnTimedOut).manager == Returned(TimedOut)
  {
  }

  /** A caller that gives up ends either wait. */
  lemma CallerMayGiveUp(p: Proxy)
    ensures Enabled(p, LoseCaller) && Apply(p, LoseCaller).callerGone
    ensures p.manager.AwaitingHandlers? && p.callerGone ==>
              Enabled(p, ReturnCallerGone) && Apply(p, ReturnCallerGone).manager == Returned(CallerGone)
    ensures p.manager.AwaitingExit? && p.callerGone ==>
              Enabled(p, ReturnCallerGoneLate) && Apply(p, ReturnCallerGoneLate).manager == Returned(CallerGone)
  {
  }

  /** What a return says: nil that a wait saw no handler left, the context's
      error that the caller gave up, a time-out that phase 3 is over. */
  ghost predicate OutcomeHolds(p: Proxy) {
    p.manager.Returned? ==>
      match p.manager.outcome
      case Drained => p.inFlight == 0
      case CallerGone => p.callerGone
      case TimedOut => p.graceExpired || p.callerGone
  }

  /** Past the second phase the grace period is over or the caller gone. */
  ghost predicate PastGrace(p: Proxy) {
    p.manager.GraceOver? || p.manager.WorkStopped? || p.manager.Cancelling? || p.manager.AwaitingExit? ==>
      p.graceExpired || p.callerGone
  }

  lemma {:induction false} ReturnTells(states: seq<Proxy>, steps: seq<Step>, k: nat)
    requires IsRun(states, steps) && k < |states|
    ensures OutcomeHolds(states[k]) && PastGrace(states[k])
  {
    RunKeepsInv(states, steps, k);
    if k > 0 {
      ReturnTells(states, steps, k - 1);
      assert states[k] == Apply(states[k - 1], steps[k - 1]);
    }
  }
}

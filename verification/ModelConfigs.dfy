/** The ModelConfig reconciler
    (operator/internal/controller/modelconfig_controller.go): a changed secret
    hash is written onto every runtime that refers to the config, and only then
    into the config's own status. Reads of the API server are inputs; each write
    is atomic and may be refused, or take effect although an error comes back.
 */
module ModelConfigs {
  import opened Options

  datatype Ref = Ref(name: string, namespace: string)

  datatype Runtime = Runtime(namespace: string, name: string, ref: Option<Ref>, annotation: Option<string>)

  datatype Status = Status(secretHash: string, observedGeneration: int, available: Option<bool>, degraded: Option<bool>)

  datatype ModelConfig = ModelConfig(namespace: string, name: string, generation: int, hasSecretRef: bool)

  datatype Fetch = Found | NotFound | FetchError

  datatype Write = Accepted | Refused | Lost

  /** What the API server answers during one call of Reconcile: the hash of the
      secret unless it cannot be read, and one answer for each possible write. */
  datatype Attempt = Attempt(
    fetch: Fetch, secret: Option<string>, listed: bool, update: nat -> Write, persist: Write)

  datatype Result = Done | RequeueAfter30s | Failed

  datatype State = State(runtimes: seq<Runtime>, status: Status)

  predicate Lands(w: Write) {
    w != Refused
  }

  predicate ReferencesModelConfig(rt: Runtime, mc: ModelConfig) {
    if rt.ref.None? then false
    else if rt.ref.value.name != mc.name then false
    else
      var namespace := if rt.ref.value.namespace == "" then rt.namespace else rt.ref.value.namespace;
      namespace == mc.namespace
  }

  /** The annotation as Go reads it: a missing one is the empty string. */
  function HashOn(rt: Runtime): string {
    if rt.annotation.Some? then rt.annotation.value else ""
  }

  function ResolvedHash(mc: ModelConfig, a: Attempt): Option<string> {
    if mc.hasSecretRef then a.secret else Some("")
  }

  predicate NeedsUpdate(rt: Runtime, mc: ModelConfig, hash: string) {
    ReferencesModelConfig(rt, mc) && HashOn(rt) != hash
  }

  function Annotated(rt: Runtime, hash: string): Runtime {
    rt.(annotation := Some(hash))
  }

  function Degraded(s: Status, mc: ModelConfig): Status {
    s.(observedGeneration := mc.generation, available := Some(false), degraded := Some(true))
  }

  function Resolved(mc: ModelConfig, hash: string): Status {
    Status(hash, mc.generation, Some(true), Some(false))
  }

  ghost predicate AllUpToDate(runtimes: seq<Runtime>, mc: ModelConfig, hash: string) {
    forall i :: 0 <= i < |runtimes| ==> !NeedsUpdate(runtimes[i], mc, hash)
  }

  ghost predicate DoneUpTo(before: seq<Runtime>, now: seq<Runtime>, mc: ModelConfig, hash: string,
                           update: nat -> Write, n: nat) {
    && n <= |before| == |now|
    && (forall i :: 0 <= i < n ==>
          now[i] == if NeedsUpdate(before[i], mc, hash) then Annotated(before[i], hash) else before[i])
    && (forall i :: 0 <= i < n && NeedsUpdate(before[i], mc, hash) ==> update(i) == Accepted)
  }

  /** Every runtime before stop has been brought up to date; stop is the end of
      the list, or the first runtime whose write came back with an error. */
  ghost predicate PropagatedTo(before: seq<Runtime>, after: seq<Runtime>, mc: ModelConfig, hash: string,
                               update: nat -> Write, stop: nat) {
    && DoneUpTo(before, after, mc, hash, update, stop)
    && (forall i :: stop < i < |before| ==> after[i] == before[i])
    && (stop < |before| ==>
          && NeedsUpdate(before[stop], mc, hash) && update(stop) != Accepted
          && after[stop] == if Lands(update(stop)) then Annotated(before[stop], hash) else before[stop])
  }

  /** One call of Reconcile, by the point at which it ends. */
  ghost predicate Attempted(before: State, after: State, mc: ModelConfig, a: Attempt, r: Result) {
    if !a.fetch.Found? then
      after == before && r == if a.fetch.NotFound? then Done else Failed
    else if ResolvedHash(mc, a).None? then
      && after == (if Lands(a.persist) then before.(status := Degraded(before.status, mc)) else before)
      && r == if a.persist == Accepted then RequeueAfter30s else Failed
    else
      var hash := ResolvedHash(mc, a).value;
      if hash == before.status.secretHash then
        Persisted(before, before.runtimes, after, mc, hash, a.persist, r)
      else if !a.listed then
        after == before && r == Failed
      else
        exists stop: nat ::
          && PropagatedTo(before.runtimes, after.runtimes, mc, hash, a.update, stop)
          && if stop < |before.runtimes| then after.status == before.status && r == Failed
             else Persisted(before, after.runtimes, after, mc, hash, a.persist, r)
  }

  ghost predicate Persisted(before: State, runtimes: seq<Runtime>, after: State, mc: ModelConfig, hash: string,
                            persist: Write, r: Result) {
    && after == State(runtimes, if Lands(persist) then Resolved(mc, hash) else before.status)
    && r == if persist == Accepted then Done else Failed
  }

  /** What holds at every moment of a rotation that started in before: a runtime
      is as it was, or refers to the config and carries the new hash; and the
      persisted hash is the old one until every such runtime carries the new. */
  ghost predicate Rotating(before: State, now: State, mc: ModelConfig, hash: string) {
    && |now.runtimes| == |before.runtimes|
    && (forall i :: 0 <= i < |now.runtimes| ==>
          now.runtimes[i] == before.runtimes[i]
          || (NeedsUpdate(before.runtimes[i], mc, hash) && now.runtimes[i] == Annotated(before.runtimes[i], hash)))
    && (now.status.secretHash == before.status.secretHash
        || (now.status.secretHash == hash && AllUpToDate(now.runtimes, mc, hash)))
  }

  lemma UpdateRotates(before: seq<Runtime>, now: seq<Runtime>, status: Status, mc: ModelConfig, hash: string,
                      update: nat -> Write, i: nat)
    requires DoneUpTo(before, now, mc, hash, update, i)
    requires forall k :: i <= k < |before| ==> now[k] == before[k]
    requires i < |before| && NeedsUpdate(before[i], mc, hash)
    ensures Rotating(State(before, status), State(now[i := Annotated(before[i], hash)], status), mc, hash)
  {
  }

  /** The trace tells how the cluster got from before to now, and every write
      on the way left it rotating. */
  ghost predicate Traced(before: State, trace: seq<State>, length: nat, now: State, mc: ModelConfig, hash: string) {
    && length <= |trace|
    && now == (if |trace| == length then before else trace[|trace| - 1])
    && forall k :: length <= k < |trace| ==> Rotating(before, trace[k], mc, hash)
  }

  lemma TraceGrows(before: State, trace: seq<State>, length: nat, now: State, next: State, mc: ModelConfig, hash: string)
    requires Traced(before, trace, length, now, mc, hash) && Rotating(before, next, mc, hash)
    ensures Traced(before, trace + [next], length, next, mc, hash)
  {
  }

  // ------------------------------------------------------------ the program

  /** The API server's copies of the objects. trace records the state after
      each write that took effect. */
  class Cluster {
    var runtimes: seq<Runtime>
    var status: Status
    ghost var trace: seq<State>

    ghost function Now(): State
      reads this
    {
      State(runtimes, status)
    }

    constructor (runtimes: seq<Runtime>, status: Status)
      ensures Now() == State(runtimes, status) && trace == []
    {
      this.runtimes, this.status, this.trace := runtimes, status, [];
    }

    method UpdateRuntime(i: nat, rt: Runtime, w: Write) returns (ok: bool)
      requires i < |runtimes|
      modifies this
      ensures status == old(status)
      ensures runtimes == if w == Refused then old(runtimes) else old(runtimes)[i := rt]
      ensures trace == if w == Refused then old(trace) else old(trace) + [Now()]
      ensures ok <==> w == Accepted
    {
      if Lands(w) {
        runtimes := runtimes[i := rt];
        trace := trace + [Now()];
      }
      ok := w == Accepted;
    }

    method UpdateStatus(s: Status, w: Write) returns (ok: bool)
      modifies this
      ensures runtimes == old(runtimes)
      ensures status == if w == Refused then old(status) else s
      ensures trace == if w == Refused then old(trace) else old(trace) + [Now()]
      ensures ok <==> w == Accepted
    {
      if Lands(w) {
        status := s;
        trace := trace + [Now()];
      }
      ok := w == Accepted;
    }

    method PropagateHash(mc: ModelConfig, hash: string, a: Attempt) returns (ok: bool, ghost stop: nat)
      modifies this
      ensures status == old(status)
      ensures ok <==> a.listed && stop == |old(runtimes)|
      ensures if a.listed then PropagatedTo(old(runtimes), runtimes, mc, hash, a.update, stop)
              else runtimes == old(runtimes)
      ensures old(trace) <= trace && Traced(old(Now()), trace, |old(trace)|, Now(), mc, hash)
    {
      stop := 0;
      if !a.listed {
        return false, stop;
      }
      var items := runtimes;
      for i := 0 to |items|
        invariant stop == i && status == old(status)
        invariant DoneUpTo(items, runtimes, mc, hash, a.update, i)
        invariant forall k :: i <= k < |items| ==> runtimes[k] == items[k]
        invariant old(trace) <= trace && Traced(old(Now()), trace, |old(trace)|, Now(), mc, hash)
      {
        var rt := items[i];
        if ReferencesModelConfig(rt, mc) && HashOn(rt) != hash {
          UpdateRotates(items, runtimes, status, mc, hash, a.update, i);
          TraceGrows(old(Now()), trace, |old(trace)|, Now(), State(runtimes[i := Annotated(rt, hash)], status), mc, hash);
          var updated := UpdateRuntime(i, Annotated(rt, hash), a.update(i));
          if !updated {
            return false, stop;
          }
        }
        stop := stop + 1;
      }
      ok := true;
    }

    method Reconcile(mc: ModelConfig, a: Attempt) returns (r: Result)
      modifies this
      ensures Attempted(old(Now()), Now(), mc, a, r)
      ensures old(trace) <= trace
      ensures ResolvedHash(mc, a).Some? ==> Traced(old(Now()), trace, |old(trace)|, Now(), mc, ResolvedHash(mc, a).value)
    {
      if a.fetch.NotFound? {
        return Done;
      } else if a.fetch.FetchError? {
        return Failed;
      }
      var resolved := ResolvedHash(mc, a);
      if resolved.None? {
        var updated := UpdateStatus(Degraded(status, mc), a.persist);
        return if updated then RequeueAfter30s else Failed;
      }
      var hash := resolved.value;
      if hash != status.secretHash {
        var ok, stop := PropagateHash(mc, hash, a);
        if !ok {
          return Failed;
        }
      }
      var updated := UpdateStatus(Resolved(mc, hash), a.persist);
      r := if updated then Done else Failed;
    }
  }

  // ---------------------------------------------------------- whole runs

  /** Any number of calls, one after another, with nobody else writing. */
  ghost predicate IsRun(states: seq<State>, mc: ModelConfig, attempts: seq<Attempt>, results: seq<Result>) {
    && |states| == |attempts| + 1 && |results| == |attempts|
    && forall n :: 0 <= n < |attempts| ==> Attempted(states[n], states[n + 1], mc, attempts[n], results[n])
  }

  /** The secret is the same whenever it can be read. */
  ghost predicate FixedSecret(mc: ModelConfig, attempts: seq<Attempt>, hash: string) {
    forall n :: 0 <= n < |attempts| ==>
      ResolvedHash(mc, attempts[n]).None? || ResolvedHash(mc, attempts[n]) == Some(hash)
  }

  lemma AttemptRotates(before: State, after: State, mc: ModelConfig, a: Attempt, r: Result, hash: string)
    requires Attempted(before, after, mc, a, r)
    requires ResolvedHash(mc, a).None? || ResolvedHash(mc, a) == Some(hash)
    ensures Rotating(before, after, mc, hash)
  {
  }

  lemma RotatingComposes(first: State, mid: State, last: State, mc: ModelConfig, hash: string)
    requires Rotating(first, mid, mc, hash) && Rotating(mid, last, mc, hash)
    ensures Rotating(first, last, mc, hash)
  {
  }

  /** In every run, at every moment: no runtime has changed but to carry the new
      hash, none that does not refer to the config has changed at all, and the
      persisted hash is the old one until all that do are up to date. */
  lemma {:induction false} RunRotates(states: seq<State>, mc: ModelConfig, attempts: seq<Attempt>,
                                      results: seq<Result>, hash: string)
    requires IsRun(states, mc, attempts, results) && FixedSecret(mc, attempts, hash)
    ensures Rotating(states[0], states[|attempts|], mc, hash)
  {
    if attempts != [] {
      var n := |attempts| - 1;
      RunRotates(states[..n + 1], mc, attempts[..n], results[..n], hash);
      AttemptRotates(states[n], states[n + 1], mc, attempts[n], results[n], hash);
      RotatingComposes(states[0], states[n], states[n + 1], mc, hash);
    }
  }

  /** However many attempts fail, the persisted hash stays as it was, unless a
      status write took effect although an error came back. */
  lemma {:induction false} FailuresKeepHash(states: seq<State>, mc: ModelConfig, attempts: seq<Attempt>, results: seq<Result>)
    requires IsRun(states, mc, attempts, results)
    requires forall n :: 0 <= n < |attempts| ==> results[n] != Done && attempts[n].persist != Lost
    ensures states[|attempts|].status.secretHash == states[0].status.secretHash
  {
    if attempts != [] {
      var n := |attempts| - 1;
      FailuresKeepHash(states[..n + 1], mc, attempts[..n], results[..n]);
      assert Attempted(states[n], states[n + 1], mc, attempts[n], results[n]);
    }
  }

  /** After a change of the secret, the first call that reports success leaves
      the new hash persisted and on every runtime that refers to the config. */
  lemma SuccessRotatesAll(states: seq<State>, mc: ModelConfig, attempts: seq<Attempt>, results: seq<Result>, hash: string)
    requires IsRun(states, mc, attempts, results) && FixedSecret(mc, attempts, hash) && attempts != []
    requires hash != states[0].status.secretHash
    requires attempts[|attempts| - 1].fetch.Found? && results[|results| - 1] == Done
    ensures states[|attempts|].status == Resolved(mc, hash)
    ensures forall i :: 0 <= i < |states[|attempts|].runtimes| && PointsTo(states[|attempts|].runtimes[i], mc) ==>
                          Carries(states[|attempts|].runtimes[i], hash)
  {
    var n := |attempts| - 1;
    assert Attempted(states[n], states[n + 1], mc, attempts[n], results[n]);
    RunRotates(states, mc, attempts, results, hash);
    var last := states[n + 1].runtimes;
    forall i | 0 <= i < |last| && PointsTo(last[i], mc)
      ensures Carries(last[i], hash)
    {
      NeedsUpdateIff(last[i], mc, hash);
    }
  }

  /** A call succeeds, given that the config and its secret can be read, exactly
      when every write it still has to make is accepted. */
  lemma SucceedsIff(before: State, after: State, mc: ModelConfig, a: Attempt, r: Result)
    requires Attempted(before, after, mc, a, r) && a.fetch.Found? && ResolvedHash(mc, a).Some?
    ensures var hash := ResolvedHash(mc, a).value;
            r == Done <==>
              && a.persist == Accepted
              && (hash != before.status.secretHash ==>
                    a.listed
                    && forall i: nat :: i < |before.runtimes| && NeedsUpdate(before.runtimes[i], mc, hash) ==> a.update(i) == Accepted)
  {
  }

  /** How a call ends: a config that is gone or cannot be read changes nothing;
      without a readable secret the config is degraded and neither its hash nor a
      runtime changes; success leaves it available with the secret's hash, or the
      empty one if it refers to no secret. */
  lemma StatusTellsOutcome(before: State, after: State, mc: ModelConfig, a: Attempt, r: Result)
    requires Attempted(before, after, mc, a, r)
    ensures a.fetch == NotFound ==> r == Done && after == before
    ensures a.fetch == FetchError ==> r == Failed && after == before
    ensures a.fetch == Found && mc.hasSecretRef && a.secret.None? ==>
              && r != Done && after.runtimes == before.runtimes
              && after.status.secretHash == before.status.secretHash
              && (r == RequeueAfter30s <==> a.persist == Accepted)
              && (r == RequeueAfter30s ==> after.status == Status(before.status.secretHash, mc.generation, Some(false), Some(true)))
    ensures a.fetch == Found && !(mc.hasSecretRef && a.secret.None?) ==> r != RequeueAfter30s
    ensures a.fetch == Found && r == Done ==>
              after.status == Status(if mc.hasSecretRef then a.secret.value else "", mc.generation, Some(true), Some(false))
  {
  }

  /** The runtime refers to the config by name, in the namespace the reference
      gives or, if it gives none, in its own. */
  ghost predicate PointsTo(rt: Runtime, mc: ModelConfig) {
    && rt.ref.Some? && rt.ref.value.name == mc.name
    && (|| (rt.ref.value.namespace != "" && rt.ref.value.namespace == mc.namespace)
        || (rt.ref.value.namespace == "" && rt.namespace == mc.namespace))
  }

  /** The runtime carries the hash; none at all is as good as the empty one. */
  ghost predicate Carries(rt: Runtime, hash: string) {
    rt.annotation == Some(hash) || (rt.annotation.None? && hash == "")
  }

  lemma NeedsUpdateIff(rt: Runtime, mc: ModelConfig, hash: string)
    ensures NeedsUpdate(rt, mc, hash) <==> PointsTo(rt, mc) && !Carries(rt, hash)
    ensures rt.(annotation := Some(hash)) == rt ==> Carries(rt, hash)
  {
  }

  /** No call, however it ends, changes a runtime but to give one that points to
      the config the hash of its secret. */
  lemma ChangesOnlyPointing(before: State, after: State, mc: ModelConfig, a: Attempt, r: Result, i: nat)
    requires Attempted(before, after, mc, a, r) && i < |before.runtimes|
    ensures |after.runtimes| == |before.runtimes|
    ensures after.runtimes[i] != before.runtimes[i] ==>
              && PointsTo(before.runtimes[i], mc)
              && after.runtimes[i] == before.runtimes[i].(annotation := Some(if mc.hasSecretRef then a.secret.value else ""))
  {
  }

  /** A call that rotates and ends well changes a runtime exactly when it points
      to the config and carries another hash. */
  lemma RotatedIff(before: State, after: State, mc: ModelConfig, a: Attempt, hash: string, i: nat)
    requires Attempted(before, after, mc, a, Done) && a.fetch == Found && i < |before.runtimes|
    requires if mc.hasSecretRef then a.secret == Some(hash) else hash == ""
    requires hash != before.status.secretHash
    ensures |after.runtimes| == |before.runtimes|
    ensures after.runtimes[i] != before.runtimes[i] <==> PointsTo(before.runtimes[i], mc) && !Carries(before.runtimes[i], hash)
    ensures after.runtimes[i] != before.runtimes[i] ==>
              after.runtimes[i] == before.runtimes[i].(annotation := Some(hash))
    ensures PointsTo(before.runtimes[i], mc) ==> Carries(after.runtimes[i], hash)
  {
    var rt := before.runtimes[i];
    NeedsUpdateIff(rt, mc, hash);
    assert after.runtimes[i] == if NeedsUpdate(rt, mc, hash) then Annotated(rt, hash) else rt;
  }

  /** So a runtime outside the config's namespace is rotated exactly when it
      carries another hash and its reference names that namespace explicitly. */
  lemma OutsideRotatedIff(before: State, after: State, mc: ModelConfig, a: Attempt, hash: string, i: nat)
    requires Attempted(before, after, mc, a, Done) && a.fetch == Found && i < |before.runtimes|
    requires if mc.hasSecretRef then a.secret == Some(hash) else hash == ""
    requires hash != before.status.secretHash && before.runtimes[i].namespace != mc.namespace
    ensures |after.runtimes| == |before.runtimes|
    ensures after.runtimes[i] != before.runtimes[i]
            <==> !Carries(before.runtimes[i], hash)
                 && before.runtimes[i].ref == Some(Ref(mc.name, mc.namespace)) && mc.namespace != ""
  {
    RotatedIff(before, after, mc, a, hash, i);
    if PointsTo(before.runtimes[i], mc) {
      assert before.runtimes[i].ref.value == Ref(mc.name, mc.namespace);
    }
  }

  /** Such a runtime: in another namespace, referring to the config in "home". */
  lemma OutsideMayBeRotated()
    ensures var rt := Runtime("away", "agent", Some(Ref("model", "home")), None);
            rt.namespace != "home" && NeedsUpdate(rt, ModelConfig("home", "model", 1, true), "hash")
  {
  }
}

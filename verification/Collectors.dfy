/** The result collector (internal/orchestrator/collector.go): a table of
    results, lists of waiting channels, and one-slot channels.

    The class holds the sections that run under the mutex. The step machine
    interleaves them with callers that wait, give up and clean up, and with
    status handlers that check and store in two separate locked sections.
 */
module Collectors {
  import opened Options

  /** The part of an A2A task message that the collector looks at. */
  datatype Task = Task(id: string, state: string)

  /** A result without a task is partial: it comes from a status message. */
  datatype TaskResult = TaskResult(taskID: string, status: string, task: Option<Task>)

  /** Every WaitFor call makes one channel, so calls name their channels. */
  type Call = nat

  /** What the mutex protects, and the contents of the channels. */
  datatype Shared = Shared(
    results: map<string, TaskResult>,
    waiters: map<string, seq<Call>>,
    buffers: map<Call, seq<TaskResult>>)

  function WaitersOf(s: Shared, t: string): seq<Call> {
    if t in s.waiters then s.waiters[t] else []
  }

  predicate IsTerminal(state: string) {
    state in {"completed", "failed", "canceled", "rejected"}
  }

  // -------------------------------------------------- the locked sections

  /** Store unless a full result is there; send to every waiting channel with a
      free slot; forget the waiters. */
  function Store(s: Shared, t: string, tr: TaskResult): Shared {
    Shared(
      if t !in s.results || s.results[t].task.None? then s.results[t := tr] else s.results,
      s.waiters - {t},
      Sent(s.buffers, WaitersOf(s, t), tr))
  }

  function Sent(b: map<Call, seq<TaskResult>>, chs: seq<Call>, tr: TaskResult): map<Call, seq<TaskResult>> {
    map c | c in b :: if c in chs && b[c] == [] then [tr] else b[c]
  }

  function Register(s: Shared, t: string, c: Call): Shared {
    s.(waiters := s.waiters[t := WaitersOf(s, t) + [c]], buffers := s.buffers[c := []])
  }

  function Unregister(s: Shared, t: string, c: Call): Shared {
    var rest := Without(WaitersOf(s, t), c);
    s.(waiters := if rest == [] then s.waiters - {t} else s.waiters[t := rest])
  }

  function Without(chs: seq<Call>, c: Call): (r: seq<Call>)
    ensures forall x :: x in r <==> x in chs && x != c
  {
    if chs == [] then [] else
      var rest := Without(chs[1..], c);
      if chs[0] == c then rest else [chs[0]] + rest
  }

  class ResultCollector {
    var results: map<string, TaskResult>
    var waiters: map<string, seq<Call>>
    var buffers: map<Call, seq<TaskResult>>

    constructor ()
      ensures State() == Shared(map[], map[], map[])
    {
      results, waiters, buffers := map[], map[], map[];
    }

    function State(): Shared
      reads this
    {
      Shared(results, waiters, buffers)
    }

    /** The first locked section of WaitFor: the fast path, or a new channel. */
    method WaitOrRegister(t: string, c: Call) returns (r: Option<TaskResult>)
      requires c !in buffers
      modifies this
      ensures t in old(results) ==> r == Some(old(results)[t]) && State() == old(State())
      ensures t !in old(results) ==> r == None && State() == Register(old(State()), t, c)
      ensures t !in old(results) ==>
                && waiters == old(waiters)[t := (if t in old(waiters) then old(waiters)[t] else []) + [c]]
                && buffers == old(buffers)[c := []] && results == old(results)
    {
      if t in results {
        return Some(results[t]);
      }
      buffers := buffers[c := []];
      waiters := waiters[t := (if t in waiters then waiters[t] else []) + [c]];
      r := None;
    }

    /** The clean-up of a cancelled wait. */
    method RemoveWaiter(t: string, c: Call)
      modifies this`waiters
      ensures State() == Unregister(old(State()), t, c)
    {
      var chs := if t in waiters then waiters[t] else [];
      var updated: seq<Call> := [];
      for i := 0 to |chs|
        invariant updated + Without(chs[i..], c) == Without(chs, c)
      {
        if chs[i] != c {
          updated := updated + [chs[i]];
        }
      }
      assert updated == Without(chs, c);
      if |updated| == 0 {
        waiters := waiters - {t};
      } else {
        waiters := waiters[t := updated];
      }
    }

    method StoreAndNotify(t: string, tr: TaskResult)
      requires forall c :: c in WaitersOf(State(), t) ==> c in buffers
      modifies this
      ensures State() == Store(old(State()), t, tr)
    {
      if t !in results || results[t].task.None? {
        results := results[t := tr];
      }
      Notify(if t in waiters then waiters[t] else [], tr);
      waiters := waiters - {t};
    }

    /** Sends to each channel that has room; a full channel drops the value. */
    method Notify(chs: seq<Call>, tr: TaskResult)
      requires forall c :: c in chs ==> c in buffers
      modifies this`buffers
      ensures buffers == Sent(old(buffers), chs, tr)
    {
      for i := 0 to |chs|
        invariant buffers.Keys == old(buffers).Keys
        invariant forall c :: c in buffers ==>
                                buffers[c] == if c in chs[..i] && old(buffers)[c] == [] then [tr] else old(buffers)[c]
      {
        assert chs[..i + 1] == chs[..i] + [chs[i]];
        if buffers[chs[i]] == [] {
          buffers := buffers[chs[i] := [tr]];
        }
      }
      assert chs[..|chs|] == chs;
    }
  }
}

/** Reply routing over all interleavings of callers, cancellations, server
    messages and connection close (sections 4 and 5 of the JSON-RPC 2.0
    specification: a response carries the ID of its request).
 */
module AcpReplies {
  import opened Options
  import opened AcpClients

  /** One reply channel: at most one message was ever sent, the caller's own
      response or the closed-connection error; a waiting caller still has it;
      an entry stays pending after a send only once the reader is closing; and
      a waiting caller that lost its entry has a message; and while the reader
      reads, an entry belongs to a waiting caller. */
  ghost predicate ChannelOk(r: Replies, id: int)
    requires id in r.buf && id in r.sent
  {
    && |r.sent[id]| <= 1
    && (r.sent[id] != [] ==> r.sent[id][0].id == Some(id) || r.sent[id][0] == CLOSED)
    && (r.buf[id] == r.sent[id] || (r.buf[id] == [] && id !in r.waiting))
    && (id in r.keys && r.sent[id] != [] ==> r.reader.Stopped? || (r.reader.Closing? && id in r.reader.visited))
    && (id in r.waiting && id !in r.keys ==> r.sent[id] != [])
    && (r.reader.Reading? && id in r.keys ==> id in r.waiting)
    && (r.reader.Closing? && id in r.reader.visited ==> r.sent[id] != [])
    && (r.reader.Stopped? && id in r.reader.start && id in r.keys ==> r.sent[id] != [])
  }

  ghost predicate Inv(r: Replies) {
    && r.buf.Keys == r.sent.Keys
    && r.keys <= r.buf.Keys && r.waiting <= r.buf.Keys
    && (r.reader.Closing? ==> r.reader.start <= r.buf.Keys && r.reader.visited <= r.buf.Keys)
    && (r.reader.Stopped? ==> r.reader.start <= r.buf.Keys)
    && (forall id :: id in r.buf ==> 1 <= id <= r.nextID && ChannelOk(r, id))
    && r.nextID >= 0
  }

  lemma OpenKeepsInv(r: Replies)
    requires Inv(r)
    ensures Inv(Open(r)) && r.nextID + 1 !in r.buf
  {
  }

  /** A send to a pending entry that got nothing yet. */
  lemma DeliverKeepsInv(r: Replies, id: int, m: Msg, r': Replies)
    requires Inv(r) && id in r.keys && r.sent[id] == [] && (m.id == Some(id) || m == CLOSED)
    requires
      || (r' == Deliver(r.(keys := r.keys - {id}), id, m) && r.reader.Reading?)
      || (r.reader.Closing? && r' == Deliver(r, id, m).(reader := Closing(r.reader.start, r.reader.visited + {id})))
    ensures Inv(r')
  {
    assert ChannelOk(r, id);
    forall j | j in r'.buf
      ensures ChannelOk(r', j)
    {
      assert ChannelOk(r, j);
    }
  }

  /** The caller leaves, with or without its message. */
  lemma LeaveKeepsInv(r: Replies, id: int, r': Replies)
    requires Inv(r) && id in r.waiting
    requires r'.nextID == r.nextID && r'.sent == r.sent && r'.reader == r.reader && r'.waiting == r.waiting - {id}
    requires (r'.keys == r.keys && r.sent[id] != []) || r'.keys == r.keys - {id}
    requires r'.buf == r.buf || r'.buf == r.buf[id := []]
    ensures Inv(r')
  {
  }

  lemma ReaderKeepsInv(r: Replies, reader: Reader)
    requires Inv(r)
    requires
      || (r.reader.Reading? && reader == Closing(r.keys, {}))
      || (r.reader.Reading? && reader == Stopped({}))
      || (r.reader.Closing? && r.reader.start * r.keys <= r.reader.visited && reader == Stopped(r.reader.start))
    ensures Inv(r.(reader := reader))
  {
  }

  /** The prompts that wait for their reply are those still collecting. */
  ghost predicate Linked(c: Client) {
    forall id :: id in c.streams.prompts ==>
                   id in c.replies.buf && (c.streams.prompts[id].stage.Collecting? <==> id in c.replies.waiting)
  }

  lemma StepKeepsInv(c: Client, step: Step)
    requires Inv(c.replies) && Linked(c) && Enabled(c, step)
    ensures Inv(Apply(c, step).replies)
  {
    var r, r' := c.replies, Apply(c, step).replies;
    match step
    case StartCall => OpenKeepsInv(r);
    case BeginPrompt(_) => OpenKeepsInv(r);
    case EndCall(id) =>
      assert ChannelOk(r, id);
      LeaveKeepsInv(r, id, r');
    case PromptReply(id) =>
      assert ChannelOk(r, id);
      LeaveKeepsInv(r, id, r');
    case AbortCall(id) => LeaveKeepsInv(r, id, r');
    case AbortPrompt(id) => LeaveKeepsInv(r, id, r');
    case Dispatch(m) =>
      if r' != r {
        assert ChannelOk(r, m.id.value);
        DeliverKeepsInv(r, m.id.value, m, r');
      }
    case VisitClosed(id) =>
      assert ChannelOk(r, id);
      DeliverKeepsInv(r, id, CLOSED, r');
    case BeginClose => ReaderKeepsInv(r, r'.reader);
    case EndClose => ReaderKeepsInv(r, r'.reader);
    case StopReader => ReaderKeepsInv(r, r'.reader);
    case CollectDelta(_) =>
    case FinishPrompt(_) =>
  }

  lemma StepKeepsLinked(c: Client, step: Step)
    requires Inv(c.replies) && Linked(c) && Enabled(c, step)
    ensures Linked(Apply(c, step))
  {
  }

  lemma {:induction false} RunKeepsInv(states: seq<Client>, steps: seq<Step>, k: nat)
    requires IsRun(states, steps) && k < |states|
    ensures Inv(states[k].replies) && Linked(states[k])
  {
    if k > 0 {
      RunKeepsInv(states, steps, k - 1);
      StepKeepsInv(states[k - 1], steps[k - 1]);
      StepKeepsLinked(states[k - 1], steps[k - 1]);
    }
  }

  // ---------------------------------------------------------------- the theorems

  /** Every reply channel gets at most one message in its life, carrying the
      caller's own ID or the closed-connection error, and a caller still
      waiting has not lost it. */
  lemma RepliesAreRouted(states: seq<Client>, steps: seq<Step>, k: nat, id: int)
    requires IsRun(states, steps) && k < |states| && id in states[k].replies.sent
    ensures var r := states[k].replies;
            && |r.sent[id]| <= 1
            && (forall m :: m in r.sent[id] ==> m.id == Some(id) || m == CLOSED)
            && (id in r.waiting ==> Held(r.buf, id) == r.sent[id])
  {
    RunKeepsInv(states, steps, k);
    assert ChannelOk(states[k].replies, id);
  }

  /** No entry is left behind: while the connection is open, the pending entries
      are exactly those of the callers still waiting for their message. */
  lemma PendingIsWaiting(states: seq<Client>, steps: seq<Step>, k: nat, id: int)
    requires IsRun(states, steps) && k < |states| && states[k].replies.reader.Reading?
    ensures id in states[k].replies.keys
            <==> id in states[k].replies.waiting && Held(states[k].replies.sent, id) == []
  {
    RunKeepsInv(states, steps, k);
    if id in states[k].replies.sent {
      assert ChannelOk(states[k].replies, id);
    }
  }

  /** The reader never blocks: whenever it sends, the channel's slot is free. */
  lemma ReaderNeverBlocks(states: seq<Client>, steps: seq<Step>, k: nat, step: Step, id: int)
    requires IsRun(states, steps) && k < |states| && Enabled(states[k], step) && SendsTo(states[k], step, id)
    ensures id in states[k].replies.buf && states[k].replies.buf[id] == []
  {
    RunKeepsInv(states, steps, k);
    assert ChannelOk(states[k].replies, id);
  }

  /** Nothing but this caller's entry is touched. */
  ghost predicate OthersAlone(r: Replies, r': Replies, id: int) {
    && r'.reader == r.reader
    && forall j :: j != id ==>
         && (j in r'.keys <==> j in r.keys) && (j in r'.waiting <==> j in r.waiting)
         && Held(r'.buf, j) == Held(r.buf, j) && Held(r'.sent, j) == Held(r.sent, j)
  }

  /** A response with a pending ID is delivered: its caller's channel has been
      sent and holds exactly it, the entry is taken, the caller can go on, and
      nobody else notices. A response with any other ID changes nothing. */
  lemma ResponseIsDelivered(states: seq<Client>, steps: seq<Step>, i: nat, m: Msg, id: int)
    requires IsRun(states, steps) && i < |steps| && steps[i] == Dispatch(m)
    requires m.verb == "" && m.id == Some(id)
    ensures var r, r' := states[i].replies, states[i + 1].replies;
            if id in r.keys then
              && Held(r'.sent, id) == [m] && Held(r'.buf, id) == [m] && id !in r'.keys && id in r'.waiting
              && (Enabled(states[i + 1], EndCall(id)) || Enabled(states[i + 1], PromptReply(id)))
              && OthersAlone(r, r', id)
            else r' == r
  {
    RunKeepsInv(states, steps, i);
    assert states[i + 1] == Apply(states[i], steps[i]);
    if id in states[i].replies.keys {
      assert ChannelOk(states[i].replies, id);
    }
  }

  /** A request from the server, whatever its ID, resolves no caller; neither
      does a notification, nor a message with neither ID nor method. */
  lemma ServerRequestResolvesNothing(c: Client, m: Msg)
    requires Enabled(c, Dispatch(m)) && (m.verb != "" || m.id.None?)
    ensures Apply(c, Dispatch(m)).replies == c.replies
  {
  }

  /** A new call or prompt gets an ID that no other ever had, a pending entry and
      an empty channel. */
  lemma CallOpensEntry(states: seq<Client>, steps: seq<Step>, i: nat)
    requires IsRun(states, steps) && i < |steps| && (steps[i].StartCall? || steps[i].BeginPrompt?)
    ensures var r, r' := states[i].replies, states[i + 1].replies;
            var id := r.nextID + 1;
            && id !in r.buf && id !in r.keys && id !in r.waiting && r'.nextID == id
            && id in r'.keys && id in r'.waiting && Held(r'.buf, id) == [] && Held(r'.sent, id) == []
            && OthersAlone(r, r', id)
  {
    RunKeepsInv(states, steps, i);
    OpenKeepsInv(states[i].replies);
    assert states[i + 1] == Apply(states[i], steps[i]);
  }

  /** A caller that leaves, answered or not, leaves no entry behind. */
  lemma LeavingClearsEntry(states: seq<Client>, steps: seq<Step>, i: nat, id: int)
    requires IsRun(states, steps) && i < |steps|
    requires steps[i] in {EndCall(id), AbortCall(id), AbortPrompt(id)}
    ensures var r, r' := states[i].replies, states[i + 1].replies;
            && id !in r'.keys && id !in r'.waiting && Held(r'.sent, id) == Held(r.sent, id)
            && OthersAlone(r, r', id)
  {
    assert states[i + 1] == Apply(states[i], steps[i]);
  }

  /** A waiting caller can always give up, and go on once it has a message; a
      prompt that has its reply can always go on. */
  lemma CallersCanMove(states: seq<Client>, steps: seq<Step>, k: nat, id: int)
    requires IsRun(states, steps) && k < |states|
    ensures var c := states[k];
            id in c.replies.waiting ==>
              && (Enabled(c, AbortCall(id)) || Enabled(c, AbortPrompt(id)))
              && (Held(c.replies.buf, id) != [] ==> Enabled(c, EndCall(id)) || Enabled(c, PromptReply(id)))
    ensures var c := states[k];
            id in c.streams.prompts && c.streams.prompts[id].stage.Draining? ==>
              Enabled(c, CollectDelta(id)) || Enabled(c, FinishPrompt(id))
    ensures states[k].replies.reader.Reading? ==> forall m :: Enabled(states[k], Dispatch(m))
  {
    RunKeepsInv(states, steps, k);
  }

  /** When the reader ends on a closed connection, every caller that was
      registered when it began to fail them has a message to read. */
  lemma CloseWakesAll(states: seq<Client>, steps: seq<Step>, k: nat, id: int)
    requires IsRun(states, steps) && k < |states|
    requires states[k].replies.reader.Stopped? && id in states[k].replies.reader.start
    requires id in states[k].replies.waiting
    ensures Held(states[k].replies.buf, id) != []
  {
    RunKeepsInv(states, steps, k);
    assert ChannelOk(states[k].replies, id);
  }

  /** The reader may find the connection closed or be stopped at any time; then it
      visits every pending entry once and ends. */
  lemma ReaderCanEnd(c: Client, id: int)
    ensures c.replies.reader.Reading? ==> Enabled(c, BeginClose) && Enabled(c, StopReader)
    ensures c.replies.reader.Closing? && id in c.replies.keys && id !in c.replies.reader.visited ==> Enabled(c, VisitClosed(id))
    ensures c.replies.reader.Closing? && c.replies.keys <= c.replies.reader.visited ==>
              Enabled(c, EndClose) && Apply(c, EndClose).replies.reader.Stopped?
    ensures Enabled(c, StartCall) && forall session :: Enabled(c, BeginPrompt(session))
  {
  }

  /** The broadcast starts from the entries pending when the connection closed,
      and from then on nothing but the closed-connection error is sent. */
  lemma {:induction false} ClosingOnlyFails(states: seq<Client>, steps: seq<Step>, i: nat, k: nat, id: int)
    requires IsRun(states, steps) && i < |steps| && steps[i] == BeginClose && i < k < |states|
    requires Held(states[i].replies.sent, id) == []
    ensures !states[k].replies.reader.Reading? && states[k].replies.reader.start == states[i].replies.keys
    ensures Held(states[k].replies.sent, id) in {[], [CLOSED]}
    decreases k
  {
    assert states[k] == Apply(states[k - 1], steps[k - 1]);
    RunKeepsInv(states, steps, k - 1);
    if i < k - 1 {
      ClosingOnlyFails(states, steps, i, k - 1, id);
      if steps[k - 1] == VisitClosed(id) {
        assert ChannelOk(states[k - 1].replies, id);
        assert states[k - 1].replies.sent[id] == [];
        assert states[k].replies.sent[id] == [CLOSED];
      }
    }
  }

  /** When the connection closes, every caller then pending that still waits when
      the reader ends holds exactly the closed-connection error. */
  lemma CloseFailsPending(states: seq<Client>, steps: seq<Step>, i: nat, k: nat, id: int)
    requires IsRun(states, steps) && i < |steps| && steps[i] == BeginClose && i < k < |states|
    requires id in states[i].replies.keys && id in states[k].replies.waiting && states[k].replies.reader.Stopped?
    ensures exists m :: Held(states[k].replies.buf, id) == [m] && m.error == Some(-32000) && m.id.None?
  {
    RunKeepsInv(states, steps, k);
    PendingIsWaiting(states, steps, i, id);
    ClosingOnlyFails(states, steps, i, k, id);
    CloseWakesAll(states, steps, k, id);
    RepliesAreRouted(states, steps, k, id);
    assert Held(states[k].replies.buf, id) == [CLOSED];
  }

  /** After the reader has ended nobody is answered any more: a caller without
      a message then, or one that registers later, never gets one. */
  lemma {:induction false} SilenceAfterStop(states: seq<Client>, steps: seq<Step>, i: nat, j: nat, id: int)
    requires IsRun(states, steps) && i <= j < |states| && states[i].replies.reader.Stopped?
    ensures states[j].replies.reader == states[i].replies.reader
    ensures Held(states[j].replies.sent, id) == Held(states[i].replies.sent, id)
    decreases j
  {
    if i < j {
      SilenceAfterStop(states, steps, i, j - 1, id);
      RunKeepsInv(states, steps, j - 1);
      assert states[j] == Apply(states[j - 1], steps[j - 1]);
    }
  }

  /** When the reader stops without failing anyone, the callers that then wait
      and are never answered are exactly those pending at that moment. */
  lemma StrandedExactly(states: seq<Client>, steps: seq<Step>, i: nat, j: nat, id: int)
    requires IsRun(states, steps) && i < |steps| && i < j < |states| && steps[i] == StopReader
    requires id in states[i].replies.waiting
    ensures Held(states[j].replies.sent, id) == [] <==> id in states[i].replies.keys
  {
    assert states[i + 1] == Apply(states[i], steps[i]);
    PendingIsWaiting(states, steps, i, id);
    SilenceAfterStop(states, steps, i + 1, j, id);
  }

  /** Closing the client may end the reader without failing the callers, and
      then one that waits is left to its own context. */
  lemma StopMayStrandCaller() returns (states: seq<Client>, steps: seq<Step>)
    ensures IsRun(states, steps) && |states| == 3
    ensures states[2].replies.reader.Stopped? && 1 in states[2].replies.waiting && Held(states[2].replies.sent, 1) == []
  {
    var c1 := Apply(INIT, StartCall);
    states, steps := [INIT, c1, Apply(c1, StopReader)], [StartCall, StopReader];
  }
}

/** Streaming: what a prompt returns when it falls back on the chunks that were
    streamed to it (internal/acp/client.go, Prompt and handleNotification).
 */
module AcpStreams {
  import opened Options
  import opened AcpClients
  import AcpReplies

  /** a can be got from b by leaving elements out. */
  ghost predicate Subsequence(a: seq<string>, b: seq<string>)
    decreases |b|
  {
    || a == []
    || (b != [] && (Subsequence(a, b[..|b| - 1])
                    || (a[|a| - 1] == b[|b| - 1] && Subsequence(a[..|a| - 1], b[..|b| - 1]))))
  }

  lemma SubsequenceGrows(a: seq<string>, b: seq<string>, x: seq<string>)
    requires Subsequence(a, b) && |x| <= 1
    ensures Subsequence(a, b + x) && Subsequence(a + x, b + x)
  {
    if x == [] {
      assert a + x == a && b + x == b;
    } else {
      assert (b + x)[..|b + x| - 1] == b && (a + x)[..|a + x| - 1] == a;
    }
  }

  /** More on the wire does not change what came before. */
  lemma {:induction false} ChunksStay(wire: seq<Msg>, m: Msg, from: nat, to: nat, session: string)
    requires from <= to <= |wire|
    ensures Chunks(wire + [m], from, to, session) == Chunks(wire, from, to, session)
  {
    if from < to {
      ChunksStay(wire, m, from, to - 1, session);
    }
  }

  /** A later stretch of the wire only appends chunks. */
  lemma {:induction false} ChunksPrefix(wire: seq<Msg>, from: nat, a: nat, b: nat, session: string)
    requires from <= a <= b <= |wire|
    ensures Chunks(wire, from, a, session) <= Chunks(wire, from, b, session)
    decreases b
  {
    if a < b {
      ChunksPrefix(wire, from, a, b - 1, session);
    }
  }

  // -------------------------------------------------------------- the invariant

  /** Alone on its session and never dropped from: nothing can be missing. */
  ghost predicate Undisturbed(s: Streams, id: int) {
    id !in s.crowded && id !in s.overflowed
  }

  /** What a prompt has taken and what its channel holds, against the chunks of
      its session that came over the wire since it registered. */
  ghost predicate Fits(wire: seq<Msg>, p: Prompt, held: seq<string>, undisturbed: bool) {
    && p.start <= |wire|
    && match p.stage {
         case Aborted => true
         case Done(at, text) =>
           && p.start <= at <= |wire|
           && Subsequence(p.deltas, Chunks(wire, p.start, at, p.session))
           && (undisturbed ==> p.deltas == Chunks(wire, p.start, at, p.session))
         case _ =>
           && Subsequence(p.deltas + held, Chunks(wire, p.start, |wire|, p.session))
           && (undisturbed ==> p.deltas + held == Chunks(wire, p.start, |wire|, p.session))
       }
  }

  ghost predicate PromptOk(c: Client, id: int)
    requires id in c.streams.prompts
  {
    Fits(c.wire, c.streams.prompts[id], Held(c.streams.buf, id), Undisturbed(c.streams, id))
  }

  /** The entry of a session belongs to an active prompt on it, and a prompt
      that never shared its session is the registered one and the only one. */
  ghost predicate KeysOk(s: Streams) {
    && (forall session :: session in s.keys ==>
                            Active(s, s.keys[session]) && s.prompts[s.keys[session]].session == session)
    && (forall id :: Active(s, id) && id !in s.crowded ==>
                       && s.prompts[id].session in s.keys && s.keys[s.prompts[id].session] == id
                       && OnSession(s, s.prompts[id].session) == {id})
  }

  ghost predicate Inv(c: Client) {
    && KeysOk(c.streams)
    && (forall id :: id in c.streams.prompts ==> PromptOk(c, id))
    && c.streams.crowded <= c.streams.prompts.Keys
    && c.streams.overflowed <= c.streams.prompts.Keys
  }

  lemma StartKeepsKeys(s: Streams, id: int, session: string, now: nat)
    requires KeysOk(s) && id !in s.prompts
    ensures KeysOk(StartPrompt(s, id, session, now))
  {
  }

  lemma BeginKeepsInv(c: Client, session: string)
    requires Inv(c) && AcpReplies.Inv(c.replies) && AcpReplies.Linked(c)
    ensures Inv(Apply(c, BeginPrompt(session)))
  {
    var id, c' := c.replies.nextID + 1, Apply(c, BeginPrompt(session));
    AcpReplies.OpenKeepsInv(c.replies);
    StartKeepsKeys(c.streams, id, session, |c.wire|);
    forall j | j in c'.streams.prompts
      ensures PromptOk(c', j)
    {
      if j != id {
        assert PromptOk(c, j) && Held(c'.streams.buf, j) == Held(c.streams.buf, j);
      }
    }
  }

  /** One message on the wire: the prompt that is registered for its session
      gets the chunk or is marked, and any other prompt on it was crowded. */
  lemma StreamEffect(s: Streams, m: Msg, id: int)
    requires KeysOk(s) && id in s.prompts
    ensures var x, s' := ChunkOf(m, s.prompts[id].session), Stream(s, SessionOf(m), ChunkOf(m, SessionOf(m)));
            || !Active(s, id)
            || Held(s'.buf, id) == Held(s.buf, id) + x
            || (Held(s'.buf, id) == Held(s.buf, id) && !Undisturbed(s', id))
    ensures var s' := Stream(s, SessionOf(m), ChunkOf(m, SessionOf(m)));
            s'.prompts == s.prompts && (Undisturbed(s', id) ==> Undisturbed(s, id))
  {
  }

  /** A chunk that reaches the channel keeps it in step with the wire; one that
      does not is merely left out. */
  lemma FitsGrows(wire: seq<Msg>, m: Msg, p: Prompt, held: seq<string>, held': seq<string>, undisturbed: bool)
    requires Fits(wire, p, held, undisturbed)
    requires held' == held + ChunkOf(m, p.session) || (held' == held && !undisturbed)
    ensures Fits(wire + [m], p, held', undisturbed)
  {
    if p.stage.Done? {
      ChunksStay(wire, m, p.start, p.stage.at, p.session);
    } else if !p.stage.Aborted? {
      OneMoreChunk(wire, m, p.start, p.session);
      TakenGrows(p.deltas, held, Chunks(wire, p.start, |wire|, p.session), ChunkOf(m, p.session));
    }
  }

  lemma OneMoreChunk(wire: seq<Msg>, m: Msg, from: nat, session: string)
    requires from <= |wire|
    ensures Chunks(wire + [m], from, |wire| + 1, session) == Chunks(wire, from, |wire|, session) + ChunkOf(m, session)
    ensures |ChunkOf(m, session)| <= 1
  {
    ChunksStay(wire, m, from, |wire|, session);
  }

  lemma TakenGrows(deltas: seq<string>, held: seq<string>, all: seq<string>, x: seq<string>)
    requires Subsequence(deltas + held, all) && |x| <= 1
    ensures Subsequence(deltas + held, all + x) && Subsequence(deltas + (held + x), all + x)
    ensures deltas + (held + x) == (deltas + held) + x
  {
    assert deltas + (held + x) == (deltas + held) + x;
    SubsequenceGrows(deltas + held, all, x);
  }

  lemma DispatchKeepsPrompt(c: Client, m: Msg, id: int)
    requires Inv(c) && Enabled(c, Dispatch(m)) && id in c.streams.prompts
    ensures PromptOk(Apply(c, Dispatch(m)), id)
  {
    var s, s' := c.streams, Apply(c, Dispatch(m)).streams;
    var p := s.prompts[id];
    assert PromptOk(c, id);
    StreamEffect(s, m, id);
    if Active(s, id) {
      FitsGrows(c.wire, m, p, Held(s.buf, id), Held(s'.buf, id), Undisturbed(s', id));
    } else {
      FitsGrows(c.wire, m, p, [], ChunkOf(m, p.session), Undisturbed(s', id));
    }
  }

  lemma DispatchKeepsInv(c: Client, m: Msg)
    requires Inv(c) && Enabled(c, Dispatch(m))
    ensures Inv(Apply(c, Dispatch(m)))
  {
    var c' := Apply(c, Dispatch(m));
    assert forall j :: Active(c'.streams, j) <==> Active(c.streams, j);
    forall t
      ensures OnSession(c'.streams, t) == OnSession(c.streams, t)
    {
    }
    forall j | j in c'.streams.prompts
      ensures PromptOk(c', j)
    {
      DispatchKeepsPrompt(c, m, j);
    }
  }

  lemma CollectKeepsInv(c: Client, id: int)
    requires Inv(c) && Enabled(c, CollectDelta(id))
    ensures Inv(Apply(c, CollectDelta(id)))
  {
    var c' := Apply(c, CollectDelta(id));
    var p, p' := c.streams.prompts[id], c'.streams.prompts[id];
    assert PromptOk(c, id);
    assert p'.deltas + Held(c'.streams.buf, id) == p.deltas + Held(c.streams.buf, id);
    SameActive(c.streams, c'.streams);
    forall j | j in c'.streams.prompts
      ensures PromptOk(c', j)
    {
      assert j != id ==> PromptOk(c, j) && c'.streams.prompts[j] == c.streams.prompts[j];
    }
  }

  /** KeysOk only looks at who is active on which session. */
  lemma SameActive(s: Streams, s': Streams)
    requires KeysOk(s) && s'.keys == s.keys && s'.crowded == s.crowded && s'.prompts.Keys == s.prompts.Keys
    requires forall j :: j in s.prompts ==>
                           s'.prompts[j].session == s.prompts[j].session && (Active(s', j) <==> Active(s, j))
    ensures KeysOk(s')
  {
  }

  lemma ReplyKeepsInv(c: Client, id: int)
    requires Inv(c) && Enabled(c, PromptReply(id))
    ensures Inv(Apply(c, PromptReply(id)))
  {
    var c' := Apply(c, PromptReply(id));
    assert PromptOk(c, id);
    SameActive(c.streams, c'.streams);
    forall j | j in c'.streams.prompts
      ensures PromptOk(c', j)
    {
      assert j != id ==> PromptOk(c, j) && c'.streams.prompts[j] == c.streams.prompts[j];
    }
  }

  lemma EndKeepsKeys(s: Streams, id: int, stage: Stage)
    requires KeysOk(s) && Active(s, id) && !stage.Collecting? && !stage.Draining?
    ensures KeysOk(EndPrompt(s, id, stage))
  {
    var s' := EndPrompt(s, id, stage);
    assert forall j :: j in s.prompts && j != id ==> s'.prompts[j] == s.prompts[j];
    forall t
      ensures OnSession(s', t) == OnSession(s, t) - {id}
    {
    }
    forall j | Active(s', j) && j !in s'.crowded
      ensures var t := s'.prompts[j].session;
              t in s'.keys && s'.keys[t] == j && OnSession(s', t) == {j}
    {
      assert Active(s, j) && OnSession(s, s.prompts[j].session) == {j};
      assert id in OnSession(s, s.prompts[id].session);
    }
  }

  lemma EndKeepsInv(c: Client, id: int, stage: Stage, c': Client)
    requires Inv(c) && Active(c.streams, id) && c'.wire == c.wire && c'.streams == EndPrompt(c.streams, id, stage)
    requires
      || stage == Aborted
      || (stage.Done? && stage.at == |c.wire| && Held(c.streams.buf, id) == [])
    ensures Inv(c')
  {
    var s, s' := c.streams, c'.streams;
    EndKeepsKeys(s, id, stage);
    assert PromptOk(c, id);
    assert s.prompts[id].deltas + [] == s.prompts[id].deltas;
    forall j | j in s'.prompts
      ensures PromptOk(c', j)
    {
      assert j != id ==> PromptOk(c, j) && s'.prompts[j] == s.prompts[j];
    }
  }

  lemma StepKeepsInv(c: Client, step: Step)
    requires Inv(c) && AcpReplies.Inv(c.replies) && AcpReplies.Linked(c) && Enabled(c, step)
    ensures Inv(Apply(c, step))
  {
    var c' := Apply(c, step);
    match step
    case BeginPrompt(session) => BeginKeepsInv(c, session);
    case CollectDelta(id) => CollectKeepsInv(c, id);
    case PromptReply(id) => ReplyKeepsInv(c, id);
    case FinishPrompt(id) => EndKeepsInv(c, id, c'.streams.prompts[id].stage, c');
    case AbortPrompt(id) => EndKeepsInv(c, id, Aborted, c');
    case Dispatch(m) => DispatchKeepsInv(c, m);
    case _ =>
      forall j | j in c'.streams.prompts
        ensures PromptOk(c', j)
      {
        assert PromptOk(c, j);
      }
  }

  lemma {:induction false} RunKeepsInv(states: seq<Client>, steps: seq<Step>, k: nat)
    requires IsRun(states, steps) && k < |states|
    ensures Inv(states[k])
  {
    if k > 0 {
      RunKeepsInv(states, steps, k - 1);
      AcpReplies.RunKeepsInv(states, steps, k - 1);
      StepKeepsInv(states[k - 1], steps[k - 1]);
    }
  }

  // ---------------------------------------------------------------- the theorems

  /** A finished prompt's reply was sent to it alone, and a response other than
      the closed-connection error lies on the wire between its registration and
      its end. */
  ghost predicate Answered(c: Client, id: int)
    requires id in c.streams.prompts
  {
    var p := c.streams.prompts[id];
    match p.stage
    case Draining(m) => Held(c.replies.sent, id) == [m]
    case Done(at, text) =>
      && |Held(c.replies.sent, id)| == 1
      && text == PromptText(c.replies.sent[id][0], p.deltas)
      && (c.replies.sent[id][0] != CLOSED ==> exists a :: OnWire(c, id, a) && a < at)
    case _ => true
  }

  /** The reply of prompt id is the message at wire position a. */
  ghost predicate OnWire(c: Client, id: int, a: int) {
    id in c.streams.prompts && c.streams.prompts[id].start <= a < |c.wire| && Held(c.replies.sent, id) == [c.wire[a]]
  }

  /** A prompt's reply, when it is a response, is on the wire. */
  ghost predicate Sourced(c: Client, id: int) {
    Held(c.replies.sent, id) != [] && c.replies.sent[id][0] != CLOSED ==> exists a :: OnWire(c, id, a)
  }

  ghost predicate AllAnswered(c: Client) {
    forall id :: id in c.streams.prompts ==> Answered(c, id) && Sourced(c, id)
  }

  lemma StepKeepsAnswered(c: Client, step: Step)
    requires Inv(c) && AllAnswered(c) && AcpReplies.Inv(c.replies) && AcpReplies.Linked(c) && Enabled(c, step)
    ensures AllAnswered(Apply(c, step))
  {
    var c' := Apply(c, step);
    forall id | id in c'.streams.prompts
      ensures Answered(c', id) && Sourced(c', id)
    {
      if id in c.streams.prompts {
        assert AcpReplies.ChannelOk(c.replies, id);
        StepKeepsAnswer(c, step, id);
      }
    }
  }

  lemma StepKeepsAnswer(c: Client, step: Step, id: int)
    requires Enabled(c, step) && id in c.streams.prompts && id in c.replies.buf && id in c.replies.sent
    requires AcpReplies.ChannelOk(c.replies, id) && Answered(c, id) && Sourced(c, id) && PromptOk(c, id)
    requires c.streams.prompts[id].stage.Collecting? ==> id in c.replies.waiting
    requires id <= c.replies.nextID
    ensures Answered(Apply(c, step), id) && Sourced(Apply(c, step), id)
  {
    if Held(Apply(c, step).replies.sent, id) == Held(c.replies.sent, id) {
      OnWireStays(c, Apply(c, step), id);
    } else {
      SendKeepsAnswer(c, step, id);
    }
  }

  /** A prompt that is only now sent its reply has not taken one before. */
  lemma SendKeepsAnswer(c: Client, step: Step, id: int)
    requires Enabled(c, step) && id in c.streams.prompts && id in c.replies.buf && id in c.replies.sent
    requires AcpReplies.ChannelOk(c.replies, id) && Answered(c, id) && PromptOk(c, id) && id <= c.replies.nextID
    requires Held(Apply(c, step).replies.sent, id) != Held(c.replies.sent, id)
    ensures Answered(Apply(c, step), id) && Sourced(Apply(c, step), id)
  {
    assert step.Dispatch? || step == VisitClosed(id);
    assert Apply(c, step).streams.prompts == c.streams.prompts && c.replies.sent[id] == [];
    assert step.Dispatch? ==> OnWire(Apply(c, step), id, |c.wire|);
  }

  lemma OnWireStays(c: Client, c': Client, id: int)
    requires id in c.streams.prompts && id in c'.streams.prompts
    requires c'.streams.prompts[id].start == c.streams.prompts[id].start
    requires c.wire <= c'.wire && Held(c'.replies.sent, id) == Held(c.replies.sent, id)
    ensures forall a :: OnWire(c, id, a) ==> OnWire(c', id, a)
  {
  }

  lemma {:induction false} RunKeepsAnswered(states: seq<Client>, steps: seq<Step>, k: nat)
    requires IsRun(states, steps) && k < |states|
    ensures AllAnswered(states[k])
  {
    if k > 0 {
      RunKeepsAnswered(states, steps, k - 1);
      RunKeepsInv(states, steps, k - 1);
      AcpReplies.RunKeepsInv(states, steps, k - 1);
      StepKeepsAnswered(states[k - 1], steps[k - 1]);
    }
  }

  /** With one prompt in flight on its session and a channel that never filled
      up, a prompt whose final result has no content of its own returns the
      wire-order concatenation of its session's message chunks from its
      registration to its end, so every chunk before the response is in it. An
      error reply is an error, content of the result's own comes first, and a
      result that does not decode is an error only without chunks. */
  lemma StreamedText(states: seq<Client>, steps: seq<Step>, k: nat, id: int)
    requires IsRun(states, steps) && k < |states|
    requires id in states[k].streams.prompts && states[k].streams.prompts[id].stage.Done?
    requires Undisturbed(states[k].streams, id)
    ensures var c, p := states[k], states[k].streams.prompts[id];
            && p.start <= p.stage.at <= |c.wire|
            && |Held(c.replies.sent, id)| == 1
            && (var m := c.replies.sent[id][0];
                var all := Chunks(c.wire, p.start, p.stage.at, p.session);
                && (m.error.None? && m.content == Some("") ==> p.stage.text == Some(Join(all)))
                && (m.error.None? && m.content.None? ==> p.stage.text == if all == [] then None else Some(Join(all)))
                && (m.error.None? && m.content.Some? && m.content.value != "" ==> p.stage.text == m.content)
                && (m.error.Some? ==> p.stage.text.None?)
                && (m != CLOSED ==>
                      exists a :: OnWire(c, id, a) && a < p.stage.at && Chunks(c.wire, p.start, a, p.session) <= all))
  {
    RunKeepsInv(states, steps, k);
    RunKeepsAnswered(states, steps, k);
    var c, p := states[k], states[k].streams.prompts[id];
    assert PromptOk(c, id) && Answered(c, id);
    var m := c.replies.sent[id][0];
    if m != CLOSED {
      var a :| OnWire(c, id, a) && a < p.stage.at;
      ChunksPrefix(c.wire, p.start, a, p.stage.at, p.session);
    }
  }

  ghost predicate OneAtATime(states: seq<Client>) {
    forall i, session :: 0 <= i < |states| ==> |OnSession(states[i].streams, session)| <= 1
  }

  ghost predicate NeverFull(states: seq<Client>) {
    forall i, id :: 0 <= i < |states| ==> |Held(states[i].streams.buf, id)| < CHUNK_LIMIT
  }

  /** With one prompt at a time per session no prompt is ever crowded, and with
      room in every channel none overflows. */
  lemma {:induction false} QuietRunsAreUndisturbed(states: seq<Client>, steps: seq<Step>, k: nat)
    requires IsRun(states, steps) && k < |states|
    ensures OneAtATime(states) ==> states[k].streams.crowded == {}
    ensures NeverFull(states) ==> states[k].streams.overflowed == {}
  {
    if k > 0 {
      QuietRunsAreUndisturbed(states, steps, k - 1);
      var c, step := states[k - 1], steps[k - 1];
      AcpReplies.RunKeepsInv(states, steps, k - 1);
      if Apply(c, step).streams.crowded != c.streams.crowded {
        TwoOnSession(c, step.session);
      }
      if Apply(c, step).streams.overflowed != c.streams.overflowed {
        OverflowNeedsFull(c, step);
      }
    }
  }

  lemma OverflowNeedsFull(c: Client, step: Step)
    requires Enabled(c, step) && Apply(c, step).streams.overflowed != c.streams.overflowed
    ensures exists id :: |Held(c.streams.buf, id)| >= CHUNK_LIMIT
  {
  }

  lemma TwoOnSession(c: Client, session: string)
    requires AcpReplies.Inv(c.replies) && AcpReplies.Linked(c) && OnSession(c.streams, session) != {}
    ensures |OnSession(Apply(c, BeginPrompt(session)).streams, session)| >= 2
  {
    var id, others := c.replies.nextID + 1, OnSession(c.streams, session);
    AcpReplies.OpenKeepsInv(c.replies);
    var s' := Apply(c, BeginPrompt(session)).streams;
    assert id !in others && forall j :: j in c.streams.prompts ==> s'.prompts[j] == c.streams.prompts[j];
    assert OnSession(s', session) == others + {id};
  }

  /** Whatever else happens, what a prompt collects is an in-order subsequence
      of its session's chunks: nothing foreign, nothing twice, no thoughts. */
  lemma CollectsInOrder(states: seq<Client>, steps: seq<Step>, k: nat, id: int)
    requires IsRun(states, steps) && k < |states|
    requires id in states[k].streams.prompts && states[k].streams.prompts[id].stage.Done?
    ensures var c, p := states[k], states[k].streams.prompts[id];
            && p.start <= p.stage.at <= |c.wire|
            && Subsequence(p.deltas, Chunks(c.wire, p.start, p.stage.at, p.session))
            && |Held(c.replies.sent, id)| == 1
            && (var m := c.replies.sent[id][0];
                && (m.error.Some? ==> p.stage.text.None?)
                && (m.error.None? && m.content.Some? && m.content.value != "" ==> p.stage.text == m.content)
                && (m.error.None? && m.content == Some("") ==> p.stage.text == Some(Join(p.deltas)))
                && (m.error.None? && m.content.None? ==>
                      p.stage.text == if p.deltas == [] then None else Some(Join(p.deltas))))
  {
    RunKeepsInv(states, steps, k);
    RunKeepsAnswered(states, steps, k);
    assert PromptOk(states[k], id) && Answered(states[k], id);
  }

  // ------------------------------------------------------- what streams what

  /** The text returned is the chunks one after the other. */
  lemma {:induction false} JoinConcatenates(a: seq<string>, b: seq<string>)
    ensures Join(a + b) == Join(a) + Join(b)
    ensures forall x :: Join([x]) == x
  {
    assert forall x: string :: [x][..0] == [];
    if b == [] {
      assert a + b == a;
    } else {
      var n := |b| - 1;
      JoinConcatenates(a, b[..n]);
      assert (a + b)[..|a + b| - 1] == a + b[..n];
    }
  }

  /** Only a message chunk with text streams: thoughts, tool calls, empty texts,
      other notifications, requests and responses leave every prompt alone. */
  lemma OnlyMessageChunksStream(c: Client, m: Msg)
    requires Enabled(c, Dispatch(m))
    requires m.id.Some? || m.verb != "session/update" || m.update.None?
             || m.update.value.kind != "agent_message_chunk" || m.update.value.text == ""
    ensures Apply(c, Dispatch(m)).streams == c.streams
  {
  }

  /** A message chunk goes to the end of the channel registered for its session,
      or is dropped when 256 wait there; no other channel sees it. */
  lemma ChunkIsStreamed(c: Client, session: string, text: string)
    requires text != "" && c.replies.reader.Reading?
    ensures var m := Msg(None, "session/update", Some(Update(session, "agent_message_chunk", text)), None, None);
            var s, s' := c.streams, Apply(c, Dispatch(m)).streams;
            && s'.prompts == s.prompts && s'.keys == s.keys && s'.crowded == s.crowded
            && (session !in s.keys ==> s' == s)
            && (session in s.keys ==>
                  var id := s.keys[session];
                  && (forall j :: j != id ==> Held(s'.buf, j) == Held(s.buf, j))
                  && if |Held(s.buf, id)| < 256 then Held(s'.buf, id) == Held(s.buf, id) + [text] && s'.overflowed == s.overflowed
                     else Held(s'.buf, id) == Held(s.buf, id) && s'.overflowed == s.overflowed + {id})
  {
  }

  /** A prompt registers for its session with an empty channel at the current end
      of the wire. */
  lemma PromptRegisters(states: seq<Client>, steps: seq<Step>, i: nat, session: string)
    requires IsRun(states, steps) && i < |steps| && steps[i] == BeginPrompt(session)
    ensures var s, id := states[i + 1].streams, states[i].replies.nextID + 1;
            && id !in states[i].streams.prompts && id in s.prompts
            && s.prompts[id] == Prompt(session, |states[i].wire|, [], Collecting)
            && session in s.keys && s.keys[session] == id && Held(s.buf, id) == []
  {
    AcpReplies.RunKeepsInv(states, steps, i);
    AcpReplies.OpenKeepsInv(states[i].replies);
    assert states[i + 1] == Apply(states[i], steps[i]);
  }

  /** It keeps its session and its start, and the wire only grows. */
  lemma {:induction false} PromptKeepsStart(states: seq<Client>, steps: seq<Step>, j: nat, k: nat, id: int)
    requires IsRun(states, steps) && j <= k < |states| && id in states[j].streams.prompts
    ensures id in states[k].streams.prompts
    ensures states[k].streams.prompts[id].session == states[j].streams.prompts[id].session
    ensures states[k].streams.prompts[id].start == states[j].streams.prompts[id].start
    ensures states[j].wire <= states[k].wire
    decreases k
  {
    if j < k {
      PromptKeepsStart(states, steps, j, k - 1, id);
      AcpReplies.RunKeepsInv(states, steps, k - 1);
      AcpReplies.OpenKeepsInv(states[k - 1].replies);
      assert states[k] == Apply(states[k - 1], steps[k - 1]);
    }
  }
}

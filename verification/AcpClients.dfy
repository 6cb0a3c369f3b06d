/** The ACP client (internal/acp/client.go): callers that share one connection,
    a table of pending entries, one reader, and prompts that collect streamed
    chunks. A step machine over all interleavings; the wire is the sequence of
    messages the reader has dispatched.
 */
module AcpClients {
  import opened Options

  /** The update carried by a session/update notification, when it decodes. */
  datatype Update = Update(session: string, kind: string, text: string)

  /** A JSON-RPC message from the agent; `verb` is its method and `content` the
      text of a decodable prompt result. */
  datatype Msg = Msg(
    id: Option<int>, verb: string, update: Option<Update>, error: Option<int>, content: Option<string>)

  const CLOSED := Msg(None, "", None, Some(-32000), None)

  predicate IsServerRequest(m: Msg) {
    m.verb != "" && m.id.Some?
  }

  predicate IsNotification(m: Msg) {
    m.id.None? && m.verb != ""
  }

  const CHUNK_LIMIT := 256

  /** The user-visible text a message streams into a session, if any. Thought
      chunks and tool calls stream nothing. */
  function ChunkOf(m: Msg, session: string): seq<string> {
    if IsNotification(m) && m.verb == "session/update" && m.update.Some?
       && m.update.value.session == session && m.update.value.kind == "agent_message_chunk" && m.update.value.text != ""
    then [m.update.value.text] else []
  }

  /** The chunks of a session between two wire positions, in wire order. */
  function Chunks(wire: seq<Msg>, from: nat, to: nat, session: string): seq<string>
    requires from <= to <= |wire|
  {
    if from == to then [] else Chunks(wire, from, to - 1, session) + ChunkOf(wire[to - 1], session)
  }

  /** What a channel holds; one that was never made holds nothing. */
  function Held<T>(chans: map<int, seq<T>>, id: int): seq<T> {
    if id in chans then chans[id] else []
  }

  // --------------------------------------------------------- replies to callers

  /** The reader, and the entries its closing broadcast started from. */
  datatype Reader = Reading | Closing(start: set<int>, visited: set<int>) | Stopped(start: set<int>)

  /** `keys` are the pending entries, `buf` the one-slot reply channels, `sent`
      everything ever sent on each, `waiting` the callers still in select. */
  datatype Replies = Replies(
    nextID: int, keys: set<int>, buf: map<int, seq<Msg>>, sent: map<int, seq<Msg>>, waiting: set<int>, reader: Reader)

  function Open(r: Replies): Replies {
    var id := r.nextID + 1;
    r.(nextID := id, keys := r.keys + {id}, buf := r.buf[id := []], sent := r.sent[id := []],
       waiting := r.waiting + {id})
  }

  function Deliver(r: Replies, id: int, m: Msg): Replies {
    r.(buf := r.buf[id := Held(r.buf, id) + [m]], sent := r.sent[id := Held(r.sent, id) + [m]])
  }

  /** What a dispatched message does to the pending replies: only a response
      whose ID is pending resolves anything. */
  function Route(r: Replies, m: Msg): Replies {
    if IsServerRequest(m) || IsNotification(m) || m.id.None? || m.id.value !in r.keys then r
    else Deliver(r.(keys := r.keys - {m.id.value}), m.id.value, m)
  }

  // ------------------------------------------------------------- prompt streams

  datatype Stage = Collecting | Draining(reply: Msg) | Done(at: nat, text: Option<string>) | Aborted

  /** A prompt: its session, the wire position where it registered, and the
      chunks it has taken from its channel so far. */
  datatype Prompt = Prompt(session: string, start: nat, deltas: seq<string>, stage: Stage)

  /** `keys` maps a session to the prompt whose channel is registered for it.
      `crowded` are prompts that overlapped another on their session,
      `overflowed` those whose full channel dropped a chunk. */
  datatype Streams = Streams(
    keys: map<string, int>, buf: map<int, seq<string>>, prompts: map<int, Prompt>, crowded: set<int>,
    overflowed: set<int>)

  predicate Active(s: Streams, id: int) {
    id in s.prompts && (s.prompts[id].stage.Collecting? || s.prompts[id].stage.Draining?)
  }

  /** The active prompts on a session. */
  function OnSession(s: Streams, session: string): set<int> {
    set id | id in s.prompts && Active(s, id) && s.prompts[id].session == session
  }

  function StartPrompt(s: Streams, id: int, session: string, now: nat): Streams {
    var others := OnSession(s, session);
    Streams(s.keys[session := id], s.buf[id := []], s.prompts[id := Prompt(session, now, [], Collecting)],
            s.crowded + (if others == {} then {} else others + {id}), s.overflowed)
  }

  /** Only the registered prompt gets a chunk, and only while it has room. */
  function Stream(s: Streams, session: string, chunk: seq<string>): Streams {
    if chunk == [] || session !in s.keys then s
    else
      var id := s.keys[session];
      if |Held(s.buf, id)| < CHUNK_LIMIT then s.(buf := s.buf[id := Held(s.buf, id) + chunk])
      else s.(overflowed := s.overflowed + {id})
  }

  function TakeDelta(s: Streams, id: int): Streams
    requires id in s.prompts && Held(s.buf, id) != []
  {
    s.(buf := s.buf[id := s.buf[id][1..]],
       prompts := s.prompts[id := s.prompts[id].(deltas := s.prompts[id].deltas + [s.buf[id][0]])])
  }

  function TakeReply(s: Streams, id: int, m: Msg): Streams
    requires id in s.prompts
  {
    s.(prompts := s.prompts[id := s.prompts[id].(stage := Draining(m))])
  }

  function Join(parts: seq<string>): string {
    if parts == [] then "" else Join(parts[..|parts| - 1]) + parts[|parts| - 1]
  }

  /** What Prompt returns for a reply and the collected chunks; None is an error. */
  function PromptText(m: Msg, deltas: seq<string>): Option<string> {
    if m.error.Some? then None
    else if m.content.None? then (if deltas != [] then Some(Join(deltas)) else None)
    else if m.content.value != "" then m.content
    else Some(Join(deltas))
  }

  /** Leaving deletes the session's entry, whoever it belongs to. */
  function EndPrompt(s: Streams, id: int, stage: Stage): Streams
    requires id in s.prompts
  {
    s.(keys := s.keys - {s.prompts[id].session}, prompts := s.prompts[id := s.prompts[id].(stage := stage)])
  }

  // ---------------------------------------------------------------- the machine

  datatype Client = Client(replies: Replies, streams: Streams, wire: seq<Msg>)

  const INIT := Client(Replies(0, {}, map[], map[], {}, Reading), Streams(map[], map[], map[], {}, {}), [])

  datatype Step =
    | StartCall
    | EndCall(id: int)
    | AbortCall(id: int)
    | BeginPrompt(session: string)
    | CollectDelta(id: int)
    | PromptReply(id: int)
    | FinishPrompt(id: int)
    | AbortPrompt(id: int)
    | Dispatch(m: Msg)
    | BeginClose
    | VisitClosed(id: int)
    | EndClose
    | StopReader

  predicate IsCall(c: Client, id: int) {
    id in c.replies.waiting && id !in c.streams.prompts
  }

  predicate HasReply(c: Client, id: int) {
    Held(c.replies.buf, id) != []
  }

  predicate Enabled(c: Client, step: Step) {
    match step
    case StartCall => true
    case EndCall(id) => IsCall(c, id) && HasReply(c, id)
    case AbortCall(id) => IsCall(c, id)
    case BeginPrompt(_) => true
    case CollectDelta(id) => Active(c.streams, id) && Held(c.streams.buf, id) != []
    case PromptReply(id) => Active(c.streams, id) && c.streams.prompts[id].stage.Collecting? && HasReply(c, id)
    case FinishPrompt(id) => Active(c.streams, id) && c.streams.prompts[id].stage.Draining? && Held(c.streams.buf, id) == []
    case AbortPrompt(id) => Active(c.streams, id) && c.streams.prompts[id].stage.Collecting?
    case Dispatch(m) => c.replies.reader.Reading?
    case BeginClose => c.replies.reader.Reading?
    case VisitClosed(id) =>
      c.replies.reader.Closing? && id in c.replies.keys && id !in c.replies.reader.visited
    case EndClose =>
      c.replies.reader.Closing? && c.replies.reader.start * c.replies.keys <= c.replies.reader.visited
    case StopReader => c.replies.reader.Reading?
  }

  function SessionOf(m: Msg): string {
    if m.update.Some? then m.update.value.session else ""
  }

  function Apply(c: Client, step: Step): Client
    requires Enabled(c, step)
  {
    var r, s := c.replies, c.streams;
    match step
    case StartCall => c.(replies := Open(r))
    case EndCall(id) =>
      c.(replies := r.(buf := r.buf[id := r.buf[id][1..]], keys := r.keys - {id}, waiting := r.waiting - {id}))
    case AbortCall(id) => c.(replies := r.(keys := r.keys - {id}, waiting := r.waiting - {id}))
    case BeginPrompt(session) =>
      c.(replies := Open(r), streams := StartPrompt(s, r.nextID + 1, session, |c.wire|))
    case CollectDelta(id) => c.(streams := TakeDelta(s, id))
    case PromptReply(id) =>
      c.(replies := r.(buf := r.buf[id := r.buf[id][1..]], waiting := r.waiting - {id}),
         streams := TakeReply(s, id, r.buf[id][0]))
    case FinishPrompt(id) =>
      var p := s.prompts[id];
      c.(streams := EndPrompt(s, id, Done(|c.wire|, PromptText(p.stage.reply, p.deltas))))
    case AbortPrompt(id) =>
      c.(replies := r.(keys := r.keys - {id}, waiting := r.waiting - {id}), streams := EndPrompt(s, id, Aborted))
    case Dispatch(m) =>
      Client(Route(r, m), Stream(s, SessionOf(m), ChunkOf(m, SessionOf(m))), c.wire + [m])
    case BeginClose => c.(replies := r.(reader := Closing(r.keys, {})))
    case VisitClosed(id) =>
      c.(replies := Deliver(r, id, CLOSED).(reader := Closing(r.reader.start, r.reader.visited + {id})))
    case EndClose => c.(replies := r.(reader := Stopped(r.reader.start)))
    case StopReader => c.(replies := r.(reader := Stopped({})))
  }

  /** The reader's sends wait for a free slot; this is where it could block. */
  predicate SendsTo(c: Client, step: Step, id: int) {
    || (step == VisitClosed(id))
    || (step.Dispatch? && !IsServerRequest(step.m) && !IsNotification(step.m) && step.m.id == Some(id)
        && id in c.replies.keys)
  }

  ghost predicate IsRun(states: seq<Client>, steps: seq<Step>) {
    && |states| == |steps| + 1
    && states[0] == INIT
    && forall i {:trigger steps[i]} :: 0 <= i < |steps| ==>
                 Enabled(states[i], steps[i]) && states[i + 1] == Apply(states[i], steps[i])
  }
}

/** The host's side of a sidecar: send a request, then listen until its answer has arrived. */
module AgentHost {
  import opened JsonValue
  import opened Wrappers
  import opened AgentProtocol
  import opened AgentEvents
  import opened AgentSession

  datatype Breakdown =
    | Exited
    | ReadFailed
    | WriteFailed
    | NotJson(message: string)
    | BadEvent(event: Json)
    | OutOfStep(got: Incoming)
    | BadMessage(message: string)

  /** `Io` makes the host drop the sidecar, `Rpc` is an ordinary failure of the call. */
  datatype CallError = Io(why: Breakdown) | Rpc(message: ErrorText)

  /** What a call brings: the events heard and how it ended. */
  datatype Learnt = Learnt(events: seq<StreamEvent>, outcome: Result<Json, CallError>)

  /** What one message means to a call. */
  datatype Reaction = Relay(event: StreamEvent) | Skip | Finish(outcome: Result<Json, CallError>)

  function Hear(value: Json, id: I64): Reaction {
    match ParseMessage(value)
    case Err(message) => Finish(Err(Io(BadMessage(message))))
    case Ok(m) =>
      if m.ChatEvent? && m.id == id then
        var event := FromJson(m.event);
        if event.None? then Finish(Err(Io(BadEvent(m.event)))) else Relay(event.value)
      else if m.Response? && m.id == id then Finish(Ok(m.result))
      else if m.Failure? && m.id == id then Finish(Err(Rpc(m.message)))
      else if m.ChatEvent? then Skip
      else Finish(Err(Io(OutOfStep(m))))
  }

  function EarFor(id: I64): Json -> Reaction {
    (value: Json) => Hear(value, id)
  }

  /** What listening with `ear` brings, and what is left to read. */
  function Listen(lines: seq<Line>, breaksOff: bool, ear: Json -> Reaction): (Learnt, seq<Line>) {
    if lines == [] then (Learnt([], Err(Io(if breaksOff then ReadFailed else Exited))), [])
    else
      match lines[0]
      case Blank => Listen(lines[1..], breaksOff, ear)
      case Malformed(message) => (Learnt([], Err(Io(NotJson(message)))), lines[1..])
      case Parsed(value) =>
        match ear(value)
        case Finish(outcome) => (Learnt([], outcome), lines[1..])
        case Skip => Listen(lines[1..], breaksOff, ear)
        case Relay(event) => After([event], Listen(lines[1..], breaksOff, ear))
  }

  function After(events: seq<StreamEvent>, later: (Learnt, seq<Line>)): (Learnt, seq<Line>) {
    (Learnt(events + later.0.events, later.0.outcome), later.1)
  }

  lemma {:induction false} ListenSkips(lines: seq<Line>, breaksOff: bool, ear: Json -> Reaction)
    ensures Listen(lines, breaksOff, ear) == Listen(SkipBlanks(lines), breaksOff, ear)
  {
    if lines != [] && lines[0].Blank? {
      ListenSkips(lines[1..], breaksOff, ear);
    }
  }

  /** What makes the host give a sidecar up: the end of its output, and anything unreadable in it. */
  lemma Breakdowns(tail: seq<Line>, breaksOff: bool, ear: Json -> Reaction, message: string, v: Json, id: I64)
    ensures Listen([], true, ear) == (Learnt([], Err(Io(ReadFailed))), [])
    ensures Listen([], false, ear) == (Learnt([], Err(Io(Exited))), [])
    ensures Listen([Malformed(message)] + tail, breaksOff, ear) == (Learnt([], Err(Io(NotJson(message)))), tail)
    ensures ParseMessage(v).Err? ==> Hear(v, id) == Finish(Err(Io(BadMessage(ParseMessage(v).error))))
    ensures ParseMessage(v).Ok? && ParseMessage(v).value.ChatEvent? && ParseMessage(v).value.id == id
            && FromJson(ParseMessage(v).value.event).None? ==>
              Hear(v, id) == Finish(Err(Io(BadEvent(ParseMessage(v).value.event))))
  {
  }

  /** Events of other chats are passed over; any other message that is not for this call is a breakdown. */
  lemma ForeignMessages(v: Json, id: I64)
    requires ParseMessage(v).Ok? && (ParseMessage(v).value.Request? || ParseMessage(v).value.id != id)
    ensures var m := ParseMessage(v).value;
            Hear(v, id) == if m.ChatEvent? then Skip else Finish(Err(Io(OutOfStep(m))))
  {
  }

  class EventSink {
    var events: seq<StreamEvent>

    constructor ()
      ensures events == []
    {
      events := [];
    }
  }

  /** `read_until` */
  method ReadUntil(reader: LineReader, id: I64, sink: EventSink) returns (outcome: Result<Json, CallError>)
    modifies reader, sink
    ensures var heard := Listen(old(reader.lines), reader.breaksOff, EarFor(id));
            && sink.events == old(sink.events) + heard.0.events
            && outcome == heard.0.outcome
            && reader.lines == heard.1
  {
    outcome := ReadWith(reader, EarFor(id), sink);
  }

  method ReadWith(reader: LineReader, ear: Json -> Reaction, sink: EventSink) returns (outcome: Result<Json, CallError>)
    modifies reader, sink
    ensures var heard := Listen(old(reader.lines), reader.breaksOff, ear);
            && sink.events == old(sink.events) + heard.0.events
            && outcome == heard.0.outcome
            && reader.lines == heard.1
  {
    while true
      invariant Listen(old(reader.lines), reader.breaksOff, ear).1 == Listen(reader.lines, reader.breaksOff, ear).1
      invariant Listen(old(reader.lines), reader.breaksOff, ear).0.outcome ==
        Listen(reader.lines, reader.breaksOff, ear).0.outcome
      invariant old(sink.events) + Listen(old(reader.lines), reader.breaksOff, ear).0.events
             == sink.events + Listen(reader.lines, reader.breaksOff, ear).0.events
      decreases |reader.lines|
    {
      ListenSkips(reader.lines, reader.breaksOff, ear);
      ghost var sofar := sink.events;
      var read := ReadJsonLine(reader);
      if read.None? {
        return Err(Io(ReadFailed));
      }
      match read.value
      case Eof => return Err(Io(Exited));
      case Invalid(message) => return Err(Io(NotJson(message)));
      case Value(value) => {
        match ear(value)
        case Finish(result) => return result;
        case Skip =>
        case Relay(event) => {
          sink.events := sink.events + [event];
          assert sofar + ([event] + Listen(reader.lines, reader.breaksOff, ear).0.events)
              == sink.events + Listen(reader.lines, reader.breaksOff, ear).0.events;
        }
      }
    }
  }

  /** A running sidecar: the request lines it was sent, and its output, read as it comes. */
  class SidecarSession {
    var nextId: I64
    const stdin: LineWriter
    const stdout: LineReader

    constructor (stdin: LineWriter, stdout: LineReader)
      ensures nextId == 1 && this.stdin == stdin && this.stdout == stdout
    {
      nextId := 1;
      this.stdin, this.stdout := stdin, stdout;
    }

    /** `call` and `chat`: each request gets an id of its own; nothing is read if it cannot be sent. */
    method Call(name: string, params: Json, sink: EventSink) returns (outcome: Result<Json, CallError>)
      requires nextId < 0x7fff_ffff_ffff_ffff
      modifies this, stdin, stdout, sink
      ensures nextId == old(nextId) + 1
      ensures Wrote(old(stdin.Contents()), [RequestValue(old(nextId), name, params)], old(stdin.patience) > 0,
                stdin.Contents())
      ensures if old(stdin.patience) == 0 then
                outcome == Err(Io(WriteFailed)) && stdout.lines == old(stdout.lines) && sink.events == old(sink.events)
              else
                var heard := Listen(old(stdout.lines), stdout.breaksOff, EarFor(old(nextId)));
                && sink.events == old(sink.events) + heard.0.events
                && outcome == heard.0.outcome && stdout.lines == heard.1
    {
      var id := nextId;
      nextId := nextId + 1;
      var ok := WriteJsonLine(stdin, RequestValue(id, name, params));
      if !ok {
        return Err(Io(WriteFailed));
      }
      outcome := ReadUntil(stdout, id, sink);
    }
  }

  // ---- host and sidecar together --------------------------------------------------------------

  /** What the host should learn from a call, given how the source behaves during it. */
  function Expected(name: string, params: Json, b: Behaviour): Learnt {
    if name == "handshake" then Learnt([], Ok(Handshake(b.engine)))
    else if name == "status" then Learnt([], Told(b.card))
    else if name == "catalog" then Learnt([], Told(b.refreshed))
    else if name == "chat" then
      if Get(params, "request").None? then Learnt([], Err(Rpc(Text("chat 缺少 request"))))
      else if b.request.Err? then Learnt([], Err(Rpc(Text("chat.request 无法解析: " + b.request.error))))
      else if b.client.Err? then Learnt([], Told(Err(b.client.error)))
      else if b.provider.Err? then Learnt([], Told(Err(b.provider.error)))
      else if b.stream.Err? then Learnt([], Told(Err(b.stream.error)))
      else Learnt(StreamTold(b.stream.value), Ok(Obj(map["ok" := Bool(true)])))
    else Learnt([], Err(Rpc(Text("未知方法: " + name))))
  }

  function Told(outcome: Result<Json, string>): Result<Json, CallError> {
    match outcome
    case Ok(result) => Ok(result)
    case Err(message) => Err(Rpc(Text(message)))
  }

  function AsLines(messages: seq<Json>): seq<Line> {
    seq(|messages|, i requires 0 <= i < |messages| => Parsed(messages[i]))
  }

  /** Messages that each relay one of `events` are heard as these events. */
  lemma {:induction false} EventsHeard(events: seq<StreamEvent>, messages: seq<Json>, tail: seq<Line>, breaksOff: bool,
                                       ear: Json -> Reaction)
    requires |messages| == |events| && forall i | 0 <= i < |events| :: ear(messages[i]) == Relay(events[i])
    ensures Listen(AsLines(messages) + tail, breaksOff, ear) == After(events, Listen(tail, breaksOff, ear))
    decreases |events|
  {
    var lines, later := AsLines(messages) + tail, Listen(tail, breaksOff, ear);
    if events == [] {
      assert lines == tail && events + later.0.events == later.0.events;
    } else {
      assert lines[1..] == AsLines(messages[1..]) + tail;
      EventsHeard(events[1..], messages[1..], tail, breaksOff, ear);
      assert [events[0]] + (events[1..] + later.0.events) == events + later.0.events;
    }
  }

  /** A message that finishes the call ends it and leaves the lines after it. */
  lemma FinishHeard(message: Json, tail: seq<Line>, breaksOff: bool, ear: Json -> Reaction)
    requires ear(message).Finish?
    ensures Listen(AsLines([message]) + tail, breaksOff, ear) == (Learnt([], ear(message).outcome), tail)
  {
  }

  lemma AnswerReactions(id: I64, result: Json, code: I64, message: string)
    ensures EarFor(id)(ResultValue(id, result)) == Finish(Ok(result))
    ensures EarFor(id)(ErrorValue(id, code, message)) == Finish(Err(Rpc(Text(message))))
  {
    ResultRoundTrip(id, result);
    ErrorRoundTrip(id, code, message);
  }

  lemma EventReaction(id: I64, e: StreamEvent)
    ensures EarFor(id)(ChatEventValue(id, ToJson(e))) == Relay(e)
  {
    ChatEventRoundTrip(id, ToJson(e));
    EventRoundTrip(e);
  }

  lemma EventsThenAnswer(events: seq<StreamEvent>, messages: seq<Json>, last: Json, tail: seq<Line>, breaksOff: bool,
                         ear: Json -> Reaction)
    requires |messages| == |events| && forall i | 0 <= i < |events| :: ear(messages[i]) == Relay(events[i])
    requires ear(last).Finish?
    ensures Listen(AsLines(messages + [last]) + tail, breaksOff, ear) == (Learnt(events, ear(last).outcome), tail)
  {
    FinishHeard(last, tail, breaksOff, ear);
    EventsHeard(events, messages, AsLines([last]) + tail, breaksOff, ear);
    assert AsLines(messages + [last]) + tail == AsLines(messages) + (AsLines([last]) + tail);
    assert events + [] == events;
  }

  lemma EventReactions(id: I64, events: seq<StreamEvent>)
    ensures forall i | 0 <= i < |events| :: EarFor(id)(EventLines(id, events)[i]) == Relay(events[i])
  {
    forall i | 0 <= i < |events|
      ensures EarFor(id)(EventLines(id, events)[i]) == Relay(events[i])
    {
      EventReaction(id, events[i]);
    }
  }

  lemma ExpectedOfChat(params: Json, b: Behaviour)
    ensures var refusal := ChatRefusal(params, b);
            if refusal.Some? then Expected("chat", params, b) == Learnt([], Err(Rpc(Text(refusal.value.1))))
            else b.stream.Ok? && Expected("chat", params, b) == Learnt(StreamTold(b.stream.value), Ok(DONE))
  {
  }

  lemma RefusalHeard(id: I64, refusal: (I64, string), tail: seq<Line>, breaksOff: bool)
    ensures Listen(AsLines([ErrorValue(id, refusal.0, refusal.1)]) + tail, breaksOff, EarFor(id)) ==
              (Learnt([], Err(Rpc(Text(refusal.1)))), tail)
  {
    AnswerReactions(id, DONE, refusal.0, refusal.1);
    FinishHeard(ErrorValue(id, refusal.0, refusal.1), tail, breaksOff, EarFor(id));
  }

  lemma StreamHeard(id: I64, events: seq<StreamEvent>, tail: seq<Line>, breaksOff: bool)
    ensures Listen(AsLines(EventLines(id, events) + [ResultValue(id, DONE)]) + tail, breaksOff, EarFor(id)) ==
              (Learnt(events, Ok(DONE)), tail)
  {
    AnswerReactions(id, DONE, 0, "");
    EventReactions(id, events);
    EventsThenAnswer(events, EventLines(id, events), ResultValue(id, DONE), tail, breaksOff, EarFor(id));
  }

  lemma ChatHeard(id: I64, params: Json, b: Behaviour, tail: seq<Line>, breaksOff: bool)
    ensures Listen(AsLines(ChatAnswer(id, params, b)) + tail, breaksOff, EarFor(id)) ==
              (Expected("chat", params, b), tail)
  {
    var refusal := ChatRefusal(params, b);
    ExpectedOfChat(params, b);
    if refusal.Some? {
      RefusalHeard(id, refusal.value, tail, breaksOff);
    } else {
      StreamHeard(id, StreamTold(b.stream.value), tail, breaksOff);
    }
  }

  /** The block that answers a request tells the host what it should learn, and nothing is left over. */
  lemma RequestHeard(id: I64, name: string, params: Json, b: Behaviour, tail: seq<Line>, breaksOff: bool)
    ensures Listen(AsLines(RequestAnswer(id, name, params, b)) + tail, breaksOff, EarFor(id))
         == (Expected(name, params, b), tail)
  {
    if name == "chat" {
      ChatHeard(id, params, b, tail, breaksOff);
    } else {
      var outcome := if name == "handshake" then Ok(Handshake(b.engine)) else if name == "status" then b.card
                     else if name == "catalog" then b.refreshed else Err("未知方法: " + name);
      AnswerReactions(id, if outcome.Ok? then outcome.value else Null, -32000,
        if outcome.Err? then outcome.error else "");
      FinishHeard(Outcome(id, outcome), tail, breaksOff, EarFor(id));
    }
  }

  datatype Call = Call(name: string, params: Json)

  function RequestLine(id: I64, call: Call): Line {
    Parsed(RequestValue(id, call.name, call.params))
  }

  function Requests(calls: seq<Call>, id: I64): (lines: seq<Line>)
    requires id + |calls| <= 0x7fff_ffff_ffff_ffff
    ensures |lines| == |calls| && forall i | 0 <= i < |calls| :: lines[i] == RequestLine(id + i, calls[i])
  {
    seq(|calls|, i requires 0 <= i < |calls| => RequestLine(id + i, calls[i]))
  }

  /** `n` calls of the host one after another, on what the sidecar has written. */
  function Conversation(n: nat, id: I64, lines: seq<Line>, breaksOff: bool,
      ears: I64 -> Json -> Reaction): (seq<Learnt>, seq<Line>)
    requires id + n <= 0x7fff_ffff_ffff_ffff
  {
    if n == 0 then ([], lines)
    else
      var (learnt, rest) := Listen(lines, breaksOff, ears(id));
      var later := Conversation(n - 1, id + 1, rest, breaksOff, ears);
      ([learnt] + later.0, later.1)
  }

  /** Call by call, what the host should learn. */
  function Expectations(calls: seq<Call>, behave: nat -> Behaviour, k: nat): seq<Learnt> {
    seq(|calls|, i requires 0 <= i < |calls| => Expected(calls[i].name, calls[i].params, behave(k + i)))
  }

  /** Whatever lines follow it, the answer to line `i` ends the call with id `id + i`. */
  ghost predicate InStep(lines: seq<Line>, reply: (Line, nat) -> seq<Json>, k: nat,
                         learnt: seq<Learnt>, id: I64, breaksOff: bool, ears: I64 -> Json -> Reaction)
    requires |lines| == |learnt| && id + |lines| <= 0x7fff_ffff_ffff_ffff
  {
    forall i, tail | 0 <= i < |lines| ::
      Listen(AsLines(reply(lines[i], k + i)) + tail, breaksOff, ears(id + i)) == (learnt[i], tail)
  }

  /** If each answer ends its call, the calls stay in step. */
  lemma {:induction false} CallByCall(lines: seq<Line>, reply: (Line, nat) -> seq<Json>, k: nat,
                                      learnt: seq<Learnt>, id: I64, breaksOff: bool, ears: I64 -> Json -> Reaction)
    requires |lines| == |learnt| && id + |lines| <= 0x7fff_ffff_ffff_ffff
    requires InStep(lines, reply, k, learnt, id, breaksOff, ears)
    ensures Conversation(|lines|, id, AsLines(Answers(lines, reply, k)), breaksOff, ears) == (learnt, [])
    decreases |lines|
  {
    if lines == [] {
      assert AsLines(Answers(lines, reply, k)) == [] && learnt == [];
    } else {
      forall i, tail | 0 <= i < |lines| - 1
        ensures Listen(AsLines(reply(lines[1..][i], k + 1 + i)) + tail, breaksOff, ears(id + 1 + i)) ==
                  (learnt[1..][i], tail)
      {
        assert lines[1..][i] == lines[i + 1] && k + 1 + i == k + (i + 1) && id + 1 + i == id + (i + 1);
      }
      CallByCall(lines[1..], reply, k + 1, learnt[1..], id + 1, breaksOff, ears);
      var block, more := reply(lines[0], k), Answers(lines[1..], reply, k + 1);
      assert AsLines(block + more) == AsLines(block) + AsLines(more);
      assert Listen(AsLines(reply(lines[0], k + 0)) + AsLines(more), breaksOff, ears(id + 0)) ==
        (learnt[0], AsLines(more));
      assert learnt == [learnt[0]] + learnt[1..];
    }
  }

  lemma CallHeard(id: I64, call: Call, line: Line, learnt: Learnt, behave: nat -> Behaviour, k: nat, tail: seq<Line>,
      breaksOff: bool)
    requires call.name != "chat_event" && line == RequestLine(id, call)
    requires learnt == Expected(call.name, call.params, behave(k))
    ensures Listen(AsLines(ReplyOf(behave)(line, k)) + tail, breaksOff, EarFor(id)) == (learnt, tail)
  {
    RequestRoundTrip(id, call.name, call.params);
    RequestHeard(id, call.name, call.params, behave(k), tail, breaksOff);
  }

  lemma CallsHeard(calls: seq<Call>, id: I64, behave: nat -> Behaviour, k: nat, breaksOff: bool)
    requires id + |calls| <= 0x7fff_ffff_ffff_ffff
    requires forall i | 0 <= i < |calls| :: calls[i].name != "chat_event"
    ensures InStep(Requests(calls, id), ReplyOf(behave), k, Expectations(calls, behave, k), id, breaksOff, EarFor)
  {
    var lines, learnt := Requests(calls, id), Expectations(calls, behave, k);
    forall i, tail | 0 <= i < |calls|
      ensures Listen(AsLines(ReplyOf(behave)(lines[i], k + i)) + tail, breaksOff, EarFor(id + i)) == (learnt[i], tail)
    {
      var line, expected := lines[i], learnt[i];
      CallHeard(id + i, calls[i], line, expected, behave, k + i, tail, breaksOff);
    }
  }

  /**
   Whatever the calls and however the source behaves, the host learns from every call exactly the
   relayed events and the outcome of that call, the two never fall out of step, and the output is
   used up. Calls named like the notification are excepted: their requests do not parse back.
   */
  lemma HostAndSidecarStayInStep(calls: seq<Call>, id: I64, behave: nat -> Behaviour, k: nat, breaksOff: bool)
    requires id + |calls| <= 0x7fff_ffff_ffff_ffff
    requires forall i | 0 <= i < |calls| :: calls[i].name != "chat_event"
    ensures Conversation(|calls|, id, AsLines(Answers(Requests(calls, id), ReplyOf(behave), k)), breaksOff, EarFor)
         == (Expectations(calls, behave, k), [])
  {
    CallsHeard(calls, id, behave, k, breaksOff);
    CallByCall(Requests(calls, id), ReplyOf(behave), k, Expectations(calls, behave, k), id, breaksOff, EarFor);
  }
}

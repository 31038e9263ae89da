/** The sidecar's side: one request at a time, each input line answered by one block of lines. */
module AgentSession {
  import opened JsonValue
  import opened Wrappers
  import opened AgentProtocol
  import opened AgentEvents

  const PROTOCOL_VERSION := 1

  /** What the agent source does when it is asked, and what its provider streams. */
  datatype Behaviour = Behaviour(
    engine: string,
    card: Result<Json, string>,
    refreshed: Result<Json, string>,
    request: Result<(), string>,
    client: Result<(), string>,
    provider: Result<(), string>,
    stream: Result<seq<Result<StreamEvent, string>>, string>)

  function Handshake(engine: string): Json {
    Obj(map["protocolVersion" := Int(PROTOCOL_VERSION), "engine" := Str(engine),
            "capabilities" := Arr([Str("status"), Str("catalog"), Str("chat")])])
  }

  const DONE: Json := Obj(map["ok" := Bool(true)])

  function Outcome(id: I64, outcome: Result<Json, string>): Json {
    match outcome
    case Ok(result) => ResultValue(id, result)
    case Err(message) => ErrorValue(id, -32000, message)
  }

  /** The item ends the stream: the provider failed, or the event reports an error. */
  predicate IsFault(item: Result<StreamEvent, string>) {
    item.Err? || item.value.Error?
  }

  /** The position of the first item that ends the stream, or the length of the stream. */
  function FirstFault(items: seq<Result<StreamEvent, string>>): (k: nat)
    ensures k <= |items| && (forall i | 0 <= i < k :: items[i].Ok? && !items[i].value.Error?)
    ensures k < |items| ==> items[k].Err? || items[k].value.Error?
  {
    if items == [] || IsFault(items[0]) then 0 else 1 + FirstFault(items[1..])
  }

  /** What a stream tells: its values as they are, and if it is cut by a fault, an error in its place. */
  function StreamTold(items: seq<Result<StreamEvent, string>>): (events: seq<StreamEvent>)
    ensures var k := FirstFault(items);
            && |events| == (if k < |items| then k + 1 else |items|)
            && (forall i | 0 <= i < k :: items[i] == Ok(events[i]))
            && (k < |items| ==> events[k].Error? && (items[k] == Err(events[k].message) || items[k] == Ok(events[k])))
  {
    var k := FirstFault(items);
    seq(k, i requires 0 <= i < k => items[i].value)
    + (if k == |items| then [] else [if items[k].Err? then Error(items[k].error) else items[k].value])
  }

  function EventLines(id: I64, events: seq<StreamEvent>): seq<Json> {
    seq(|events|, i requires 0 <= i < |events| => ChatEventValue(id, ToJson(events[i])))
  }

  /** Why a chat does not get as far as a stream. */
  function ChatRefusal(params: Json, b: Behaviour): Option<(I64, string)> {
    if Get(params, "request").None? then Some((-32602, "chat 缺少 request"))
    else if b.request.Err? then Some((-32602, "chat.request 无法解析: " + b.request.error))
    else if b.client.Err? then Some((-32000, b.client.error))
    else if b.provider.Err? then Some((-32000, b.provider.error))
    else if b.stream.Err? then Some((-32000, b.stream.error))
    else None
  }

  function ChatAnswer(id: I64, params: Json, b: Behaviour): seq<Json> {
    var refusal := ChatRefusal(params, b);
    if refusal.Some? then [ErrorValue(id, refusal.value.0, refusal.value.1)]
    else if b.stream.Ok? then EventLines(id, StreamTold(b.stream.value)) + [ResultValue(id, DONE)]
    else []
  }

  function RequestAnswer(id: I64, name: string, params: Json, b: Behaviour): seq<Json> {
    if name == "handshake" then [Outcome(id, Ok(Handshake(b.engine)))]
    else if name == "status" then [Outcome(id, b.card)]
    else if name == "catalog" then [Outcome(id, b.refreshed)]
    else if name == "chat" then ChatAnswer(id, params, b)
    else [Outcome(id, Err("未知方法: " + name))]
  }

  function LineAnswer(line: Line, b: Behaviour): seq<Json>
    requires !line.Blank?
  {
    match line
    case Malformed(message) => [ErrorValue(0, -32700, message)]
    case Parsed(value) =>
      match ParseMessage(value)
      case Ok(Request(id, name, params)) => RequestAnswer(id, name, params, b)
      case Ok(_) => [ErrorValue(0, -32600, "sidecar 只接受请求")]
      case Err(message) => [ErrorValue(0, -32600, message)]
  }

  /** The lines that are not blank. */
  function Content(lines: seq<Line>): (content: seq<Line>)
    ensures forall i | 0 <= i < |content| :: !content[i].Blank?
  {
    if lines == [] then []
    else if lines[0].Blank? then Content(lines[1..])
    else [lines[0]] + Content(lines[1..])
  }

  /** How a line is answered that comes as the `k`-th one, when the source behaves as `behave(k)`. */
  function ReplyOf(behave: nat -> Behaviour): (Line, nat) -> seq<Json> {
    (line: Line, k: nat) => if line.Blank? then [] else LineAnswer(line, behave(k))
  }

  /** The answers to `content`, whose first line is the `k`-th one. */
  function Answers(content: seq<Line>, reply: (Line, nat) -> seq<Json>, k: nat): seq<Json> {
    if content == [] then [] else reply(content[0], k) + Answers(content[1..], reply, k + 1)
  }

  // ---- the loops ------------------------------------------------------------------------------

  method HandleChat(writer: LineWriter, id: I64, params: Json, b: Behaviour) returns (ok: bool)
    modifies writer
    ensures Wrote(old(writer.Contents()), ChatAnswer(id, params, b), ok, writer.Contents())
  {
    if Get(params, "request").None? {
      ok := WriteJsonLine(writer, ErrorValue(id, -32602, "chat 缺少 request"));
      return;
    }
    if b.request.Err? {
      ok := WriteJsonLine(writer, ErrorValue(id, -32602, "chat.request 无法解析: " + b.request.error));
      return;
    }
    if b.client.Err? {
      ok := WriteJsonLine(writer, ErrorValue(id, -32000, b.client.error));
      return;
    }
    if b.provider.Err? {
      ok := WriteJsonLine(writer, ErrorValue(id, -32000, b.provider.error));
      return;
    }
    match b.stream
    case Err(message) =>
      ok := WriteJsonLine(writer, ErrorValue(id, -32000, message));
    case Ok(items) =>
      ok := Pump(writer, id, items);
      ghost var pumped := writer.Contents();
      ghost var sent := EventLines(id, StreamTold(items));
      if !ok {
        WroteFailed(old(writer.Contents()), sent, pumped, [ResultValue(id, DONE)]);
        return;
      }
      ok := WriteJsonLine(writer, ResultValue(id, DONE));
      WroteBoth(old(writer.Contents()), sent, pumped, [ResultValue(id, DONE)], ok, writer.Contents());
  }

  /** The stream loop: relay events, and stop after an error or when the writer fails. */
  method Pump(writer: LineWriter, id: I64, items: seq<Result<StreamEvent, string>>) returns (ok: bool)
    modifies writer
    ensures Wrote(old(writer.Contents()), EventLines(id, StreamTold(items)), ok, writer.Contents())
  {
    ghost var lines := EventLines(id, StreamTold(items));
    ghost var before := writer.Contents();
    var next := 0;
    while next < |items|
      invariant 0 <= next <= FirstFault(items)
      invariant Wrote(before, lines[..next], true, writer.Contents())
    {
      var event := if items[next].Ok? then items[next].value else Error(items[next].error);
      ghost var sofar := writer.Contents();
      assert next < |StreamTold(items)| && event == StreamTold(items)[next];
      ok := WriteJsonLine(writer, ChatEventValue(id, ToJson(event)));
      WroteNext(before, lines, next, sofar, ok, writer.Contents());
      if !ok {
        return;
      }
      next := next + 1;
      if event.Error? {
        assert lines[..next] == lines;
        return true;
      }
    }
    assert lines[..next] == lines;
    ok := true;
  }

  method Dispatch(writer: LineWriter, id: I64, name: string, params: Json, b: Behaviour) returns (ok: bool)
    modifies writer
    ensures Wrote(old(writer.Contents()), RequestAnswer(id, name, params, b), ok, writer.Contents())
  {
    var outcome;
    if name == "handshake" {
      outcome := Ok(Handshake(b.engine));
    } else if name == "status" {
      outcome := b.card;
    } else if name == "catalog" {
      outcome := b.refreshed;
    } else if name == "chat" {
      ok := HandleChat(writer, id, params, b);
      return;
    } else {
      outcome := Err("未知方法: " + name);
    }
    match outcome
    case Ok(result) => ok := WriteJsonLine(writer, ResultValue(id, result));
    case Err(message) => ok := WriteJsonLine(writer, ErrorValue(id, -32000, message));
  }

  /** Answer one value that was read. */
  method AnswerLine(writer: LineWriter, line: Line, b: Behaviour) returns (ok: bool)
    requires !line.Blank?
    modifies writer
    ensures Wrote(old(writer.Contents()), LineAnswer(line, b), ok, writer.Contents())
  {
    match line
    case Malformed(message) => ok := WriteJsonLine(writer, ErrorValue(0, -32700, message));
    case Parsed(value) => {
      match ParseMessage(value)
      case Ok(Request(id, name, params)) => ok := Dispatch(writer, id, name, params, b);
      case Ok(_) => ok := WriteJsonLine(writer, ErrorValue(0, -32600, "sidecar 只接受请求"));
      case Err(message) => ok := WriteJsonLine(writer, ErrorValue(0, -32600, message));
    }
  }

  lemma {:induction false} ContentSkips(lines: seq<Line>)
    ensures SkipBlanks(lines) == [] ==> Content(lines) == []
    ensures SkipBlanks(lines) != [] ==> Content(lines) == [SkipBlanks(lines)[0]] + Content(SkipBlanks(lines)[1..])
  {
    if lines != [] && lines[0].Blank? {
      ContentSkips(lines[1..]);
    }
  }

  lemma AnswersSkip(lines: seq<Line>, reply: (Line, nat) -> seq<Json>, k: nat)
    ensures var rest := SkipBlanks(lines);
            Answers(Content(lines), reply, k) ==
            if rest == [] then [] else reply(rest[0], k) + Answers(Content(rest[1..]), reply, k + 1)
  {
    ContentSkips(lines);
    if SkipBlanks(lines) != [] {
      assert Content(lines)[1..] == Content(SkipBlanks(lines)[1..]);
    }
  }

  lemma WroteBlock(before: Output, sent: seq<Json>, sofar: Output, block: seq<Json>, rest: seq<Json>, ok: bool,
      now: Output)
    requires Wrote(before, sent, true, sofar) && Wrote(sofar, block, ok, now)
    ensures (sent + block) + rest == sent + (block + rest)
    ensures ok ==> Wrote(before, sent + block, true, now)
    ensures !ok ==> Wrote(before, sent + (block + rest), false, now)
  {
  }

  /**
   `serve_io`: whatever the input and the behaviour of the source, what reaches the writer is the
   answers to the lines that are not blank, in order, cut only where the writer fails; the loop
   ends well exactly when the writer took everything and the input ended well.
   */
  method ServeIo(reader: LineReader, writer: LineWriter, behave: nat -> Behaviour) returns (ok: bool)
    modifies reader, writer
    ensures var answers := Answers(Content(old(reader.lines)), ReplyOf(behave), 0);
            && Wrote(old(writer.Contents()), answers, old(writer.patience) >= |answers|, writer.Contents())
            && (ok <==> old(writer.patience) >= |answers| && !reader.breaksOff)
  {
    ghost var before := writer.Contents();
    ghost var answers := Answers(Content(reader.lines), ReplyOf(behave), 0);
    ghost var sent: seq<Json> := [];
    var k := 0;
    while true
      invariant k >= 0 && answers == sent + Answers(Content(reader.lines), ReplyOf(behave), k)
      invariant Wrote(before, sent, true, writer.Contents())
      decreases |reader.lines|
    {
      AnswersSkip(reader.lines, ReplyOf(behave), k);
      ghost var sofar := writer.Contents();
      var read := ReadJsonLine(reader);
      if read.None? {
        return false;
      } else if read.value.Eof? {
        return true;
      }
      var line := if read.value.Value? then Parsed(read.value.value) else Malformed(read.value.message);
      ok := AnswerLine(writer, line, behave(k));
      k := k + 1;
      WroteBlock(before, sent, sofar, LineAnswer(line, behave(k - 1)),
        Answers(Content(reader.lines), ReplyOf(behave), k),
                 ok, writer.Contents());
      sent := sent + LineAnswer(line, behave(k - 1));
      if !ok {
        return;
      }
    }
  }

  // ---- blocks -----------------------------------------------------------------------------------

  /** The id that answers to a line carry: that of the request, or 0 if the line is none. */
  function AnswerId(line: Line): I64 {
    if line.Parsed? && ParseMessage(line.value).Ok? && ParseMessage(line.value).value.Request?
    then ParseMessage(line.value).value.id
    else 0
  }

  predicate IsChat(line: Line) {
    line.Parsed? && ParseMessage(line.value).Ok? && ParseMessage(line.value).value.Request?
    && ParseMessage(line.value).value.name == "chat"
  }

  predicate IsEvent(message: Json) {
    ParseMessage(message).Ok? && ParseMessage(message).value.ChatEvent?
  }

  predicate IsErrorEvent(message: Json) {
    IsEvent(message) && var e := FromJson(ParseMessage(message).value.event); e.Some? && e.value.Error?
  }

  predicate IsAnswer(message: Json) {
    ParseMessage(message).Ok? && (ParseMessage(message).value.Response? || ParseMessage(message).value.Failure?)
  }

  /**
   A well-formed block: events and then one response or failure, all with the id of the line;
   events only for a chat, followed by a response; an error event is the last event.
   */
  predicate Block(line: Line, block: seq<Json>) {
    && block != []
    && (forall i | 0 <= i < |block| - 1 :: IsEvent(block[i]) && ParseMessage(block[i]).value.id == AnswerId(line))
    && IsAnswer(block[|block| - 1]) && ParseMessage(block[|block| - 1]).value.id == AnswerId(line)
    && (|block| > 1 ==> IsChat(line) && ParseMessage(block[|block| - 1]).value == Response(AnswerId(line), DONE))
    && (forall i | 0 <= i < |block| - 1 && IsErrorEvent(block[i]) :: i == |block| - 2)
  }

  /** Cut a run of messages after each one on which `goesOn` is false; a last unfinished piece counts too. */
  function Split(messages: seq<Json>, goesOn: Json -> bool): seq<seq<Json>> {
    if messages == [] then []
    else
      var rest := Split(messages[1..], goesOn);
      if !goesOn(messages[0]) || rest == [] then [[messages[0]]] + rest
      else [[messages[0]] + rest[0]] + rest[1..]
  }

  lemma EventLine(id: I64, e: StreamEvent)
    ensures IsEvent(ChatEventValue(id, ToJson(e))) && ParseMessage(ChatEventValue(id, ToJson(e))).value.id == id
    ensures IsErrorEvent(ChatEventValue(id, ToJson(e))) <==> e.Error?
  {
    ChatEventRoundTrip(id, ToJson(e));
    EventRoundTrip(e);
  }

  lemma ChatIsBlock(line: Line, id: I64, params: Json, b: Behaviour)
    requires id == AnswerId(line) && IsChat(line)
    ensures Block(line, ChatAnswer(id, params, b))
  {
    var refusal := ChatRefusal(params, b);
    if refusal.Some? {
      ErrorRoundTrip(id, refusal.value.0, refusal.value.1);
    } else {
      var events := StreamTold(b.stream.value);
      ResultRoundTrip(id, DONE);
      forall i | 0 <= i < |events|
        ensures var m := ChatAnswer(id, params, b)[i];
                IsEvent(m) && ParseMessage(m).value.id == id && (IsErrorEvent(m) ==> i == |events| - 1)
      {
        EventLine(id, events[i]);
      }
    }
  }

  /** Every line that is not blank is answered by one well-formed block. */
  lemma AnswerIsBlock(line: Line, b: Behaviour)
    requires !line.Blank?
    ensures Block(line, LineAnswer(line, b))
  {
    match line
    case Malformed(message) => ErrorRoundTrip(0, -32700, message);
    case Parsed(value) => {
      match ParseMessage(value)
      case Err(message) => ErrorRoundTrip(0, -32600, message);
      case Ok(Request(id, name, params)) => {
        if name == "chat" {
          ChatIsBlock(line, id, params, b);
        } else {
          var outcome := if name == "handshake" then Ok(Handshake(b.engine)) else if name == "status" then b.card
                         else if name == "catalog" then b.refreshed else Err("未知方法: " + name);
          if outcome.Ok? {
            ResultRoundTrip(id, outcome.value);
          } else {
            ErrorRoundTrip(id, -32000, outcome.error);
          }
        }
      }
      case Ok(_) => ErrorRoundTrip(0, -32600, "sidecar 只接受请求");
    }
  }

  /** The code of an error response. */
  function CodeOf(message: Json): Option<I64> {
    var error := Get(message, "error");
    if error.None? then None else AsI64(Get(error.value, "code"))
  }

  lemma CodesOfAnswers(id: I64, code: I64, message: string, result: Json)
    ensures CodeOf(ErrorValue(id, code, message)) == Some(code)
    ensures CodeOf(ResultValue(id, result)) == None
  {
  }

  /** The code that a request is refused with, if it is. */
  function RefusalCode(name: string, params: Json, b: Behaviour): Option<I64> {
    if name == "handshake" then None
    else if name == "status" then if b.card.Err? then Some(-32000) else None
    else if name == "catalog" then if b.refreshed.Err? then Some(-32000) else None
    else if name == "chat" then
      if Get(params, "request").None? || b.request.Err? then Some(-32602)
      else if b.client.Err? || b.provider.Err? || b.stream.Err? then Some(-32000)
      else None
    else Some(-32000)
  }

  /**
   The codes of JSON-RPC 2.0, section 5.1: parse error for a malformed line, invalid request for
   anything that is no request, invalid params for a chat whose request is missing or unreadable; the
   server's own code for every failure of the source and for an unknown method. Else there is none.
   */
  lemma AnswerCodes(line: Line, b: Behaviour)
    requires !line.Blank?
    ensures var answer := LineAnswer(line, b);
            CodeOf(answer[|answer| - 1]) ==
              if line.Malformed? then Some(-32700)
              else if ParseMessage(line.value).Err? || !ParseMessage(line.value).value.Request? then Some(-32600)
              else
                var m := ParseMessage(line.value).value;
                RefusalCode(m.name, m.params, b)
  {
    if line.Malformed? {
      CodesOfAnswers(0, -32700, line.message, DONE);
    } else {
      match ParseMessage(line.value)
      case Err(message) => CodesOfAnswers(0, -32600, message, DONE);
      case Ok(Request(id, name, params)) => RequestCode(id, name, params, b);
      case Ok(_) => CodesOfAnswers(0, -32600, "sidecar 只接受请求", DONE);
    }
  }

  lemma RequestCode(id: I64, name: string, params: Json, b: Behaviour)
    ensures var answer := RequestAnswer(id, name, params, b);
            answer != [] && CodeOf(answer[|answer| - 1]) == RefusalCode(name, params, b)
  {
    if name == "chat" {
      var refusal := ChatRefusal(params, b);
      if refusal.Some? {
        CodesOfAnswers(id, refusal.value.0, refusal.value.1, DONE);
      } else {
        CodesOfAnswers(id, 0, "", DONE);
      }
    } else {
      var outcome := if name == "handshake" then Ok(Handshake(b.engine)) else if name == "status" then b.card
                     else if name == "catalog" then b.refreshed else Err("未知方法: " + name);
      CodesOfAnswers(id, -32000, if outcome.Err? then outcome.error else "",
        if outcome.Ok? then outcome.value else Null);
    }
  }

  /** A handshake tells the engine, the protocol version and the three methods there are. */
  lemma HandshakeTells(engine: string)
    ensures Get(Handshake(engine), "protocolVersion") == Some(Int(1))
    ensures Get(Handshake(engine), "engine") == Some(Str(engine))
    ensures Get(Handshake(engine), "capabilities") == Some(Arr([Str("status"), Str("catalog"), Str("chat")]))
  {
  }

  /** `goesOn` is true of all messages but the last. */
  predicate Closed(block: seq<Json>, goesOn: Json -> bool) {
    block != [] && !goesOn(block[|block| - 1]) && forall i | 0 <= i < |block| - 1 :: goesOn(block[i])
  }

  /** Splitting takes a closed block off the front. */
  lemma {:induction false} SplitBlock(block: seq<Json>, rest: seq<Json>, goesOn: Json -> bool)
    requires Closed(block, goesOn)
    ensures Split(block + rest, goesOn) == [block] + Split(rest, goesOn)
  {
    assert (block + rest)[1..] == block[1..] + rest;
    if |block| == 1 {
      assert block[1..] + rest == rest && [block[0]] == block;
    } else {
      SplitBlock(block[1..], rest, goesOn);
      assert [block[0]] + block[1..] == block;
    }
  }

  lemma {:induction false} BlocksSplit(content: seq<Line>, reply: (Line, nat) -> seq<Json>, k: nat,
      goesOn: Json -> bool)
    requires forall i | 0 <= i < |content| :: Closed(reply(content[i], k + i), goesOn)
    ensures Split(Answers(content, reply, k), goesOn) ==
              seq(|content|, i requires 0 <= i < |content| => reply(content[i], k + i))
    decreases |content|
  {
    if content != [] {
      forall i | 0 <= i < |content| - 1
        ensures content[1..][i] == content[i + 1]
        ensures reply(content[1..][i], k + 1 + i) == reply(content[i + 1], k + (i + 1))
      {
      }
      BlocksSplit(content[1..], reply, k + 1, goesOn);
      assert Closed(reply(content[0], k + 0), goesOn);
      SplitBlock(reply(content[0], k), Answers(content[1..], reply, k + 1), goesOn);
    }
  }

  lemma AnswerIsClosed(line: Line, behave: nat -> Behaviour, k: nat)
    requires !line.Blank?
    ensures Closed(ReplyOf(behave)(line, k), IsEvent) && Block(line, ReplyOf(behave)(line, k))
  {
    AnswerIsBlock(line, behave(k));
  }

  lemma BlocksHold(content: seq<Line>, reply: (Line, nat) -> seq<Json>, goesOn: Json -> bool,
      fits: (Line, seq<Json>) -> bool)
    requires forall i | 0 <= i < |content| ::
               Closed(reply(content[i], 0 + i), goesOn) && fits(content[i], reply(content[i], 0 + i))
    ensures var blocks := Split(Answers(content, reply, 0), goesOn);
            |blocks| == |content| && forall i | 0 <= i < |blocks| :: fits(content[i], blocks[i])
  {
    BlocksSplit(content, reply, 0, goesOn);
  }

  /**
   The output for any input and any behaviour falls, when cut after each message that is not an
   event, into exactly one well-formed block per line that is not blank, in order.
   */
  lemma OutputSplitsIntoBlocks(lines: seq<Line>, behave: nat -> Behaviour)
    ensures var blocks := Split(Answers(Content(lines), ReplyOf(behave), 0), IsEvent);
            && |blocks| == |Content(lines)|
            && forall i | 0 <= i < |blocks| :: Block(Content(lines)[i], blocks[i])
  {
    var content, reply, fits := Content(lines), ReplyOf(behave), Block;
    forall i | 0 <= i < |content|
      ensures Closed(reply(content[i], 0 + i), IsEvent) && fits(content[i], reply(content[i], 0 + i))
    {
      AnswerIsClosed(content[i], behave, 0 + i);
    }
    BlocksHold(content, reply, IsEvent, fits);
    var blocks := Split(Answers(content, reply, 0), IsEvent);
    forall i | 0 <= i < |blocks|
      ensures Block(content[i], blocks[i])
    {
      assert fits(content[i], blocks[i]);
    }
  }
}

/**
 The wire protocol of an agent sidecar: JSON-RPC 2.0 envelopes, the parser that tells them
 apart, and the stream events that travel inside `chat_event` notifications.
 */
module AgentProtocol {
  import opened JsonValue
  import opened Wrappers

  type I64 = n: int | -0x8000_0000_0000_0000 <= n < 0x8000_0000_0000_0000
  type U32 = n: int | 0 <= n < 0x1_0000_0000
  type U64 = n: int | 0 <= n < 0x1_0000_0000_0000_0000

  type Json = Value<string>

  function Get(v: Json, key: string): Option<Json> {
    if v.Obj? && key in v.fields then Some(v.fields[key]) else None
  }

  function AsI64(v: Option<Json>): Option<I64> {
    if v.Some? && v.value.Int? && -0x8000_0000_0000_0000 <= v.value.n < 0x8000_0000_0000_0000 then Some(v.value.n)
      else None
  }

  function AsStr(v: Option<Json>): Option<string> {
    if v.Some? && v.value.Str? then Some(v.value.s) else None
  }

  function OrNull(v: Option<Json>): Json {
    if v.Some? then v.value else Null
  }

  // ---- the four envelopes ---------------------------------------------------------------

  function RequestValue(id: I64, name: string, params: Json): Json {
    Obj(map["jsonrpc" := Str("2.0"), "id" := Int(id), "method" := Str(name), "params" := params])
  }

  function ResultValue(id: I64, result: Json): Json {
    Obj(map["jsonrpc" := Str("2.0"), "id" := Int(id), "result" := result])
  }

  function ErrorValue(id: I64, code: I64, message: string): Json {
    Obj(map["jsonrpc" := Str("2.0"), "id" := Int(id),
            "error" := Obj(map["code" := Int(code), "message" := Str(message)])])
  }

  function ChatEventValue(id: I64, event: Json): Json {
    Obj(map["jsonrpc" := Str("2.0"), "method" := Str("chat_event"),
            "params" := Obj(map["id" := Int(id), "event" := event])])
  }

  // ---- the parser -------------------------------------------------------------------------

  /** The text of a failure: a string of the message, or the rendering of an error value without one. */
  datatype ErrorText = Text(text: string) | Rendered(error: Json)

  datatype Incoming =
    | Request(id: I64, name: string, params: Json)
    | Response(id: I64, result: Json)
    | Failure(id: I64, message: ErrorText)
    | ChatEvent(id: I64, event: Json)

  function JsonId(v: Json): I64 {
    var id := AsI64(Get(v, "id"));
    if id.Some? then id.value else 0
  }

  function ErrorMessage(error: Option<Json>): Option<ErrorText> {
    if error.None? || error.value.Null? then None
    else if error.value.Str? then Some(Text(error.value.s))
    else
      var message := AsStr(Get(error.value, "message"));
      Some(if message.Some? then Text(message.value) else Rendered(error.value))
  }

  function ParseMessage(v: Json): Result<Incoming, string> {
    var name := AsStr(Get(v, "method"));
    if name == Some("chat_event") then
      var params := OrNull(Get(v, "params"));
      var id := AsI64(Get(params, "id"));
      if id.None? then Err("chat_event 缺少 params.id") else Ok(ChatEvent(id.value, OrNull(Get(params, "event"))))
    else
      var message := ErrorMessage(Get(v, "error"));
      if message.Some? then Ok(Failure(JsonId(v), message.value))
      else if Get(v, "result").Some? then Ok(Response(JsonId(v), Get(v, "result").value))
      else if name.None? then Err("缺少 method / result / error")
      else Ok(Request(JsonId(v), name.value, OrNull(Get(v, "params"))))
  }

  /** The parser gives a request back, unless it is called like the notification. */
  lemma RequestRoundTrip(id: I64, name: string, params: Json)
    ensures ParseMessage(RequestValue(id, name, params)) == Ok(Request(id, name, params)) <==> name != "chat_event"
  {
  }

  lemma ResultRoundTrip(id: I64, result: Json)
    ensures ParseMessage(ResultValue(id, result)) == Ok(Response(id, result))
  {
  }

  lemma ErrorRoundTrip(id: I64, code: I64, message: string)
    ensures ParseMessage(ErrorValue(id, code, message)) == Ok(Failure(id, Text(message)))
  {
  }

  lemma ChatEventRoundTrip(id: I64, event: Json)
    ensures ParseMessage(ChatEventValue(id, event)) == Ok(ChatEvent(id, event))
  {
  }

  /** The builder of an envelope, for everything the parser can produce except a rendered error value. */
  function Rebuild(m: Incoming, code: I64): Json
    requires m.Failure? ==> m.message.Text?
  {
    match m
    case Request(id, name, params) => RequestValue(id, name, params)
    case Response(id, result) => ResultValue(id, result)
    case Failure(id, message) => ErrorValue(id, code, message.text)
    case ChatEvent(id, event) => ChatEventValue(id, event)
  }

  /** Whatever was accepted, building it anew and parsing again changes nothing. */
  lemma RebuiltParsesBack(v: Json, m: Incoming, code: I64)
    requires ParseMessage(v) == Ok(m) && (m.Failure? ==> m.message.Text?)
    ensures ParseMessage(Rebuild(m, code)) == Ok(m)
  {
    match m
    case Request(id, name, params) => RequestRoundTrip(id, name, params);
    case Response(id, result) => ResultRoundTrip(id, result);
    case Failure(id, message) => ErrorRoundTrip(id, code, message.text);
    case ChatEvent(id, event) => ChatEventRoundTrip(id, event);
  }

  /**
   How an envelope that is no notification is told apart: an `error` other than null makes it a failure,
   whatever else it has; else a `result`, null included, makes it a response; else a `method` makes it
   a request.
   */
  lemma EnvelopesAreToldApart(v: Json)
    requires Get(v, "method") != Some(Str("chat_event"))
    ensures var error, result, parsed := Get(v, "error"), Get(v, "result"), ParseMessage(v);
            if error.Some? && error.value != Null then
              parsed.Ok? && parsed.value.Failure? && parsed.value.id == JsonId(v)
            else if result.Some? then parsed == Ok(Response(JsonId(v), result.value))
            else if Get(v, "method").Some? && Get(v, "method").value.Str? then
              parsed.Ok? && parsed.value.Request? && parsed.value.id == JsonId(v)
              && Get(v, "method") == Some(Str(parsed.value.name))
              && parsed.value.params == (if Get(v, "params").Some? then Get(v, "params").value else Null)
            else parsed.Err?
  {
  }

  /** An id is an integer of 64 bits; without one it reads as 0. */
  lemma IdIsRead(v: Json)
    ensures forall n: I64 :: Get(v, "id") == Some(Int(n)) ==> JsonId(v) == n
    ensures !(exists n: I64 :: Get(v, "id") == Some(Int(n))) ==> JsonId(v) == 0
  {
  }

  /** The text of a failure: the error itself if it is a string, or its message, or all of it. */
  lemma FailureText(v: Json, error: Json)
    requires Get(v, "method") != Some(Str("chat_event")) && Get(v, "error") == Some(error) && error != Null
    ensures ParseMessage(v).Ok? && ParseMessage(v).value.Failure?
    ensures forall text :: error == Str(text) || Get(error, "message") == Some(Str(text)) ==>
              ParseMessage(v).value.message == Text(text)
    ensures !error.Str? && !(Get(error, "message").Some? && Get(error, "message").value.Str?) ==>
              ParseMessage(v).value.message == Rendered(error)
  {
  }

  function Members(v: Json): set<string> {
    if v.Obj? then v.fields.Keys else {}
  }

  /** Sections 4 and 5 of JSON-RPC 2.0: the version, and which members an envelope has. */
  lemma EnvelopesConform(id: I64, name: string, payload: Json, code: I64, message: string)
    ensures forall v | v in {RequestValue(id, name, payload), ResultValue(id, payload), ErrorValue(id, code, message),
                             ChatEventValue(id, payload)} :: Get(v, "jsonrpc") == Some(Str("2.0"))
    ensures Members(RequestValue(id, name, payload)) == {"jsonrpc", "id", "method", "params"}
    ensures Members(ChatEventValue(id, payload)) == {"jsonrpc", "method", "params"}
    ensures Members(ResultValue(id, payload)) == {"jsonrpc", "id", "result"}
    ensures Members(ErrorValue(id, code, message)) == {"jsonrpc", "id", "error"}
    ensures Get(ErrorValue(id, code, message), "error") ==
              Some(Obj(map["code" := Int(code), "message" := Str(message)]))
  {
  }

  // ---- lines --------------------------------------------------------------------------------

  /** A line of input as the JSON reader sees it after trimming. */
  datatype Line = Blank | Malformed(message: string) | Parsed(value: Json)

  datatype ReadJson = Value(value: Json) | Invalid(message: string) | Eof

  /** Reading past the last line is the end of input, or an I/O error if the input breaks off. */
  class LineReader {
    var lines: seq<Line>
    const breaksOff: bool

    constructor (lines: seq<Line>, breaksOff: bool)
      ensures this.lines == lines && this.breaksOff == breaksOff
    {
      this.lines, this.breaksOff := lines, breaksOff;
    }
  }

  function SkipBlanks(lines: seq<Line>): (rest: seq<Line>)
    ensures |rest| <= |lines| && (rest != [] ==> !rest[0].Blank?)
  {
    if lines == [] || !lines[0].Blank? then lines else SkipBlanks(lines[1..])
  }

  /** `read_json_line`: `None` is an I/O error. */
  method ReadJsonLine(reader: LineReader) returns (read: Option<ReadJson>)
    modifies reader
    ensures var rest := SkipBlanks(old(reader.lines));
            if rest == [] then reader.lines == [] && read == if reader.breaksOff then None else Some(Eof)
            else
              && reader.lines == rest[1..]
              && read == Some(if rest[0].Parsed? then Value(rest[0].value) else Invalid(rest[0].message))
  {
    while true
      invariant SkipBlanks(reader.lines) == SkipBlanks(old(reader.lines))
      decreases |reader.lines|
    {
      if reader.lines == [] {
        return if reader.breaksOff then None else Some(Eof);
      }
      var line := reader.lines[0];
      reader.lines := reader.lines[1..];
      match line
      case Blank =>
      case Malformed(message) => return Some(Invalid(message));
      case Parsed(value) => return Some(Value(value));
    }
  }

  /** What has been written, and how many more lines the writer takes before it fails. */
  datatype Output = Output(lines: seq<Json>, patience: nat)

  class LineWriter {
    var lines: seq<Json>
    var patience: nat

    constructor (patience: nat)
      ensures lines == [] && this.patience == patience
    {
      lines, this.patience := [], patience;
    }

    function Contents(): Output
      reads this
    {
      Output(lines, patience)
    }
  }

  /** All of `messages` was written in order, or a prefix of it before the writer failed. */
  predicate Wrote(before: Output, messages: seq<Json>, ok: bool, after: Output) {
    var n := if before.patience < |messages| then before.patience else |messages|;
    && (ok <==> before.patience >= |messages|)
    && after == Output(before.lines + messages[..n], before.patience - n)
  }

  method WriteJsonLine(writer: LineWriter, value: Json) returns (ok: bool)
    modifies writer
    ensures Wrote(old(writer.Contents()), [value], ok, writer.Contents())
  {
    ok := writer.patience > 0;
    if ok {
      writer.lines := writer.lines + [value];
      writer.patience := writer.patience - 1;
    }
  }

  lemma WroteBoth(a: Output, first: seq<Json>, b: Output, second: seq<Json>, ok: bool, c: Output)
    requires Wrote(a, first, true, b) && Wrote(b, second, ok, c)
    ensures Wrote(a, first + second, ok, c)
  {
  }

  lemma WroteFailed(a: Output, first: seq<Json>, b: Output, second: seq<Json>)
    requires Wrote(a, first, false, b)
    ensures Wrote(a, first + second, false, b)
  {
  }

  /** One more message of `all` after the first `n`. */
  lemma WroteNext(a: Output, all: seq<Json>, n: nat, b: Output, ok: bool, c: Output)
    requires n < |all| && Wrote(a, all[..n], true, b) && Wrote(b, [all[n]], ok, c)
    ensures if ok then Wrote(a, all[..n + 1], true, c) else Wrote(a, all, false, c)
  {
  }
}

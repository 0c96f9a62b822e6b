/**
 * The chat proxy route (app/api/chat/route.ts): it checks the request, forwards
 * the last user message to the backend's streaming endpoint, and rewrites the
 * backend's Server-Sent Events into the line-oriented frames of the AI SDK
 * data stream: `0:` text deltas, `3:` errors and a `d:` finish frame.
 */
module ChatRoute {
  import opened Wrappers
  import opened JsValue
  import opened Http
  import Seqs
  import JsonText
  import SseLines

  /** `String.prototype.trim`'s white space and line terminators. */
  predicate IsJsSpace(c: char) {
    c == '\t' || c == '\n' || c == '\U{B}' || c == '\U{C}' || c == '\r' || c == ' ' || c == '\U{A0}'
    || c == '\U{1680}' || ('\U{2000}' <= c <= '\U{200A}') || c == '\U{2028}' || c == '\U{2029}'
    || c == '\U{202F}' || c == '\U{205F}' || c == '\U{3000}' || c == '\U{FEFF}'
  }

  function TrimStart(s: string): (r: string)
    ensures |r| <= |s| && r == s[|s| - |r|..]
    ensures r == [] || !IsJsSpace(r[0])
    ensures forall i :: 0 <= i < |s| - |r| ==> IsJsSpace(s[i])
  {
    if s != [] && IsJsSpace(s[0]) then
      var r := TrimStart(s[1..]);
      SpaceBefore(s, r);
      r
    else s
  }

  /** A leading space is cut along with what `TrimStart` cuts after it. */
  lemma SpaceBefore(s: string, r: string)
    requires s != [] && IsJsSpace(s[0])
    requires |r| <= |s| - 1 && r == s[1..][|s| - 1 - |r|..]
    requires forall i :: 0 <= i < |s| - 1 - |r| ==> IsJsSpace(s[1..][i])
    ensures r == s[|s| - |r|..]
    ensures forall i :: 0 <= i < |s| - |r| ==> IsJsSpace(s[i])
  {
    forall i | 0 <= i < |s| - |r| ensures IsJsSpace(s[i]) {
      if i > 0 { assert s[i] == s[1..][i - 1]; }
    }
  }

  function TrimEnd(s: string): (r: string)
    ensures |r| <= |s| && r == s[..|r|]
    ensures r == [] || !IsJsSpace(r[|r| - 1])
    ensures forall i :: |r| <= i < |s| ==> IsJsSpace(s[i])
  {
    if s != [] && IsJsSpace(s[|s| - 1]) then
      var r := TrimEnd(s[..|s| - 1]);
      SpaceAfter(s, s[..|s| - 1], r);
      r
    else s
  }

  /** A trailing space is cut along with what `TrimEnd` cuts before it. */
  lemma SpaceAfter(s: string, init: string, r: string)
    requires s != [] && IsJsSpace(s[|s| - 1]) && init == s[..|s| - 1]
    requires |r| <= |init| && r == init[..|r|]
    requires forall i :: |r| <= i < |init| ==> IsJsSpace(init[i])
    ensures r == s[..|r|]
    ensures forall i :: |r| <= i < |s| ==> IsJsSpace(s[i])
  {
    forall i | |r| <= i < |s| ensures IsJsSpace(s[i]) {
      if i < |s| - 1 { assert s[i] == init[i]; }
    }
  }

  function Trim(s: string): string {
    TrimEnd(TrimStart(s))
  }

  /** `s.substring(0, n)`. */
  function Prefix(s: string, n: nat): string {
    if |s| <= n then s else s[..n]
  }

  const DoneFrame := "d:{\"finishReason\":\"stop\"}\n"

  /** `0:` followed by the text as a JSON string: a string content as it is, anything else through `String(...)`. */
  function ContentText(content: Option<Json>): string {
    if IsString(content) then content.value.s else ToJsString(content)
  }

  /** A string error as it is (even an empty one); otherwise `String(error || "Unknown error")`. */
  function ErrorText(error: Option<Json>): string {
    if IsString(error) then error.value.s
    else if Truthy(error) then ToJsString(error)
    else "Unknown error"
  }

  function ParseErrorFrame(data: string): string {
    "3:" + JsonText.Quote("Parse error: " + Prefix(data, 100)) + "\n"
  }

  /** The frames for one parsed backend event, chosen by its `type`; `start` and unknown types give none. */
  function EventFrames(v: Json): seq<string> {
    var t := Field(v, "type");
    if t == Some(JStr("content")) then ["0:" + JsonText.Quote(ContentText(Field(v, "content"))) + "\n"]
    else if t == Some(JStr("done")) then [DoneFrame]
    else if t == Some(JStr("error")) then ["3:" + JsonText.Quote(ErrorText(Field(v, "error"))) + "\n"]
    else []
  }

  /**
   * The frames for one backend line. Only `data: ` lines count; the payload is
   * trimmed and skipped when empty. A payload that does not parse, or parses
   * to null (reading `type` of null throws into the same handler), becomes a
   * parse-error frame quoting its first 100 characters.
   */
  function LineFrames(line: string, parse: string -> Option<Json>): seq<string> {
    if !("data: " <= line) then []
    else
      var data := Trim(line[6..]);
      if data == "" then []
      else
        match parse(data)
        case None => [ParseErrorFrame(data)]
        case Some(JNull) => [ParseErrorFrame(data)]
        case Some(v) => EventFrames(v)
  }

  function FrameHandler(parse: string -> Option<Json>): string -> seq<string> {
    line => LineFrames(line, parse)
  }

  /** A frame is one line of the data stream, tagged as text, error or finish. */
  predicate IsFrame(f: string) {
    |f| >= 3 && f[|f| - 1] == '\n' && '\n' !in f[..|f| - 1] && f[1] == ':' && f[0] in "03d"
  }

  /** A text or error frame: a tag, then a JSON string, then the newline. */
  lemma QuotedFrame(tag: string, text: string)
    requires tag == "0:" || tag == "3:"
    ensures IsFrame(tag + JsonText.Quote(text) + "\n")
  {
    var f := tag + JsonText.Quote(text) + "\n";
    assert f[..|f| - 1] == tag + JsonText.Quote(text);
  }

  lemma EventFramesAreFrames(v: Json)
    ensures forall i :: 0 <= i < |EventFrames(v)| ==> IsFrame(EventFrames(v)[i])
  {
    var t := Field(v, "type");
    if t == Some(JStr("content")) {
      QuotedFrame("0:", ContentText(Field(v, "content")));
    } else if t == Some(JStr("done")) {
      assert DoneFrame[..|DoneFrame| - 1] == "d:{\"finishReason\":\"stop\"}";
      assert '\n' !in DoneFrame[..|DoneFrame| - 1];
    } else if t == Some(JStr("error")) {
      QuotedFrame("3:", ErrorText(Field(v, "error")));
    }
  }

  lemma LineFramesAreFrames(line: string, parse: string -> Option<Json>)
    ensures forall i :: 0 <= i < |LineFrames(line, parse)| ==> IsFrame(LineFrames(line, parse)[i])
  {
    if "data: " <= line {
      var data := Trim(line[6..]);
      if data != "" {
        match parse(data)
        case None => QuotedFrame("3:", "Parse error: " + Prefix(data, 100));
        case Some(JNull) => QuotedFrame("3:", "Parse error: " + Prefix(data, 100));
        case Some(v) => EventFramesAreFrames(v);
      }
    }
  }

  /** Everything the transform emits is a sequence of whole frames. */
  lemma {:induction false} FramesAreLines(lines: seq<string>, parse: string -> Option<Json>)
    ensures forall i :: 0 <= i < |SseLines.FlatMap(lines, FrameHandler(parse))| ==>
      IsFrame(SseLines.FlatMap(lines, FrameHandler(parse))[i])
  {
    if lines != [] {
      FramesAreLines(lines[..|lines| - 1], parse);
      LineFramesAreFrames(lines[|lines| - 1], parse);
    }
  }

  /** A content event with string content reaches the client as that exact text. */
  lemma ContentFrameCarriesText(v: Json, text: string)
    requires Field(v, "type") == Some(JStr("content")) && Field(v, "content") == Some(JStr(text))
    ensures |EventFrames(v)| == 1
    ensures var f := EventFrames(v)[0];
      |f| >= 3 && f[..2] == "0:" && JsonText.Unquote(f[2..|f| - 1]) == Some(text)
  {
    var f := EventFrames(v)[0];
    assert f == "0:" + JsonText.Quote(text) + "\n";
    assert f[2..|f| - 1] == JsonText.Quote(text);
    JsonText.QuoteRoundTrip(text);
  }

  /** An error event's message: strings pass through even when empty; falsy non-strings become "Unknown error". */
  lemma ErrorTextDefaults(s: string)
    ensures ErrorText(None) == "Unknown error"
    ensures ErrorText(Some(JNull)) == "Unknown error"
    ensures ErrorText(Some(JNum(0))) == "Unknown error"
    ensures ErrorText(Some(JBool(false))) == "Unknown error"
    ensures ErrorText(Some(JStr(s))) == s
  {
  }

  /** A payload that is not JSON yields one error frame quoting at most 100 of its characters. */
  lemma ParseErrorQuotesPrefix(line: string, parse: string -> Option<Json>)
    requires "data: " <= line && Trim(line[6..]) != [] && parse(Trim(line[6..])).None?
    ensures |LineFrames(line, parse)| == 1
    ensures var f := LineFrames(line, parse)[0];
      var data := Trim(line[6..]);
      f[..2] == "3:" && JsonText.Unquote(f[2..|f| - 1]) == Some("Parse error: " + Prefix(data, 100))
      && |Prefix(data, 100)| <= 100 && data == Prefix(data, 100) + data[|Prefix(data, 100)|..]
  {
    var data := Trim(line[6..]);
    assert LineFrames(line, parse) == [ParseErrorFrame(data)];
    ParseErrorFrameQuotes(data);
    PrefixThenRest(data, 100);
  }

  lemma ParseErrorFrameQuotes(data: string)
    ensures var f := ParseErrorFrame(data);
      f[..2] == "3:" && JsonText.Unquote(f[2..|f| - 1]) == Some("Parse error: " + Prefix(data, 100))
  {
    var msg := "Parse error: " + Prefix(data, 100);
    var f := ParseErrorFrame(data);
    assert f[2..|f| - 1] == JsonText.Quote(msg);
    JsonText.QuoteRoundTrip(msg);
  }

  lemma PrefixThenRest(s: string, n: nat)
    ensures |Prefix(s, n)| <= n && s == Prefix(s, n) + s[|Prefix(s, n)|..]
  {
  }

  /** The transform's read loop: the frames depend only on the concatenated body text. */
  method TransformStream(chunks: seq<string>, parse: string -> Option<Json>) returns (frames: seq<string>)
    ensures frames == SseLines.Output(Seqs.Concat(chunks), FrameHandler(parse))
  {
    var buffer := "";
    frames := [];
    var i := 0;
    while i < |chunks|
      invariant 0 <= i <= |chunks|
      invariant buffer == SseLines.Pending(Seqs.Concat(chunks[..i]))
      invariant frames == SseLines.Output(Seqs.Concat(chunks[..i]), FrameHandler(parse))
    {
      ghost var read := Seqs.Concat(chunks[..i]);
      Seqs.ConcatStep(chunks, i);
      SseLines.ChunkStep(read, chunks[i]);
      buffer := buffer + chunks[i];
      var lines := SseLines.Split(buffer);
      var complete := lines[..|lines| - 1];
      buffer := lines[|lines| - 1];
      SseLines.FlatMapAppend(SseLines.CompleteLines(read), complete, FrameHandler(parse));
      var emitted := TransformLines(complete, parse);
      frames := frames + emitted;
      i := i + 1;
    }
    assert chunks[..i] == chunks;
  }

  method TransformLines(lines: seq<string>, parse: string -> Option<Json>) returns (frames: seq<string>)
    ensures frames == SseLines.FlatMap(lines, FrameHandler(parse))
  {
    frames := [];
    var j := 0;
    while j < |lines|
      invariant 0 <= j <= |lines|
      invariant frames == SseLines.FlatMap(lines[..j], FrameHandler(parse))
    {
      SseLines.FlatMapStep(lines, j, FrameHandler(parse));
      var out := FrameHandler(parse)(lines[j]);
      frames := frames + out;
      j := j + 1;
    }
    assert lines[..j] == lines;
  }

  /** Whether the request may go to the backend, and with which message. */
  datatype Admission = Rejected(reply: Reply) | Admitted(userMessage: Json)

  /** `messages[messages.length - 1]` for the values that have a length: arrays and strings. */
  function LastElement(messages: Json): Option<Json> {
    match messages
    case JArr(items) => if items == [] then None else Some(items[|items| - 1])
    case JStr(s) => if s == [] then None else Some(JStr([s[|s| - 1]]))
    case _ => None
  }

  /**
   * The checks before the backend call. A body that failed to parse, or is
   * null, ends in the route's catch-all 500; missing `messages` or `userId`
   * is a 400; so is a last message that is not a user message.
   */
  function Admit(body: Body): (r: Admission)
    ensures body.Thrown? ==> r == Rejected(InternalError(body.message))
    ensures body.Parsed? && body.value.JNull? ==> r == Rejected(InternalError(NullBodyMessage))
    ensures (body.Parsed? && !body.value.JNull?
      && (!Truthy(Field(body.value, "messages")) || !Truthy(Field(body.value, "userId")))) ==>
        r == Rejected(ErrorReply(400, "Error, missing information"))
    ensures r.Admitted? <==>
      body.Parsed? && Truthy(Field(body.value, "userId"))
      && var ms := Field(body.value, "messages");
      ms.Some? && ms.value.JArr? && ms.value.items != []
      && Field(ms.value.items[|ms.value.items| - 1], "role") == Some(JStr("user"))
    ensures r.Admitted? ==> r.userMessage == Field(body.value, "messages").value.items[|Field(body.value, "messages").value.items| - 1]
    ensures r.Rejected? && body.Parsed? && !body.value.JNull? ==> r.reply.status == 400
  {
    match body
    case Thrown(message) => Rejected(InternalError(message))
    case Parsed(request) =>
      if request.JNull? then Rejected(InternalError(NullBodyMessage))
      else
        var messages := Field(request, "messages");
        if !Truthy(messages) || !Truthy(Field(request, "userId")) then
          Rejected(ErrorReply(400, "Error, missing information"))
        else
          var userMessage := LastElement(messages.value);
          if !Truthy(userMessage) || Field(userMessage.value, "role") != Some(JStr("user")) then
            Rejected(ErrorReply(400, "Invalid message"))
          else Admitted(userMessage.value)
  }

  /** The request sent to the backend's stream endpoint. */
  datatype BackendCall = BackendCall(authorization: Option<string>, body: Json)

  /** Adds `name` to an object unless the value is `undefined` (which `JSON.stringify` omits). */
  function WithOptional(fields: map<string, Json>, name: string, value: Option<Json>): map<string, Json> {
    if value.Some? then fields[name := value.value] else fields
  }

  /**
   * The backend request: the message content and model when present,
   * context on with at most 10 messages, the chat id only when truthy, and
   * the caller's authorization header only when non-empty.
   */
  function BackendRequest(request: Json, userMessage: Json, authorization: Option<string>): (r: BackendCall)
    ensures r.body.JObj?
    ensures "include_context" in r.body.fields && r.body.fields["include_context"] == JBool(true)
    ensures "max_context_messages" in r.body.fields && r.body.fields["max_context_messages"] == JNum(10)
    ensures ("message" in r.body.fields <==> Field(userMessage, "content").Some?)
      && ("message" in r.body.fields ==> Some(r.body.fields["message"]) == Field(userMessage, "content"))
    ensures ("model" in r.body.fields <==> Field(request, "model").Some?)
      && ("model" in r.body.fields ==> Some(r.body.fields["model"]) == Field(request, "model"))
    ensures ("chat_id" in r.body.fields <==> Truthy(Field(request, "chatId")))
      && ("chat_id" in r.body.fields ==> Some(r.body.fields["chat_id"]) == Field(request, "chatId"))
    ensures r.body.fields.Keys <= {"message", "model", "include_context", "max_context_messages", "chat_id"}
    ensures r.authorization.Some? <==> authorization.Some? && authorization.value != ""
    ensures r.authorization.Some? ==> r.authorization == authorization
  {
    var chatId := Field(request, "chatId");
    var fields := map["include_context" := JBool(true), "max_context_messages" := JNum(10)];
    var fields := WithOptional(fields, "message", Field(userMessage, "content"));
    var fields := WithOptional(fields, "model", Field(request, "model"));
    var fields := WithOptional(fields, "chat_id", if Truthy(chatId) then chatId else None);
    BackendCall(if authorization.Some? && authorization.value != "" then authorization else None, JObj(fields))
  }

  /** What the backend call produced: a response, or the message of the error `fetch` threw. */
  datatype Backend =
    | Answer(ok: bool, status: int, statusText: string, body: Option<seq<string>>)
    | Unreachable(message: string)

  /** The route's reply: a JSON error, or the rewritten event stream. */
  datatype Outcome = JsonReply(reply: Reply) | EventStream(frames: seq<string>)

  /**
   * POST /api/chat. `authorization` is the incoming header, `backend` what the
   * backend answers when called (consulted only when `sent` is present).
   */
  method Post(body: Body, authorization: Option<string>, backend: Backend, parse: string -> Option<Json>)
    returns (outcome: Outcome, sent: Option<BackendCall>)
    ensures Admit(body).Rejected? ==> outcome == JsonReply(Admit(body).reply) && sent.None?
    ensures Admit(body).Admitted? ==> sent == Some(BackendRequest(body.value, Admit(body).userMessage, authorization))
    ensures sent.Some? && backend.Unreachable? ==> outcome == JsonReply(InternalError(backend.message))
    ensures sent.Some? && backend.Answer? && !backend.ok ==>
      outcome == JsonReply(ErrorReply(backend.status, "Backend error: " + backend.statusText))
    ensures sent.Some? && backend.Answer? && backend.ok && backend.body.None? ==>
      outcome == JsonReply(ErrorReply(500, "No response body"))
    ensures sent.Some? && backend.Answer? && backend.ok && backend.body.Some? ==>
      outcome == EventStream(SseLines.Output(Seqs.Concat(backend.body.value), FrameHandler(parse)))
  {
    var admission := Admit(body);
    if admission.Rejected? {
      return JsonReply(admission.reply), None;
    }
    sent := Some(BackendRequest(body.value, admission.userMessage, authorization));
    match backend
    case Unreachable(message) =>
      outcome := JsonReply(InternalError(message));
    case Answer(ok, status, statusText, stream) =>
      if !ok {
        outcome := JsonReply(ErrorReply(status, "Backend error: " + statusText));
      } else if stream.None? {
        outcome := JsonReply(ErrorReply(500, "No response body"));
      } else {
        var frames := TransformStream(stream.value, parse);
        outcome := EventStream(frames);
      }
  }
}

/**
 * The backend client (lib/polymind/api.ts): how `polymindFetch` builds the
 * headers and the URL of every backend call, the `getChats` query, and the
 * reader loop of `streamChatResponse` that turns the `data: ` lines of a
 * Server-Sent Events body into parsed events.
 */
module PolymindApi {
  import opened Wrappers
  import opened JsValue
  import Seqs
  import Text
  import UriCodec
  import SseLines

  /** Headers of an outgoing request: names mapped to values. */
  type Headers = map<string, string>

  /**
   * `polymindFetch`: starts from a JSON content type, lets the caller's
   * headers override it, and authenticates with the init data as
   * `Authorization: tma <initData>`; without init data it falls back to the
   * `user_id` parameter of the page's own URL, appended percent-encoded.
   * `pageUserId` is that parameter (None when there is no page or no such
   * parameter).
   */
  method BuildRequest(endpoint: string, callerHeaders: Headers, initData: string, baseUrl: string,
                      pageUserId: Option<string>)
    returns (url: string, headers: Headers)
    ensures headers.Keys == callerHeaders.Keys + {"Content-Type"} + (if initData != "" then {"Authorization"} else {})
    ensures headers["Content-Type"] == if "Content-Type" in callerHeaders then callerHeaders["Content-Type"] else "application/json"
    ensures initData != "" ==> headers["Authorization"] == "tma " + initData
    ensures forall k :: k in callerHeaders && k != "Authorization" ==> headers[k] == callerHeaders[k]
    ensures initData == "" && "Authorization" in callerHeaders ==> headers["Authorization"] == callerHeaders["Authorization"]
    ensures var target := Target(endpoint, baseUrl);
      if initData == "" && pageUserId.Some? && pageUserId.value != "" then
        url == target + (if '?' in target then "&" else "?") + "user_id=" + UriCodec.Encode(pageUserId.value)
      else url == target
  {
    headers := map["Content-Type" := "application/json"] + callerHeaders;
    if initData != "" {
      headers := headers["Authorization" := "tma " + initData];
    }
    url := if "http" <= endpoint then endpoint else baseUrl + endpoint;
    if initData == "" {
      if pageUserId.Some? && pageUserId.value != "" {
        var separator := if '?' in url then "&" else "?";
        url := url + separator + "user_id=" + UriCodec.Encode(pageUserId.value);
      }
    }
  }

  /** An absolute endpoint is used as it is; a path is put after the base URL. */
  function Target(endpoint: string, baseUrl: string): string {
    if "http" <= endpoint then endpoint else baseUrl + endpoint
  }

  /**
   * The fallback parameter is a single query value: it holds no delimiter and
   * decodes back to the page's user id.
   */
  lemma UserIdParameterRoundTrip(userId: string)
    ensures UriCodec.Decode(UriCodec.Encode(userId)) == Some(userId)
    ensures forall i :: 0 <= i < |UriCodec.Encode(userId)| ==> UriCodec.Encode(userId)[i] !in "&?#="
  {
    UriCodec.DecodeEncode(userId);
    UriCodec.EncodeHasNoDelimiters(userId);
  }

  /** `getChats`: the listing path with `limit` (default 50) and `offset` (default 0); 0 counts as absent. */
  function ChatsEndpoint(limit: Option<int>, offset: Option<int>): (r: string)
    ensures "/webapp/chats?limit=" <= r && '?' !in r[14..]
  {
    var l := if limit.Some? && limit.value != 0 then limit.value else 50;
    var o := if offset.Some? && offset.value != 0 then offset.value else 0;
    var ls, os := Text.IntToString(l), Text.IntToString(o);
    NoQuestionMark(ls);
    NoQuestionMark(os);
    QueryShape(ls, os);
    "/webapp/chats?limit=" + ls + "&offset=" + os
  }

  lemma NoQuestionMark(s: string)
    requires forall i :: 0 <= i < |s| ==> Text.IsDigit(s[i]) || s[i] == '-'
    ensures '?' !in s
  {
  }

  lemma QueryShape(ls: string, os: string)
    requires '?' !in ls && '?' !in os
    ensures var r := "/webapp/chats?limit=" + ls + "&offset=" + os;
      "/webapp/chats?limit=" <= r && '?' !in r[14..]
  {
    var r := "/webapp/chats?limit=" + ls + "&offset=" + os;
    assert r[14..] == "limit=" + ls + "&offset=" + os;
  }

  lemma ChatsEndpointDefaults(l: int, o: int)
    requires l != 0
    ensures ChatsEndpoint(None, None) == "/webapp/chats?limit=50&offset=0"
    ensures ChatsEndpoint(Some(0), Some(0)) == ChatsEndpoint(None, None)
    ensures ChatsEndpoint(Some(l), Some(o)) == "/webapp/chats?limit=" + Text.IntToString(l) + "&offset=" + Text.IntToString(o)
  {
    assert Text.NatToString(5) == "5";
    assert Text.NatToString(50) == Text.NatToString(5) + "0";
    assert Text.NatToString(0) == "0";
  }

  /** What one line of the body yields: the parsed payload of a `data: ` line, if it parses. */
  function DataEvent(line: string, parse: string -> Option<Json>): (r: seq<Json>)
    ensures |r| <= 1
    ensures |r| == 1 ==> "data: " <= line && parse(line[6..]) == Some(r[0])
  {
    if "data: " <= line then
      match parse(line[6..])
      case Some(v) => [v]
      case None => []
    else []
  }

  function EventHandler(parse: string -> Option<Json>): string -> seq<Json> {
    line => DataEvent(line, parse)
  }

  /**
   * The reader loop: append each chunk to the buffer, handle every complete
   * line, keep the unterminated rest. What it yields depends only on the
   * concatenated text, not on where the chunks were cut.
   */
  method ReadEvents(chunks: seq<string>, parse: string -> Option<Json>) returns (events: seq<Json>)
    ensures events == SseLines.Output(Seqs.Concat(chunks), EventHandler(parse))
  {
    var buffer := "";
    events := [];
    var i := 0;
    while i < |chunks|
      invariant 0 <= i <= |chunks|
      invariant buffer == SseLines.Pending(Seqs.Concat(chunks[..i]))
      invariant events == SseLines.Output(Seqs.Concat(chunks[..i]), EventHandler(parse))
    {
      ghost var read := Seqs.Concat(chunks[..i]);
      Seqs.ConcatStep(chunks, i);
      SseLines.ChunkStep(read, chunks[i]);
      buffer := buffer + chunks[i];
      var lines := SseLines.Split(buffer);
      var complete := lines[..|lines| - 1];
      buffer := lines[|lines| - 1];
      SseLines.FlatMapAppend(SseLines.CompleteLines(read), complete, EventHandler(parse));
      var emitted := HandleLines(complete, parse);
      events := events + emitted;
      i := i + 1;
    }
    assert chunks[..i] == chunks;
  }

  /** The inner loop of the reader: every complete line in order. */
  method HandleLines(lines: seq<string>, parse: string -> Option<Json>) returns (events: seq<Json>)
    ensures events == SseLines.FlatMap(lines, EventHandler(parse))
  {
    events := [];
    var j := 0;
    while j < |lines|
      invariant 0 <= j <= |lines|
      invariant events == SseLines.FlatMap(lines[..j], EventHandler(parse))
    {
      SseLines.FlatMapStep(lines, j, EventHandler(parse));
      var line := lines[j];
      if "data: " <= line {
        var parsed := parse(line[6..]);
        if parsed.Some? {
          events := events + [parsed.value];
        }
      }
      j := j + 1;
    }
    assert lines[..j] == lines;
  }

  datatype StreamResponse = StreamResponse(ok: bool, statusText: string, body: Option<seq<string>>)

  /** `streamChatResponse`: a failed response or a missing body throws before any event. */
  method StreamChatResponse(response: StreamResponse, parse: string -> Option<Json>)
    returns (r: Result<seq<Json>>)
    ensures !response.ok ==> r == Failure("Stream failed: " + response.statusText)
    ensures response.ok && response.body.None? ==> r == Failure("Response body is null")
    ensures response.ok && response.body.Some? ==>
      r == Success(SseLines.Output(Seqs.Concat(response.body.value), EventHandler(parse)))
  {
    if !response.ok {
      return Failure("Stream failed: " + response.statusText);
    }
    if response.body.None? {
      return Failure("Response body is null");
    }
    var events := ReadEvents(response.body.value, parse);
    r := Success(events);
  }

  /** A line whose payload does not parse, or that is not a data line, yields nothing and stops nothing. */
  lemma SkippedLine(before: seq<string>, line: string, after: seq<string>, parse: string -> Option<Json>)
    requires !("data: " <= line) || parse(line[6..]).None?
    ensures SseLines.FlatMap(before + [line] + after, EventHandler(parse))
         == SseLines.FlatMap(before, EventHandler(parse)) + SseLines.FlatMap(after, EventHandler(parse))
  {
    SseLines.FlatMapAppend(before + [line], after, EventHandler(parse));
    SseLines.FlatMapAppend(before, [line], EventHandler(parse));
    assert SseLines.FlatMap([line], EventHandler(parse)) == SseLines.FlatMap([], EventHandler(parse)) + DataEvent(line, parse);
  }

  /**
   * Two data lines, each followed by an empty line, yield exactly their two
   * payloads in order.
   */
  lemma TwoEventBody(p1: string, p2: string, parse: string -> Option<Json>)
    requires '\n' !in p1 && '\n' !in p2
    requires parse(p1).Some? && parse(p2).Some?
    ensures SseLines.Output("data: " + p1 + "\n\n" + "data: " + p2 + "\n\n", EventHandler(parse))
         == [parse(p1).value, parse(p2).value]
  {
    var l1 := "data: " + p1;
    var l3 := "data: " + p2;
    var lines := [l1, "", l3, ""];
    FourLinesText(l1, l3);
    assert "data: " + p1 + "\n\n" + "data: " + p2 + "\n\n" == l1 + "\n\n" + l3 + "\n\n";
    assert '\n' !in l1 && '\n' !in l3;
    SseLines.TerminatedLines(lines);
    DataLine(p1, parse);
    DataLine(p2, parse);
    FourLinesEvents(l1, l3, EventHandler(parse));
  }

  lemma DataLine(p: string, parse: string -> Option<Json>)
    requires parse(p).Some?
    ensures EventHandler(parse)("data: " + p) == [parse(p).value]
  {
    assert ("data: " + p)[6..] == p;
  }

  lemma FourLinesText(l1: string, l3: string)
    ensures SseLines.Terminated([l1, "", l3, ""]) == l1 + "\n\n" + l3 + "\n\n"
  {
    var lines := [l1, "", l3, ""];
    assert lines[..3] == [l1, "", l3] && lines[..3][..2] == [l1, ""] && lines[..3][..2][..1] == [l1];
    assert lines[..3][..2][..1][..0] == [];
    assert SseLines.Terminated([l1]) == l1 + "\n";
    assert SseLines.Terminated([l1, ""]) == l1 + "\n" + "\n";
    assert SseLines.Terminated([l1, "", l3]) == l1 + "\n" + "\n" + l3 + "\n";
  }

  lemma FourLinesEvents<U>(l1: string, l3: string, handle: string -> seq<U>)
    requires handle("") == []
    ensures SseLines.FlatMap([l1, "", l3, ""], handle) == handle(l1) + handle(l3)
  {
    var lines := [l1, "", l3, ""];
    assert lines[..3] == [l1, "", l3] && lines[..3][..2] == [l1, ""] && lines[..3][..2][..1] == [l1];
    assert lines[..3][..2][..1][..0] == [];
    assert SseLines.FlatMap([l1], handle) == handle(l1);
    assert SseLines.FlatMap([l1, ""], handle) == handle(l1);
    assert SseLines.FlatMap([l1, "", l3], handle) == handle(l1) + handle(l3);
  }
}

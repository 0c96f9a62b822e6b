/**
 * The JavaScript values the route handlers and stream transforms receive from
 * `JSON.parse`, with the few language operations the source applies to them:
 * truthiness, property reads, `typeof` tests and `String(...)`. A property that
 * is absent reads as `undefined`, written `None`. Numbers are whole numbers.
 */
module JsValue {
  import opened Wrappers
  import Text

  datatype Json =
    | JNull
    | JBool(b: bool)
    | JNum(n: int)
    | JStr(s: string)
    | JArr(items: seq<Json>)
    | JObj(fields: map<string, Json>)

  /** JavaScript truthiness of a value that may be `undefined`. */
  predicate Truthy(v: Option<Json>) {
    match v
    case None => false
    case Some(JNull) => false
    case Some(JBool(b)) => b
    case Some(JNum(n)) => n != 0
    case Some(JStr(s)) => s != ""
    case Some(JArr(_)) => true
    case Some(JObj(_)) => true
  }

  /**
   * Reading a named property of a value that is not null. Only objects have
   * the (non-numeric, non-`length`) properties the source reads.
   */
  function Field(v: Json, name: string): (r: Option<Json>)
    ensures r.Some? <==> v.JObj? && name in v.fields
  {
    if v.JObj? && name in v.fields then Some(v.fields[name]) else None
  }

  predicate IsString(v: Option<Json>) { v.Some? && v.value.JStr? }

  /** `String(v)`; arrays join their elements with "," and show null or undefined as "". */
  function ToJsString(v: Option<Json>): string {
    match v
    case None => "undefined"
    case Some(j) => JsonToString(j)
  }

  function JsonToString(j: Json): string
    decreases j
  {
    match j
    case JNull => "null"
    case JBool(b) => if b then "true" else "false"
    case JNum(n) => Text.IntToString(n)
    case JStr(s) => s
    case JArr(items) => JoinItems(items)
    case JObj(_) => "[object Object]"
  }

  function JoinItems(items: seq<Json>): string
    decreases items
  {
    if items == [] then ""
    else
      var head := if items[0].JNull? then "" else JsonToString(items[0]);
      if |items| == 1 then head else head + "," + JoinItems(items[1..])
  }

  lemma StringOfString(s: string)
    ensures ToJsString(Some(JStr(s))) == s
  {
  }
}

/** The JSON replies of the route handlers. */
module Http {
  import opened Wrappers
  import opened JsValue

  datatype Reply = Reply(status: int, body: Json)

  /** What `await request.json()` produced: a value, or the message of the error it threw. */
  datatype Body = Parsed(value: Json) | Thrown(message: string)

  /**
   * Message of the TypeError a destructuring assignment throws on a null
   * body; the engine's exact wording is not modelled.
   */
  const NullBodyMessage := "Cannot destructure properties of null"

  function ErrorReply(status: int, message: string): (r: Reply)
    ensures r.status == status && Field(r.body, "error") == Some(JStr(message))
  {
    Reply(status, JObj(map["error" := JStr(message)]))
  }

  /** `(err as Error).message || "Internal server error"`. */
  function InternalError(message: string): (r: Reply)
    ensures r.status == 500
  {
    ErrorReply(500, if message != "" then message else "Internal server error")
  }

  /** The message of whatever reading and destructuring the body threw. */
  function BodyError(body: Body): string
    requires body.Thrown? || body.value.JNull?
  {
    if body.Thrown? then body.message else NullBodyMessage
  }

  /**
   * Reading the body and destructuring it: the parsed value, or the message
   * of what was thrown (a parse error, or destructuring `null`).
   */
  function Destructured(body: Body): (r: Result<Json>)
    ensures r.Failure? <==> body.Thrown? || body.value.JNull?
    ensures r.Failure? ==> r.error == BodyError(body)
    ensures r.Success? ==> r.value == body.value
  {
    if body.Thrown? || body.value.JNull? then Failure(BodyError(body)) else Success(body.value)
  }

  /** The fixed reply of the handlers whose catch does not look at the error. */
  const ServerError := ErrorReply(500, "Internal server error")

  /** `{ success: <ok> }` with a 200 status. */
  function SuccessReply(ok: bool): (r: Reply)
    ensures r.status == 200 && Field(r.body, "success") == Some(JBool(ok))
  {
    Reply(200, JObj(map["success" := JBool(ok)]))
  }
}

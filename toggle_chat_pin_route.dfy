/** `/api/toggle-chat-pin` (app/api/toggle-chat-pin/route.ts): validation only; nothing is stored. */
module ToggleChatPinRoute {
  import opened Wrappers
  import opened JsValue
  import opened Http

  predicate Valid(request: Json) {
    Truthy(Field(request, "chatId")) && Field(request, "pinned").Some? && Field(request, "pinned").value.JBool?
  }

  function Post(body: Body): (r: Reply)
    ensures (body.Thrown? || body.value.JNull?) ==> r == ServerError
    ensures body.Parsed? && !body.value.JNull? && !Valid(body.value) ==> r == ErrorReply(400, "Missing chatId or pinned")
    ensures r.status == 200 <==> body.Parsed? && Valid(body.value)
    ensures r.status == 200 ==> r == SuccessReply(true)
  {
    match Destructured(body)
    case Failure(_) => ServerError
    case Success(request) =>
      if !Valid(request) then ErrorReply(400, "Missing chatId or pinned") else SuccessReply(true)
  }

  /** Unpinning is a valid request: `pinned: false` is a boolean. */
  lemma UnpinAccepted(chatId: string)
    requires chatId != ""
    ensures Post(Parsed(JObj(map["chatId" := JStr(chatId), "pinned" := JBool(false)]))).status == 200
  {
  }
}

/** `/api/update-chat-model` (app/api/update-chat-model/route.ts): validation only; nothing is stored. */
module UpdateChatModelRoute {
  import opened Wrappers
  import opened JsValue
  import opened Http

  function Post(body: Body): (r: Reply)
    ensures body.Thrown? ==> r == InternalError(body.message)
    ensures body.Parsed? && body.value.JNull? ==> r == InternalError(NullBodyMessage)
    ensures (body.Parsed? && !body.value.JNull?
      && (!Truthy(Field(body.value, "chatId")) || !Truthy(Field(body.value, "model")))) ==>
      r == ErrorReply(400, "Missing chatId or model")
    ensures r.status == 200 <==>
      body.Parsed? && Truthy(Field(body.value, "chatId")) && Truthy(Field(body.value, "model"))
    ensures r.status == 200 ==> r == SuccessReply(true)
  {
    match Destructured(body)
    case Failure(message) => InternalError(message)
    case Success(request) =>
      if !Truthy(Field(request, "chatId")) || !Truthy(Field(request, "model")) then
        ErrorReply(400, "Missing chatId or model")
      else SuccessReply(true)
  }
}

/** `/api/create-guest` (app/api/create-guest/route.ts): echoes the Telegram user id as a non-anonymous user. */
module CreateGuestRoute {
  import opened Wrappers
  import opened JsValue
  import opened Http

  function Post(body: Body): (r: Reply)
    ensures body.Thrown? ==> r == InternalError(body.message)
    ensures body.Parsed? && body.value.JNull? ==> r == InternalError(NullBodyMessage)
    ensures body.Parsed? && !body.value.JNull? && !Truthy(Field(body.value, "userId")) ==>
      r == ErrorReply(400, "Missing userId")
    ensures r.status == 200 <==> body.Parsed? && Truthy(Field(body.value, "userId"))
    ensures r.status == 200 ==>
      var user := Field(r.body, "user");
      user.Some? && Field(user.value, "id") == Field(body.value, "userId")
      && Field(user.value, "anonymous") == Some(JBool(false))
  {
    match Destructured(body)
    case Failure(message) => InternalError(message)
    case Success(request) =>
      var userId := Field(request, "userId");
      if !Truthy(userId) then ErrorReply(400, "Missing userId")
      else Reply(200, JObj(map["user" := JObj(map["id" := userId.value, "anonymous" := JBool(false)])]))
  }
}

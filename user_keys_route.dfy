/**
 * `/api/user-keys` (app/api/user-keys/route.ts): API keys are managed by the
 * backend, so valid requests are answered with `success: false` and nothing
 * is stored or deleted.
 */
module UserKeysRoute {
  import opened Wrappers
  import opened JsValue
  import opened Http

  function Declined(message: string): (r: Reply)
    ensures r.status == 200 && Field(r.body, "success") == Some(JBool(false))
    ensures Field(r.body, "message") == Some(JStr(message))
  {
    Reply(200, JObj(map["success" := JBool(false), "message" := JStr(message)]))
  }

  function Post(body: Body): (r: Reply)
    ensures (body.Thrown? || body.value.JNull?) ==> r == ServerError
    ensures (body.Parsed? && !body.value.JNull?
      && (!Truthy(Field(body.value, "provider")) || !Truthy(Field(body.value, "apiKey")))) ==>
      r == ErrorReply(400, "Provider and API key are required")
    ensures r.status == 200 <==>
      body.Parsed? && Truthy(Field(body.value, "provider")) && Truthy(Field(body.value, "apiKey"))
    ensures r.status == 200 ==> Field(r.body, "success") == Some(JBool(false))
  {
    match Destructured(body)
    case Failure(_) => ServerError
    case Success(request) =>
      if !Truthy(Field(request, "provider")) || !Truthy(Field(request, "apiKey")) then
        ErrorReply(400, "Provider and API key are required")
      else Declined("API keys are managed by Polymind. You don't need to provide your own keys.")
  }

  function Delete(body: Body): (r: Reply)
    ensures (body.Thrown? || body.value.JNull?) ==> r == ServerError
    ensures body.Parsed? && !body.value.JNull? && !Truthy(Field(body.value, "provider")) ==>
      r == ErrorReply(400, "Provider is required")
    ensures r.status == 200 <==> body.Parsed? && Truthy(Field(body.value, "provider"))
    ensures r.status == 200 ==> Field(r.body, "success") == Some(JBool(false))
  {
    match Destructured(body)
    case Failure(_) => ServerError
    case Success(request) =>
      if !Truthy(Field(request, "provider")) then ErrorReply(400, "Provider is required")
      else Declined("API keys are managed by Polymind backend.")
  }
}

/**
 * `/api/projects` (app/api/projects/route.ts): a project record is built and
 * returned but not stored, so the listing is always empty. The random id and
 * the current time are parameters.
 */
module ProjectsRoute {
  import opened Wrappers
  import opened JsValue
  import opened Http

  function Post(body: Body, uuid: string, now: string): (r: Reply)
    ensures body.Thrown? ==> r == InternalError(body.message)
    ensures body.Parsed? && body.value.JNull? ==> r == InternalError(NullBodyMessage)
    ensures body.Parsed? && !body.value.JNull? && !Truthy(Field(body.value, "name")) ==>
      r == ErrorReply(400, "Missing project name")
    ensures r.status == 200 <==> body.Parsed? && Truthy(Field(body.value, "name"))
    ensures r.status == 200 ==> (r.body.JObj? && r.body.fields.Keys == {"id", "name", "created_at"}
      && Field(r.body, "name") == Field(body.value, "name")
      && Field(r.body, "id") == Some(JStr(uuid)) && Field(r.body, "created_at") == Some(JStr(now)))
  {
    match Destructured(body)
    case Failure(message) => InternalError(message)
    case Success(request) =>
      var name := Field(request, "name");
      if !Truthy(name) then ErrorReply(400, "Missing project name")
      else Reply(200, JObj(map["id" := JStr(uuid), "name" := name.value, "created_at" := JStr(now)]))
  }

  function Get(): (r: Reply)
    ensures r.status == 200 && r.body == JArr([])
  {
    Reply(200, JArr([]))
  }
}

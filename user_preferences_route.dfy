/**
 * `/api/user-preferences` (app/api/user-preferences/route.ts): fixed defaults
 * on GET; on PUT two type checks and an echo of the fields that were sent.
 * Nothing is stored.
 */
module UserPreferencesRoute {
  import opened Wrappers
  import opened JsValue
  import opened Http

  const PreferenceFields := [
    "layout",
    "prompt_suggestions",
    "show_tool_invocations",
    "show_conversation_previews",
    "multi_model_enabled",
    "hidden_models"
  ]

  const DefaultPreferences := JObj(map[
    "layout" := JStr("fullscreen"),
    "prompt_suggestions" := JBool(true),
    "show_tool_invocations" := JBool(true),
    "show_conversation_previews" := JBool(true),
    "multi_model_enabled" := JBool(false),
    "hidden_models" := JArr([])
  ])

  function Get(): (r: Reply)
    ensures r.status == 200 && r.body.JObj? && r.body.fields.Keys == set f | f in PreferenceFields
    ensures Field(r.body, "layout") == Some(JStr("fullscreen"))
    ensures Field(r.body, "prompt_suggestions") == Some(JBool(true))
    ensures Field(r.body, "show_tool_invocations") == Some(JBool(true))
    ensures Field(r.body, "show_conversation_previews") == Some(JBool(true))
    ensures Field(r.body, "multi_model_enabled") == Some(JBool(false))
    ensures Field(r.body, "hidden_models") == Some(JArr([]))
  {
    Reply(200, DefaultPreferences)
  }

  /** The reply object: `success: true`, then each named field the request has, with its value. */
  function Echo(request: Json, names: seq<string>): (r: map<string, Json>)
    requires "success" !in names
    ensures r.Keys == {"success"} + set n | n in names && Field(request, n).Some?
    ensures r["success"] == JBool(true)
    ensures forall n :: n in names && Field(request, n).Some? ==> r[n] == Field(request, n).value
  {
    if names == [] then map["success" := JBool(true)]
    else
      var name := names[|names| - 1];
      var init := Echo(request, names[..|names| - 1]);
      assert forall n :: n in names ==> n in names[..|names| - 1] || n == name;
      if Field(request, name).Some? then init[name := Field(request, name).value] else init
  }

  predicate LayoutRejected(request: Json) {
    var layout := Field(request, "layout");
    Truthy(layout) && !IsString(layout)
  }

  predicate HiddenModelsRejected(request: Json) {
    var hidden := Field(request, "hidden_models");
    Truthy(hidden) && !hidden.value.JArr?
  }

  function Put(body: Body): (r: Reply)
    ensures (body.Thrown? || body.value.JNull?) ==> r == ServerError
    ensures body.Parsed? && !body.value.JNull? && LayoutRejected(body.value) ==>
      r == ErrorReply(400, "layout must be a string")
    ensures body.Parsed? && !body.value.JNull? && !LayoutRejected(body.value) && HiddenModelsRejected(body.value) ==>
      r == ErrorReply(400, "hidden_models must be an array")
    ensures r.status == 200 <==>
      body.Parsed? && !body.value.JNull? && !LayoutRejected(body.value) && !HiddenModelsRejected(body.value)
    ensures r.status == 200 ==> (
      r.body.JObj? && r.body.fields.Keys == {"success"} + set n | n in PreferenceFields && Field(body.value, n).Some?)
    ensures r.status == 200 ==> Field(r.body, "success") == Some(JBool(true))
    ensures r.status == 200 ==> (
      forall n :: n in PreferenceFields && Field(body.value, n).Some? ==> Field(r.body, n) == Field(body.value, n))
  {
    match Destructured(body)
    case Failure(_) => ServerError
    case Success(request) =>
      if LayoutRejected(request) then ErrorReply(400, "layout must be a string")
      else if HiddenModelsRejected(request) then ErrorReply(400, "hidden_models must be an array")
      else Reply(200, JObj(Echo(request, PreferenceFields)))
  }

  /** A falsy layout (for instance an empty string or null) is not a type error. */
  lemma FalsyLayoutAccepted(request: Json)
    requires request.JObj? && "layout" in request.fields && !Truthy(Some(request.fields["layout"]))
    ensures !LayoutRejected(request)
  {
  }
}

/** `/api/user-preferences/favorite-models` (app/api/user-preferences/favorite-models/route.ts). */
module FavoriteModelsRoute {
  import opened Wrappers
  import opened JsValue
  import opened Http

  predicate AllStrings(items: seq<Json>) {
    forall i :: 0 <= i < |items| ==> items[i].JStr?
  }

  /** `favorite_models.every(model => typeof model === "string")`, element by element. */
  function Every(items: seq<Json>): (r: bool)
    ensures r <==> AllStrings(items)
  {
    if items == [] then true else items[0].JStr? && Every(items[1..])
  }

  function Post(body: Body): (r: Reply)
    ensures (body.Thrown? || body.value.JNull?) ==> r == ServerError
    ensures body.Parsed? && !body.value.JNull? && !(Field(body.value, "favorite_models").Some? && Field(body.value, "favorite_models").value.JArr?) ==>
      r == ErrorReply(400, "favorite_models must be an array")
    ensures (body.Parsed? && Field(body.value, "favorite_models").Some? && Field(body.value, "favorite_models").value.JArr?
      && !AllStrings(Field(body.value, "favorite_models").value.items)) ==>
      r == ErrorReply(400, "All favorite_models must be strings")
    ensures r.status == 200 <==> (body.Parsed? && Field(body.value, "favorite_models").Some?
      && Field(body.value, "favorite_models").value.JArr? && AllStrings(Field(body.value, "favorite_models").value.items))
    ensures r.status == 200 ==> (Field(r.body, "success") == Some(JBool(true))
      && Field(r.body, "favorite_models") == Field(body.value, "favorite_models"))
  {
    match Destructured(body)
    case Failure(_) => ServerError
    case Success(request) =>
      var favorites := Field(request, "favorite_models");
      if !(favorites.Some? && favorites.value.JArr?) then ErrorReply(400, "favorite_models must be an array")
      else if !Every(favorites.value.items) then ErrorReply(400, "All favorite_models must be strings")
      else Reply(200, JObj(map["success" := JBool(true), "favorite_models" := favorites.value]))
  }

  function Get(): (r: Reply)
    ensures r.status == 200 && Field(r.body, "favorite_models") == Some(JArr([]))
  {
    Reply(200, JObj(map["favorite_models" := JArr([])]))
  }

  /** An empty list of favourites is accepted and echoed. */
  lemma EmptyFavoritesAccepted()
    ensures Post(Parsed(JObj(map["favorite_models" := JArr([])]))).status == 200
  {
    assert AllStrings([]);
  }
}

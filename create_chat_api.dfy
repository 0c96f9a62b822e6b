/**
 * `createChatInDb` (app/api/create-chat/api.ts): the usage gate, then a chat
 * record built locally. The random id and the current time are parameters.
 */
module CreateChatApi {
  import opened Wrappers
  import Usage

  datatype ChatRecord = ChatRecord(
    id: string,
    userId: string,
    title: string,
    model: string,
    projectId: Option<string>,
    createdAt: string,
    updatedAt: string)

  /**
   * `uuid` is what `crypto.randomUUID()` returns and `now` what
   * `new Date().toISOString()` returns.
   */
  function CreateChatInDb(
    cfg: Usage.Config, userId: string, title: Option<string>, model: string,
    isAuthenticated: bool, projectId: Option<string>, uuid: string, now: string): (r: Result<ChatRecord>)
    ensures r.Failure? <==> Usage.CheckUsageByModel(cfg, userId, model, isAuthenticated).Failure?
    ensures r.Failure? ==> r.error == Usage.LoginRequired
    ensures r.Success? ==> r.value.id == uuid && r.value.createdAt == now && r.value.updatedAt == now
    ensures r.Success? ==> r.value.userId == userId && r.value.model == model && r.value.projectId == projectId
    ensures r.Success? ==> r.value.title == if title.Some? && title.value != "" then title.value else "New Chat"
  {
    var check := Usage.CheckUsageByModel(cfg, userId, model, isAuthenticated);
    if check.Failure? then Failure(check.error)
    else
      Success(ChatRecord(uuid, userId, if title.GetOr("") != "" then title.value else "New Chat",
        model, projectId, now, now))
  }

  /** A created chat always has a non-empty title. */
  lemma CreatedTitleNonEmpty(
    cfg: Usage.Config, userId: string, title: Option<string>, model: string,
    isAuthenticated: bool, projectId: Option<string>, uuid: string, now: string)
    requires CreateChatInDb(cfg, userId, title, model, isAuthenticated, projectId, uuid, now).Success?
    ensures CreateChatInDb(cfg, userId, title, model, isAuthenticated, projectId, uuid, now).value.title != ""
  {
  }

  /** A free model can always be used to create a chat, logged in or not. */
  lemma FreeModelNeverRefused(
    cfg: Usage.Config, userId: string, title: Option<string>, model: string,
    isAuthenticated: bool, projectId: Option<string>, uuid: string, now: string)
    requires model in cfg.freeModelIds
    ensures CreateChatInDb(cfg, userId, title, model, isAuthenticated, projectId, uuid, now).Success?
  {
  }
}

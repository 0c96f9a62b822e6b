/**
 * The chat cache synchroniser (lib/chat-store/chats/api.ts): the cached
 * `"chats"` collection, its refresh from the backend's session listing, and
 * the operations that create, patch and delete chats in it.
 */
module ChatsApi {
  import opened Wrappers
  import opened JsValue
  import Text
  import Seqs
  import Sorting
  import opened ChatStore

  /** The comparator key of the listings: newest `created_at` first. */
  function NewestFirstKey(c: Chat): int {
    -c.createdAt
  }

  ghost predicate NewestFirst(s: seq<Chat>) {
    forall i, j :: 0 <= i < j < |s| ==> s[i].createdAt >= s[j].createdAt
  }

  /** Sorts a listing newest first; it still lists the same collection. */
  method SortNewestFirst(s: seq<Chat>, ghost m: map<string, Chat>) returns (r: seq<Chat>)
    requires Lists(s, m)
    ensures Lists(r, m) && NewestFirst(r)
  {
    r := Sorting.SortBy(s, NewestFirstKey);
    PermutationKeepsListing(s, r, m);
    forall i, j | 0 <= i < j < |r| ensures r[i].createdAt >= r[j].createdAt {
      assert NewestFirstKey(r[i]) <= NewestFirstKey(r[j]);
    }
  }

  /** `getCachedChats` (and `getUserChats`): every cached chat once, newest first. */
  method GetCachedChats(store: Store) returns (list: seq<Chat>)
    requires store.Valid()
    ensures Lists(list, store.chats) && NewestFirst(list)
  {
    var all := Entries(store.chats);
    list := SortNewestFirst(all, store.chats);
  }

  /** One session of the backend listing, as the mapping reads it. */
  datatype Session = Session(
    id: string,
    title: string,
    createdAt: int,
    updatedAt: Option<int>,
    model: string,
    userId: string,
    pinned: Option<bool>,
    pinnedAt: Option<string>)

  /**
   * The record a session becomes: public, outside any project, unpinned
   * unless the backend says pinned, with an empty `pinned_at` read as null.
   */
  function FromSession(s: Session): (c: Chat)
    ensures c.id == s.id && c.title == s.title && c.createdAt == s.createdAt && c.updatedAt == s.updatedAt
    ensures c.model == s.model && c.userId == s.userId
    ensures c.isPublic && c.projectId.None? && c.systemPrompt.None?
    ensures c.pinned <==> s.pinned == Some(true)
    ensures c.pinnedAt.Some? <==> s.pinnedAt.Some? && s.pinnedAt.value != ""
    ensures c.pinnedAt.Some? ==> c.pinnedAt == s.pinnedAt
  {
    Chat(s.id, s.title, s.createdAt, s.updatedAt, s.model, s.userId,
         true, s.pinned.GetOr(false),
         if s.pinnedAt.Some? && s.pinnedAt.value != "" then s.pinnedAt else None,
         None, None)
  }

  /**
   * The merge of the refresh: cached chats set first, backend chats set over
   * them, then every cached chat whose id the backend did not list deleted.
   * What is left is exactly the backend listing keyed by id: local-only
   * chats do not survive it.
   */
  method MergeListing(cached: seq<Chat>, remote: seq<Chat>) returns (merged: map<string, Chat>)
    ensures merged == KeyById(remote)
  {
    merged := SetEach(map[], cached);
    assert map[] + KeyById(cached) == KeyById(cached);
    merged := SetEach(merged, remote);
    var backendIds := set j | 0 <= j < |remote| :: remote[j].id;
    var stale := Seqs.Filter(cached, NotListed(backendIds));
    merged := DeleteEach(merged, stale);
    StaleIds(cached, remote, backendIds);
  }

  /** `chats.forEach((c) => map.set(c.id, c))`. */
  method SetEach(m: map<string, Chat>, chats: seq<Chat>) returns (r: map<string, Chat>)
    ensures r == m + KeyById(chats)
  {
    r := m;
    var i := 0;
    while i < |chats|
      invariant 0 <= i <= |chats|
      invariant r == m + KeyById(chats[..i])
    {
      KeyByIdSnoc(chats[..i], chats[i]);
      assert chats[..i + 1] == chats[..i] + [chats[i]];
      UnionUpdate(m, KeyById(chats[..i]), chats[i].id, chats[i]);
      r := r[chats[i].id := chats[i]];
      i := i + 1;
    }
    assert chats[..i] == chats;
  }

  /** `chats.forEach((c) => map.delete(c.id))`. */
  method DeleteEach(m: map<string, Chat>, chats: seq<Chat>) returns (r: map<string, Chat>)
    ensures r == m - Ids(chats)
  {
    r := m;
    var i := 0;
    while i < |chats|
      invariant 0 <= i <= |chats|
      invariant r == m - Ids(chats[..i])
    {
      assert chats[..i + 1] == chats[..i] + [chats[i]];
      IdsSnoc(chats[..i], chats[i]);
      r := r - {chats[i].id};
      i := i + 1;
    }
    assert chats[..i] == chats;
  }

  function NotListed(ids: set<string>): Chat -> bool {
    (c: Chat) => c.id !in ids
  }

  /** The stale chats are exactly the cached ids the backend did not list; dropping them leaves the backend's chats. */
  lemma StaleIds(cached: seq<Chat>, remote: seq<Chat>, backendIds: set<string>)
    requires backendIds == Ids(remote)
    ensures (KeyById(cached) + KeyById(remote)) - Ids(Seqs.Filter(cached, NotListed(backendIds))) == KeyById(remote)
  {
    var stale := Seqs.Filter(cached, NotListed(backendIds));
    assert Ids(stale) == Ids(cached) - Ids(remote) by {
      forall k | k in Ids(stale) ensures k in Ids(cached) - Ids(remote) {
        var j :| 0 <= j < |stale| && stale[j].id == k;
        var n :| 0 <= n < |cached| && cached[n] == stale[j];
      }
      forall k | k in Ids(cached) - Ids(remote) ensures k in Ids(stale) {
        var n :| 0 <= n < |cached| && cached[n].id == k;
        assert cached[n] in stale;
        var j :| 0 <= j < |stale| && stale[j] == cached[n];
      }
    }
  }

  lemma UnionUpdate(a: map<string, Chat>, b: map<string, Chat>, k: string, v: Chat)
    ensures (a + b)[k := v] == a + b[k := v]
  {
  }

  /**
   * The `"chats"` collection after a refresh. Only a ready client whose
   * listing came back 2xx with a readable body replaces it; a readiness
   * timeout, a 401, any other status and any thrown error keep the cache.
   */
  ghost function Refreshed(cache: map<string, Chat>, ready: bool, response: Fetched<seq<Session>>): map<string, Chat> {
    if ready && response.Ok() && response.payload.Success? then
      KeyById(Seqs.MapSeq(response.payload.value, FromSession))
    else cache
  }

  /**
   * `fetchAndCacheChats`. `ready` says whether the client was initialised
   * before the wait timed out; `response` is what the listing call produced.
   * The merged list that is written is the list returned.
   */
  method FetchAndCacheChats(store: Store, ready: bool, response: Fetched<seq<Session>>) returns (chats: seq<Chat>)
    requires store.Valid()
    modifies store
    ensures store.Valid() && store.messages == old(store.messages)
    ensures store.chats == Refreshed(old(store.chats), ready, response)
    ensures Lists(chats, store.chats) && NewestFirst(chats)
  {
    if !ready {
      chats := GetCachedChats(store);
      return;
    }
    if response.Ok() && response.payload.Success? {
      var remote := Seqs.MapSeq(response.payload.value, FromSession);
      var cached := GetCachedChats(store);
      var mergedMap := MergeListing(cached, remote);
      var entries := Entries(mergedMap);
      var merged := SortNewestFirst(entries, mergedMap);
      store.chats := KeyById(merged);
      return merged;
    }
    chats := GetCachedChats(store);
  }

  /** After a successful refresh the stored ids are exactly the listed ids; the cache's other ids are gone. */
  lemma RefreshKeepsOnlyListed(cache: map<string, Chat>, response: Fetched<seq<Session>>, id: string)
    requires response.Ok() && response.payload.Success?
    ensures id in Refreshed(cache, true, response) <==>
      exists i :: 0 <= i < |response.payload.value| && response.payload.value[i].id == id
  {
    var sessions := response.payload.value;
    var remote := Seqs.MapSeq(sessions, FromSession);
    if id in Refreshed(cache, true, response) {
      assert id in Ids(remote);
      var i :| 0 <= i < |remote| && remote[i].id == id;
      assert sessions[i].id == id;
    } else {
      forall i | 0 <= i < |sessions| ensures sessions[i].id != id {
        assert remote[i].id in Ids(remote);
      }
    }
  }

  /** For a listed id the stored record is the backend's (the last one listed under that id), whatever was cached. */
  lemma {:induction false} RemoteWins(sessions: seq<Session>, i: int)
    requires 0 <= i < |sessions|
    requires forall j :: i < j < |sessions| ==> sessions[j].id != sessions[i].id
    ensures KeyById(Seqs.MapSeq(sessions, FromSession))[sessions[i].id] == FromSession(sessions[i])
  {
    var n := |sessions| - 1;
    var init := sessions[..n];
    var last := FromSession(sessions[n]);
    Seqs.MapLast(sessions, FromSession);
    KeyByIdSnoc(Seqs.MapSeq(init, FromSession), last);
    if i < n {
      assert init[i] == sessions[i];
      assert forall j :: i < j < |init| ==> init[j] == sessions[j];
      RemoteWins(init, i);
      OtherKeyKept(KeyById(Seqs.MapSeq(init, FromSession)), last, sessions[i].id);
    }
  }

  lemma OtherKeyKept(m: map<string, Chat>, c: Chat, id: string)
    requires c.id != id && id in m
    ensures id in m[c.id := c] && m[c.id := c][id] == m[id]
  {
  }

  /** A single-record change made through `map` over the cached listing. */
  datatype ChatPatch = Retitle(title: string) | Remodel(model: string) | Pin(pinned: bool, now: string)

  /** The patched record: only the named fields change; pinning stamps `now`, unpinning clears the stamp. */
  function Apply(p: ChatPatch, c: Chat): (r: Chat)
    ensures r.(title := c.title, model := c.model, pinned := c.pinned, pinnedAt := c.pinnedAt) == c
    ensures p.Retitle? ==> r == c.(title := p.title)
    ensures p.Remodel? ==> r == c.(model := p.model)
    ensures p.Pin? ==> (r.title == c.title && r.model == c.model && r.pinned == p.pinned
      && r.pinnedAt == if p.pinned then Some(p.now) else None)
  {
    match p
    case Retitle(title) => c.(title := title)
    case Remodel(model) => c.(model := model)
    case Pin(pinned, now) => c.(pinned := pinned, pinnedAt := if pinned then Some(now) else None)
  }

  function Patcher(id: string, p: ChatPatch): Chat -> Chat {
    (c: Chat) => if c.id == id then Apply(p, c) else c
  }

  /** The collection with the record under `id` patched, if there is one; nothing else changes. */
  function Patched(m: map<string, Chat>, id: string, p: ChatPatch): (r: map<string, Chat>)
    ensures r.Keys == m.Keys
    ensures forall k :: k in m && k != id ==> r[k] == m[k]
    ensures id in m ==> r[id] == Apply(p, m[id])
  {
    if id in m then m[id := Apply(p, m[id])] else m
  }

  /** Writing back the patched listing patches the collection. */
  lemma {:induction false} KeyByIdPatch(s: seq<Chat>, id: string, p: ChatPatch)
    ensures KeyById(Seqs.MapSeq(s, Patcher(id, p))) == Patched(KeyById(s), id, p)
  {
    if s != [] {
      var init := s[..|s| - 1];
      var x := s[|s| - 1];
      var f := Patcher(id, p);
      var mapped := Seqs.MapSeq(init, f);
      KeyByIdPatch(init, id, p);
      Seqs.MapLast(s, f);
      KeyByIdSnoc(mapped, f(x));
      KeyByIdLast(s);
      assert f(x).id == x.id;
      PatchedUpdate(KeyById(init), x, id, p);
    }
  }

  lemma PatchedUpdate(m: map<string, Chat>, x: Chat, id: string, p: ChatPatch)
    ensures Patched(m, id, p)[x.id := Patcher(id, p)(x)] == Patched(m[x.id := x], id, p)
  {
    var f := Patcher(id, p);
    assert Apply(p, x).id == x.id;
    if x.id == id {
      assert f(x) == Apply(p, x);
    } else {
      assert f(x) == x;
    }
  }

  method PatchCachedChat(store: Store, id: string, p: ChatPatch)
    requires store.Valid()
    modifies store
    ensures store.Valid() && store.messages == old(store.messages)
    ensures store.chats == Patched(old(store.chats), id, p)
  {
    var all := GetCachedChats(store);
    var updated := Seqs.MapSeq(all, Patcher(id, p));
    KeyByIdPatch(all, id, p);
    store.chats := KeyById(updated);
  }

  /** `updateChatTitle`: changes only the title of the chat with that id, in the cache only. */
  method UpdateChatTitle(store: Store, id: string, title: string)
    requires store.Valid()
    modifies store
    ensures store.Valid() && store.messages == old(store.messages)
    ensures store.chats == Patched(old(store.chats), id, Retitle(title))
  {
    PatchCachedChat(store, id, Retitle(title));
  }

  /** Message of the TypeError a property read on a null response body throws; the engine's wording is not modelled. */
  const NullReadMessage := "Cannot read properties of null"

  /**
   * How `updateChatModel` and `toggleChatPin` read the route's answer: a
   * thrown call or unreadable body is rethrown; a non-2xx status throws the
   * body's `error`, or `<what>: <status> <statusText>`; a 2xx answer yields
   * the body.
   */
  function Acknowledged(response: Fetched<Json>, what: string): (r: Result<Json>)
    ensures r.Success? <==> response.Ok() && response.payload.Success?
    ensures r.Success? ==> r.value == response.payload.value
    ensures response.Unreachable? ==> r == Failure(response.message)
    ensures response.Answered? && response.payload.Failure? ==> r == Failure(response.payload.error)
    ensures response.Answered? && !response.Ok() && response.payload.Success? ==>
      var body := response.payload.value;
      r.Failure? && (body.JNull? ==> r.error == NullReadMessage)
      && (!body.JNull? && !Truthy(Field(body, "error")) ==>
            r.error == what + ": " + Text.IntToString(response.status) + " " + response.statusText)
      && (!body.JNull? && Truthy(Field(body, "error")) ==> r.error == ToJsString(Field(body, "error")))
  {
    match response
    case Unreachable(message) => Failure(message)
    case Answered(status, statusText, payload) =>
      if payload.Failure? then Failure(payload.error)
      else if response.Ok() then Success(payload.value)
      else if payload.value.JNull? then Failure(NullReadMessage)
      else
        var error := Field(payload.value, "error");
        Failure(if Truthy(error) then ToJsString(error)
                else what + ": " + Text.IntToString(status) + " " + statusText)
  }

  /** `updateChatModel`: the cache changes only when the route acknowledged the change. */
  method UpdateChatModel(store: Store, chatId: string, model: string, response: Fetched<Json>)
    returns (r: Result<Json>)
    requires store.Valid()
    modifies store
    ensures store.Valid() && store.messages == old(store.messages)
    ensures r == Acknowledged(response, "Failed to update chat model")
    ensures store.chats == if r.Success? then Patched(old(store.chats), chatId, Remodel(model)) else old(store.chats)
  {
    r := Acknowledged(response, "Failed to update chat model");
    if r.Success? {
      PatchCachedChat(store, chatId, Remodel(model));
    }
  }

  /** `toggleChatPin`: `now` is the current time as an ISO string. */
  method ToggleChatPin(store: Store, chatId: string, pinned: bool, now: string, response: Fetched<Json>)
    returns (r: Result<Json>)
    requires store.Valid()
    modifies store
    ensures store.Valid() && store.messages == old(store.messages)
    ensures r == Acknowledged(response, "Failed to update pinned")
    ensures store.chats == if r.Success? then Patched(old(store.chats), chatId, Pin(pinned, now)) else old(store.chats)
  {
    r := Acknowledged(response, "Failed to update pinned");
    if r.Success? {
      PatchCachedChat(store, chatId, Pin(pinned, now));
    }
  }

  /** Whether `deleteChat` goes on to drop the chat locally: a readable 2xx answer, or a 404. */
  predicate DeleteAccepted(response: Fetched<Json>) {
    (response.Ok() && response.payload.Success?) || (response.Answered? && response.status == 404)
  }

  /** The error `deleteChat` rethrows. */
  function DeleteError(response: Fetched<Json>): string {
    match response
    case Unreachable(message) => message
    case Answered(_, statusText, payload) =>
      if response.Ok() && payload.Failure? then payload.error else "Failed to delete chat: " + statusText
  }

  /** `deleteChat`: 2xx and 404 both remove exactly that id; anything else throws and leaves the cache as it was. */
  method DeleteChat(store: Store, id: string, response: Fetched<Json>) returns (r: Result<()>)
    requires store.Valid()
    modifies store
    ensures store.Valid() && store.messages == old(store.messages)
    ensures r.Success? <==> DeleteAccepted(response)
    ensures r.Success? ==> store.chats == old(store.chats) - {id}
    ensures r.Failure? ==> store.chats == old(store.chats) && r.error == DeleteError(response)
  {
    if !DeleteAccepted(response) {
      return Failure(DeleteError(response));
    }
    var all := GetCachedChats(store);
    var kept := Seqs.Filter(all, OtherThan(id));
    DropById(all, store.chats, id);
    store.chats := KeyById(kept);
    r := Success(());
  }

  function OtherThan(id: string): Chat -> bool {
    (c: Chat) => c.id != id
  }

  /** Filtering a listing by id and writing it back removes exactly that id. */
  lemma DropById(all: seq<Chat>, m: map<string, Chat>, id: string)
    requires Lists(all, m)
    ensures KeyById(Seqs.Filter(all, OtherThan(id))) == m - {id}
  {
    KeyByIdFilter(all, OtherThan(id));
    RestrictById(m, id);
  }

  lemma RestrictById(m: map<string, Chat>, id: string)
    requires WellKeyed(m)
    ensures Restrict(m, OtherThan(id)) == m - {id}
  {
    forall k | k in m ensures OtherThan(id)(m[k]) <==> k != id {
      assert m[k].id == k;
    }
  }

  /** `find` over a listing: the first chat with that id. */
  function Find(s: seq<Chat>, id: string): (r: Option<Chat>)
    ensures r.Some? ==> r.value in s && r.value.id == id
    ensures r.None? ==> forall i :: 0 <= i < |s| ==> s[i].id != id
  {
    if s == [] then None
    else if s[0].id == id then Some(s[0])
    else Find(s[1..], id)
  }

  /** `getChat`: the cached chat with that id, or null. */
  method GetChat(store: Store, chatId: string) returns (r: Option<Chat>)
    requires store.Valid()
    ensures r == if chatId in store.chats then Some(store.chats[chatId]) else None
  {
    var all := Entries(store.chats);
    r := Find(all, chatId);
    ListsEachOnce(all, store.chats);
    if chatId in store.chats {
      var i :| 0 <= i < |all| && all[i] == store.chats[chatId];
    }
  }

  /**
   * `createChat`: upserts a new record under the generated id `uuid` with the
   * current time `now`; fields the written record lacks hold their falsy
   * defaults.
   */
  method CreateChat(store: Store, userId: string, title: string, model: string, systemPrompt: string,
                    uuid: string, now: int) returns (id: string)
    requires store.Valid()
    modifies store
    ensures store.Valid() && store.messages == old(store.messages)
    ensures id == uuid
    ensures store.chats == old(store.chats)[uuid := Chat(uuid, title, now, None, model, userId, false, false, None, None, Some(systemPrompt))]
  {
    var record := Chat(uuid, title, now, None, model, userId, false, false, None, None, Some(systemPrompt));
    store.chats := store.chats[record.id := record];
    id := uuid;
  }

  /** The id a Telegram user's chat gets: the backend's cache key for that user and model. */
  function CompositeId(userId: string, model: string): (r: string)
    ensures |r| == |userId| + |model| + 12
    ensures "user_" <= r
    ensures r[|r| - |model|..] == model
  {
    "user_" + userId + "_model_" + model
  }

  /** Whether `createNewChat` keys the chat by `CompositeId` rather than by the server's id. */
  predicate UsesCompositeId(model: Option<string>, isAuthenticated: Option<bool>) {
    isAuthenticated == Some(true) && model.Some? && model.value != ""
  }

  /** The chat the create-chat route returns. */
  datatype ServerChat = ServerChat(
    id: string,
    title: string,
    createdAt: int,
    model: string,
    userId: string,
    isPublic: bool,
    updatedAt: Option<int>,
    projectId: Option<string>,
    pinned: Option<bool>,
    pinnedAt: Option<string>)

  /** The create-chat route's answer: its `chat` (None when missing or falsy) and its `error` ("" when falsy). */
  datatype CreateReply = CreateReply(chat: Option<ServerChat>, error: string)

  /** The request body sent to the create-chat route. */
  datatype CreateRequest = CreateRequest(userId: string, title: string, model: Option<string>,
                                         isAuthenticated: Option<bool>, projectId: Option<string>)

  function NewChatRequest(userId: string, title: Option<string>, model: Option<string>,
                          isAuthenticated: Option<bool>, projectId: Option<string>): (r: CreateRequest)
    ensures r.title == if title.Some? && title.value != "" then title.value else "New Chat"
    ensures r.projectId.Some? <==> projectId.Some? && projectId.value != ""
    ensures r.userId == userId && r.model == model && r.isAuthenticated == isAuthenticated
  {
    CreateRequest(userId, if title.Some? && title.value != "" then title.value else "New Chat",
                  model, isAuthenticated, if projectId.Some? && projectId.value != "" then projectId else None)
  }

  /** The cached record of a created chat: the composite id for Telegram users, otherwise the server's. */
  function CreatedChat(sc: ServerChat, userId: string, model: Option<string>, isAuthenticated: Option<bool>): (c: Chat)
    ensures UsesCompositeId(model, isAuthenticated) ==> c.id == CompositeId(userId, model.value)
    ensures !UsesCompositeId(model, isAuthenticated) ==> c.id == sc.id
    ensures c.title == sc.title && c.userId == sc.userId && c.model == sc.model && c.createdAt == sc.createdAt
    ensures c.pinned == (sc.pinned == Some(true)) && c.pinnedAt == sc.pinnedAt
    ensures c.projectId.Some? <==> sc.projectId.Some? && sc.projectId.value != ""
  {
    Chat(if UsesCompositeId(model, isAuthenticated) then CompositeId(userId, model.value) else sc.id,
         sc.title, sc.createdAt, sc.updatedAt, sc.model, sc.userId, sc.isPublic,
         sc.pinned.GetOr(false), sc.pinnedAt,
         if sc.projectId.Some? && sc.projectId.value != "" then sc.projectId else None,
         None)
  }

  /**
   * Whether a cached chat survives the creation of `chat`: optimistic
   * placeholders go, and so does any other chat with the same title and user.
   */
  predicate Survives(c: Chat, chat: Chat) {
    !(c.id != "" && "optimistic-" <= c.id)
    && !(c.title == chat.title && c.userId == chat.userId && c.id != chat.id)
  }

  /** The `"chats"` collection after `chat` is created. */
  function WithCreated(m: map<string, Chat>, chat: Chat): (r: map<string, Chat>)
    ensures chat.id in r && r[chat.id] == chat
    ensures forall k :: k in r && k != chat.id ==> k in m && r[k] == m[k] && Survives(m[k], chat)
    ensures forall k :: k in m && Survives(m[k], chat) ==> k in r
  {
    Restrict(m, c => Survives(c, chat))[chat.id := chat]
  }

  /**
   * `createNewChat`. A thrown call, an unreadable body, a non-2xx status or
   * a missing `chat` throws before anything is written; otherwise the chat
   * replaces the optimistic and same-title entries and gets an empty
   * messages entry.
   */
  method CreateNewChat(store: Store, userId: string, title: Option<string>, model: Option<string>,
                       isAuthenticated: Option<bool>, projectId: Option<string>, response: Fetched<CreateReply>)
    returns (sent: CreateRequest, r: Result<Chat>)
    requires store.Valid()
    modifies store
    ensures store.Valid()
    ensures sent == NewChatRequest(userId, title, model, isAuthenticated, projectId)
    ensures r.Success? <==> response.Ok() && response.payload.Success? && response.payload.value.chat.Some?
    ensures r.Success? ==> r.value == CreatedChat(response.payload.value.chat.value, userId, model, isAuthenticated)
    ensures r.Success? ==> (store.chats == WithCreated(old(store.chats), r.value)
      && store.messages == old(store.messages)[r.value.id := Entry(Some([]))])
    ensures r.Failure? ==> store.chats == old(store.chats) && store.messages == old(store.messages)
    ensures (response.Answered? && response.payload.Success?
             && (!response.Ok() || response.payload.value.chat.None?)) ==>
      r == Failure(if response.payload.value.error != "" then response.payload.value.error else "Failed to create chat")
  {
    sent := NewChatRequest(userId, title, model, isAuthenticated, projectId);
    if response.Unreachable? {
      return sent, Failure(response.message);
    }
    if response.payload.Failure? {
      return sent, Failure(response.payload.error);
    }
    var reply := response.payload.value;
    if !response.Ok() || reply.chat.None? {
      return sent, Failure(if reply.error != "" then reply.error else "Failed to create chat");
    }
    var chat := CreatedChat(reply.chat.value, userId, model, isAuthenticated);
    var cached := GetCachedChats(store);
    var keep := (c: Chat) => Survives(c, chat);
    var filtered := Seqs.Filter(cached, keep);
    KeyByIdFilter(cached, keep);
    var mergedMap := KeyById(filtered)[chat.id := chat];
    var entries := Entries(mergedMap);
    var merged := SortNewestFirst(entries, mergedMap);
    store.chats := KeyById(merged);
    store.messages := store.messages[chat.id := Entry(Some([]))];
    r := Success(chat);
  }

  /** The same user and model always give the same id. */
  lemma CompositeIdDeterministic(userId: string, model: string, sc1: ServerChat, sc2: ServerChat)
    requires model != ""
    ensures CreatedChat(sc1, userId, Some(model), Some(true)).id == CreatedChat(sc2, userId, Some(model), Some(true)).id
  {
  }
}

/**
 * The message fetch-through cache (lib/chat-store/messages/api.ts): reads go
 * to the `"messages"` collection first and to the backend only when the
 * cached list is empty; writes replace one chat's entry.
 */
module MessagesApi {
  import opened Wrappers
  import Sorting
  import UriCodec
  import opened ChatStore
  import ChatsApi

  /** The comparator key: oldest `createdAt` first, a missing time counting as 0. */
  function OldestFirstKey(m: Message): int {
    m.createdAt.GetOr(0)
  }

  /** The list a cached entry holds: none for a missing entry or an array-valued read. */
  function CachedList(messages: map<string, MessageEntry>, chatId: string): (r: seq<Message>)
    ensures chatId !in messages || messages[chatId].ArrayValued? ==> r == []
    ensures chatId in messages && messages[chatId].Entry? && messages[chatId].messages.Some? ==>
      r == messages[chatId].messages.value
  {
    if chatId in messages && messages[chatId].Entry? then messages[chatId].messages.GetOr([]) else []
  }

  /** `getCachedMessages`: the cached list, oldest first. */
  method GetCachedMessages(store: Store, chatId: string) returns (list: seq<Message>)
    ensures multiset(list) == multiset(CachedList(store.messages, chatId))
    ensures Sorting.SortedBy(list, OldestFirstKey)
  {
    list := Sorting.SortBy(CachedList(store.messages, chatId), OldestFirstKey);
  }

  /**
   * The backend path for a chat's messages. Cache-key ids (`user_…`) are
   * fetched directly; other ids carry the model of the cached chat with that
   * id, when it has one.
   */
  function MessagesUrl(chatId: string, chats: map<string, Chat>): (url: string)
    ensures var path := "/webapp/messages/" + UriCodec.Encode(chatId);
      if !("user_" <= chatId) && chatId in chats && chats[chatId].model != "" then
        url == path + "?model=" + UriCodec.Encode(chats[chatId].model)
      else url == path
  {
    var url := "/webapp/messages/" + UriCodec.Encode(chatId);
    if !("user_" <= chatId) && chatId in chats && chats[chatId].model != "" then
      url + "?model=" + UriCodec.Encode(chats[chatId].model)
    else url
  }

  /** The id segment is a single path segment that decodes back to the chat id. */
  lemma MessagesUrlRoundTrip(chatId: string, chats: map<string, Chat>)
    ensures var url := MessagesUrl(chatId, chats);
      var segment := UriCodec.Encode(chatId);
      url[..17 + |segment|] == "/webapp/messages/" + segment
      && UriCodec.Decode(segment) == Some(chatId)
      && forall i :: 0 <= i < |segment| ==> segment[i] != '/' && segment[i] != '?'
  {
    UriCodec.DecodeEncode(chatId);
    UriCodec.EncodeHasNoDelimiters(chatId);
  }

  /** A chat created under a composite id fetches its messages without a model parameter. */
  lemma CompositeIdFetchesDirectly(userId: string, model: string, chats: map<string, Chat>)
    ensures MessagesUrl(ChatsApi.CompositeId(userId, model), chats)
         == "/webapp/messages/" + UriCodec.Encode(ChatsApi.CompositeId(userId, model))
  {
  }

  /**
   * The `"messages"` collection after a backend call: a non-empty 2xx list
   * is cached, a 404 clears the chat's entry, and everything else (403,
   * other statuses, unreadable bodies, thrown calls) leaves it alone.
   */
  function FetchedEntries(messages: map<string, MessageEntry>, chatId: string, response: Fetched<seq<Message>>)
    : (r: map<string, MessageEntry>)
    ensures r - {chatId} == messages - {chatId}
    ensures response.Ok() && response.payload.Success? && response.payload.value != [] ==>
      r == messages[chatId := Entry(Some(response.payload.value))]
    ensures response.Answered? && response.status == 404 ==> r == messages[chatId := Entry(Some([]))]
    ensures (!(response.Answered? && response.status == 404)
      && !(response.Ok() && response.payload.Success? && response.payload.value != [])) ==> r == messages
  {
    if response.Ok() && response.payload.Success? && response.payload.value != [] then
      messages[chatId := Entry(Some(response.payload.value))]
    else if response.Answered? && response.status == 404 then
      messages[chatId := Entry(Some([]))]
    else messages
  }

  /**
   * `getMessagesFromDb`. `ready` says whether the client was initialised
   * before the wait timed out; `response` is what the backend call produced;
   * `requested` is the URL called, if the backend was called at all.
   */
  method GetMessagesFromDb(store: Store, chatId: string, ready: bool, response: Fetched<seq<Message>>)
    returns (messages: seq<Message>, requested: Option<string>)
    requires store.Valid()
    modifies store
    ensures store.Valid() && store.chats == old(store.chats)
    ensures var cached := CachedList(old(store.messages), chatId);
      cached != [] ==> (multiset(messages) == multiset(cached) && Sorting.SortedBy(messages, OldestFirstKey)
        && requested.None?
        && store.messages == old(store.messages))
    ensures CachedList(old(store.messages), chatId) == [] && !ready ==>
      (messages == [] && requested.None? && store.messages == old(store.messages))
    ensures CachedList(old(store.messages), chatId) == [] && ready ==>
      (requested == Some(MessagesUrl(chatId, old(store.chats)))
      && store.messages == FetchedEntries(old(store.messages), chatId, response)
      && messages == (if response.Ok() && response.payload.Success? then response.payload.value else []))
  {
    var cached := GetCachedMessages(store, chatId);
    if |cached| > 0 {
      return cached, None;
    }
    assert CachedList(store.messages, chatId) == [];
    var url := "/webapp/messages/" + UriCodec.Encode(chatId);
    if !("user_" <= chatId) {
      var chat := ChatsApi.GetChat(store, chatId);
      if chat.Some? && chat.value.model != "" {
        url := url + "?model=" + UriCodec.Encode(chat.value.model);
      }
    }
    if !ready {
      return [], None;
    }
    requested := Some(url);
    if response.Unreachable? {
      return [], requested;
    }
    if response.Ok() {
      if response.payload.Failure? {
        return [], requested;
      }
      messages := response.payload.value;
      if |messages| > 0 {
        CacheMessages(store, chatId, messages);
      }
    } else if response.status == 404 {
      ClearMessagesCache(store, chatId);
      messages := [];
    } else {
      messages := [];
    }
  }

  /** `cacheMessages`: the chat's entry becomes exactly that list. */
  method CacheMessages(store: Store, chatId: string, messages: seq<Message>)
    modifies store
    ensures store.chats == old(store.chats)
    ensures store.messages == old(store.messages)[chatId := Entry(Some(messages))]
  {
    store.messages := store.messages[chatId := Entry(Some(messages))];
  }

  /** `setMessages`: replaces the chat's list wholesale. */
  method SetMessages(store: Store, chatId: string, messages: seq<Message>)
    modifies store
    ensures store.chats == old(store.chats)
    ensures store.messages == old(store.messages)[chatId := Entry(Some(messages))]
  {
    CacheMessages(store, chatId, messages);
  }

  /** `addMessage`: the sorted cached list with the message appended. */
  method AddMessage(store: Store, chatId: string, message: Message)
    modifies store
    ensures store.chats == old(store.chats)
    ensures store.messages - {chatId} == old(store.messages) - {chatId}
    ensures chatId in store.messages && store.messages[chatId].Entry? && store.messages[chatId].messages.Some?
    ensures var list := store.messages[chatId].messages.value;
      |list| == |CachedList(old(store.messages), chatId)| + 1
      && list[|list| - 1] == message
      && multiset(list[..|list| - 1]) == multiset(CachedList(old(store.messages), chatId))
      && Sorting.SortedBy(list[..|list| - 1], OldestFirstKey)
  {
    var current := GetCachedMessages(store, chatId);
    var updated := current + [message];
    assert updated[..|updated| - 1] == current;
    store.messages := store.messages[chatId := Entry(Some(updated))];
  }

  /** `clearMessagesCache`: an empty list under the id (the entry is kept, not deleted). */
  method ClearMessagesCache(store: Store, chatId: string)
    modifies store
    ensures store.chats == old(store.chats)
    ensures store.messages == old(store.messages)[chatId := Entry(Some([]))]
  {
    store.messages := store.messages[chatId := Entry(Some([]))];
  }

  /** `clearMessagesForChat`: the backend delete is a no-op; the cache is cleared as above. */
  method ClearMessagesForChat(store: Store, chatId: string)
    modifies store
    ensures store.chats == old(store.chats)
    ensures store.messages == old(store.messages)[chatId := Entry(Some([]))]
  {
    ClearMessagesCache(store, chatId);
  }

  /** After a clear, reads give an empty list, so the next read goes to the backend. */
  lemma ClearedReadsEmpty(messages: map<string, MessageEntry>, chatId: string)
    ensures CachedList(messages[chatId := Entry(Some([]))], chatId) == []
  {
  }
}

# Polymind Telegram Mini App chat client — a Dafny model of its core

The Polymind mini app is a Next.js chat client that runs inside Telegram. Its
browser side keeps a local cache of the user's chats and messages (IndexedDB
collections `"chats"` and `"messages"`). It refreshes that cache from the
Polymind backend, authenticates each backend call with the Telegram `initData`,
and reads the backend's server-sent event stream. Its server side is a set of
Next.js route handlers: one proxies a chat turn to the backend and re-frames the
event stream in the AI SDK's line format, and the others validate a request body
and answer with JSON.

This project models that core in Dafny and proves what it promises. The parts are:

- the chat and message cache operations (`ChatsApi`, `MessagesApi`, over the
  cache store `ChatStore.Store`);
- the backend client: request building, the chat listing URL, and the event
  stream reader (`PolymindApi`, with the line splitting in `SseLines`);
- the chat route: admission checks, the backend request, and the stream
  transform (`ChatRoute`);
- the chat id derived from the page path (`SessionProvider`);
- the Telegram SDK client object (`TelegramClient`);
- the five-minute model list cache and its views (`ModelsIndex`), and the model
  picker state (`UseModel`);
- the usage gate and the limits shown (`Usage`, `CreateChatApi`, `RateLimitsApi`);
- file attachment validation and processing (`FileHandling`);
- the remaining route handlers (`UserPreferencesRoute`, `FavoriteModelsRoute`,
  `ToggleChatPinRoute`, `UpdateChatModelRoute`, `UserKeysRoute`,
  `CreateGuestRoute`, `ProjectsRoute`).

Shared pieces:

- `Wrappers`: `Option` for null/undefined, and `Result` for a thrown error with
  its message.
- `Seqs` and `Sorting`: `filter`/`map`, and the comparator sort. The sort is
  specified as ordered by key and a permutation.
- `JsValue` and `Http`: parsed JSON values, JavaScript truthiness, property
  reads, `String(...)`, and JSON replies.
- `JsonText`: `JSON.stringify` of a string, with its inverse.
- `UriCodec`: `encodeURIComponent`/`decodeURIComponent`, including UTF-8.
- `Text`: decimal numerals.

## Modelling choices

**Cache store.** The cache is a class `ChatStore.Store` with two map fields,
`chats` (keyed by chat id) and `messages` (keyed by chat id). The persistence
layer is not part of the source files, so the model assumes the semantics the
callers rely on:

- writing an array to `"chats"` replaces the collection with the array keyed by
  id (`ChatStore.KeyById`);
- writing one record is an upsert.

A listing `s` *lists* a collection `m` when the ids in `s` are distinct and
keying `s` by id gives `m`.

**Outside world.** These are given to the model as parameters:

- Network answers are a `Fetched` value: `Answered(status, statusText, payload)`,
  where the payload is the parsed body or the error that reading it threw, or
  `Unreachable(message)` when `fetch` itself threw.
- The readiness wait (polling `isInitialized` with a 5-second timeout) is a
  boolean `ready`.
- `JSON.parse` is a function `string -> Option<Json>`.
- `crypto.randomUUID()` and the current time are arguments.
- The `lib/config` constants are a `Usage.Config` value.

**The chat refresh.** The refresh in lib/chat-store/chats/api.ts:74-95 carries a
comment saying that local-only chats are preserved. The code then deletes every
cached chat the backend did not list. The model follows the code:
`ChatsApi.MergeListing` proves that the merged collection is exactly the
backend's listing keyed by id, and `ChatsApi.RefreshKeepsOnlyListed` states the
consequence for the stored ids.

**Timestamps and ordering.**

- Chat `created_at` and message `createdAt` are integers (milliseconds).
- The sort comparators become sorting by an integer key: newest first for chats,
  oldest first for messages.
- The order of equal keys is not part of the model.

**Route bodies.** A route's request body is a `Body`: the parsed value, or the
message `request.json()` threw. A null body makes destructuring throw, which
each handler's catch turns into a 500 reply.

## Model

| member | source | states |
|---|---|---|
| ChatStore.KeyById | lib/chat-store/chats/api.ts:101 | writing a listing to `"chats"` gives a well-keyed collection whose ids are exactly the listed ids |
| ChatStore.KeyByIdOfDistinct | lib/chat-store/chats/api.ts:101 | for a listing with distinct ids, every listed chat is stored under its own id, unchanged |
| ChatStore.ListsEachOnce | lib/chat-store/chats/api.ts:131-136 | a listing of a collection holds every stored chat exactly once: each listed chat is stored, each stored chat is listed, and the sizes agree |
| ChatStore.ListedSize | lib/chat-store/chats/api.ts:101 | a listing with distinct ids is stored as exactly as many records as it has entries |
| ChatStore.DistinctPermutation | lib/chat-store/chats/api.ts:133-135 | reordering a listing with distinct ids keeps the ids distinct |
| ChatStore.PermutationKeepsListing | lib/chat-store/chats/api.ts:133-135 | a reordering of a listing of a collection still lists that collection |
| ChatStore.KeyByIdFilter | lib/chat-store/chats/api.ts:178-181 | filtering a listing and then storing it gives the stored collection restricted to the kept chats |
| ChatStore.Restrict | lib/chat-store/chats/api.ts:340-344 | the restricted collection keeps exactly the records that pass the test, unchanged |
| ChatStore.Entries | lib/chat-store/chats/api.ts:97 | `Array.from(map.values())` lists the map: every record once, ids distinct |
| ChatsApi.SortNewestFirst | lib/chat-store/chats/api.ts:97-99 | the sorted listing is newest first and still lists the same collection |
| ChatsApi.GetCachedChats | lib/chat-store/chats/api.ts:131-136 | the cached chats, each exactly once, ordered newest first |
| ChatsApi.FromSession | lib/chat-store/chats/api.ts:54-69 | a backend session maps to a public chat with the same id, title, times, model and user; pinned only when the session says true; the pin time only when non-empty; no project |
| ChatsApi.MergeListing | lib/chat-store/chats/api.ts:75-95 | set cached, set remote, delete stale: the merged collection is exactly the remote listing keyed by id, whatever was cached |
| ChatsApi.SetEach | lib/chat-store/chats/api.ts:82-85 | setting each chat of a listing into a map overrides the map with the listing keyed by id |
| ChatsApi.DeleteEach | lib/chat-store/chats/api.ts:94 | deleting each stale chat removes exactly those ids |
| ChatsApi.StaleIds | lib/chat-store/chats/api.ts:89-94 | removing the cached ids the backend did not list from cached-then-remote leaves the remote listing |
| ChatsApi.FetchAndCacheChats | lib/chat-store/chats/api.ts:13-129 | a ready 2xx listing replaces `"chats"` with the backend's chats; a timeout, 401, other status or thrown error leaves it unchanged; the list returned lists what is stored, newest first; messages are untouched |
| ChatsApi.RefreshKeepsOnlyListed | lib/chat-store/chats/api.ts:87-101 | after a successful refresh an id is stored if and only if the backend listed it |
| ChatsApi.RemoteWins | lib/chat-store/chats/api.ts:82-85 | for a listed id the stored record is the backend's (the last listed under that id) |
| ChatsApi.Apply | lib/chat-store/chats/api.ts:262-264 | a patch changes only its named fields; pinning stamps the current time, unpinning clears it |
| ChatsApi.Patched | lib/chat-store/chats/api.ts:144-146 | the same ids remain; only the record with the matching id is patched; every other record is unchanged |
| ChatsApi.KeyByIdPatch | lib/chat-store/chats/api.ts:143-147 | mapping the patch over a listing and writing it back patches the stored collection |
| ChatsApi.PatchCachedChat | lib/chat-store/chats/api.ts:233-237 | the cached collection becomes the patched collection; messages are untouched |
| ChatsApi.UpdateChatTitle | lib/chat-store/chats/api.ts:138-148 | only the title of the chat with that id changes, in the cache only |
| ChatsApi.Acknowledged | lib/chat-store/chats/api.ts:224-231 | success exactly for a 2xx readable reply; otherwise the thrown message: the fetch error, the read error, `String(error)` for a truthy `error`, the null-body TypeError, or "<what>: <status> <statusText>" |
| ChatsApi.UpdateChatModel | lib/chat-store/chats/api.ts:217-244 | on acknowledgement only that chat's model changes; on any failure the cache is unchanged and the error is returned |
| ChatsApi.ToggleChatPin | lib/chat-store/chats/api.ts:246-271 | on acknowledgement only that chat's pin flag and pin time change; on failure the cache is unchanged |
| ChatsApi.DeleteChat | lib/chat-store/chats/api.ts:150-183 | a readable 2xx or a 404 removes exactly that id and nothing else; any other answer fails with "Failed to delete chat: <statusText>" (or the read error) and leaves the cache unchanged |
| ChatsApi.Find | lib/chat-store/chats/api.ts:187 | `find` returns a listed chat with that id, and None only when no chat has that id |
| ChatsApi.GetChat | lib/chat-store/chats/api.ts:185-188 | the cached chat with that id, or None when there is none |
| ChatsApi.CreateChat | lib/chat-store/chats/api.ts:195-215 | returns the fresh id and upserts one record under it with the given title, model, user and system prompt |
| ChatsApi.CompositeId | lib/chat-store/chats/api.ts:284-286 | the composite id starts with `user_`, ends with the model, and has the length of `user_<userId>_model_<model>` |
| ChatsApi.NewChatRequest | lib/chat-store/chats/api.ts:290-305 | the title defaults to "New Chat"; a project id is sent only when non-empty; the other fields are copied |
| ChatsApi.CreatedChat | lib/chat-store/chats/api.ts:319-331 | a Telegram user's chat with a model gets the composite id, overriding the server's; otherwise the server's id; the other fields come from the server's chat |
| ChatsApi.WithCreated | lib/chat-store/chats/api.ts:340-348 | the new chat is stored; every other record survives only if it is not optimistic and not a same-title, same-user duplicate; survivors are unchanged |
| ChatsApi.CreateNewChat | lib/chat-store/chats/api.ts:273-374 | the request sent; a readable reply that is non-OK or lacks a chat fails with the reply's error or "Failed to create chat", and every failure comes before any write; on success the cache gains the chat and an empty message list under its id |
| ChatsApi.CompositeIdDeterministic | lib/chat-store/chats/api.ts:283-286 | the same user and model give the same id, whatever the server answers |
| MessagesApi.CachedList | lib/chat-store/messages/api.ts:117-121 | a missing or array-valued entry reads as empty; otherwise the entry's messages |
| MessagesApi.GetCachedMessages | lib/chat-store/messages/api.ts:114-124 | the cached messages of that chat, sorted oldest first |
| MessagesApi.MessagesUrl | lib/chat-store/messages/api.ts:24-38 | `/webapp/messages/<encoded id>`, with `?model=<encoded model>` only for an id not starting with `user_` whose cached chat has a non-empty model |
| MessagesApi.MessagesUrlRoundTrip | lib/chat-store/messages/api.ts:24 | the path segment decodes back to the chat id and contains no `/` or `?` |
| MessagesApi.CompositeIdFetchesDirectly | lib/chat-store/messages/api.ts:27 | a composite chat id is fetched with no model query, whatever is cached |
| MessagesApi.FetchedEntries | lib/chat-store/messages/api.ts:67-94 | a 2xx non-empty list is cached; a 404 leaves an empty list; 403, other statuses, an empty list and thrown errors leave the cache; other chats are never touched |
| MessagesApi.GetMessagesFromDb | lib/chat-store/messages/api.ts:6-95 | a non-empty cache is returned, sorted oldest first, with no request; a timeout returns [] with no request; otherwise the URL is requested, the cache becomes the fetched entries, and the list returned is the 2xx body or [] |
| MessagesApi.CacheMessages | lib/chat-store/messages/api.ts:126-131 | the entry of that chat holds exactly the given messages |
| MessagesApi.SetMessages | lib/chat-store/messages/api.ts:144-150 | replaces that chat's list wholesale |
| MessagesApi.AddMessage | lib/chat-store/messages/api.ts:133-142 | the stored list is the sorted cached list with the message appended: one longer, prefix kept, last element the message; other chats untouched |
| MessagesApi.ClearMessagesCache | lib/chat-store/messages/api.ts:152-154 | leaves an empty list under that id |
| MessagesApi.ClearMessagesForChat | lib/chat-store/messages/api.ts:156-159 | leaves an empty list under that id |
| MessagesApi.ClearedReadsEmpty | lib/chat-store/messages/api.ts:152-154 | a cleared chat reads back as no messages |
| PolymindApi.BuildRequest | lib/polymind/api.ts:46-80 | Content-Type defaults to JSON unless the caller set it; non-empty initData sets `Authorization: tma <initData>` over any caller value; other caller headers kept; `user_id=<encoded>` appended with `&` or `?` only without initData and with a page user id |
| PolymindApi.UserIdParameterRoundTrip | lib/polymind/api.ts:74 | the encoded user id decodes back and contains none of `& ? # =` |
| PolymindApi.ChatsEndpoint | lib/polymind/api.ts:204-214 | the chat-listing path with `limit` first and a single `?` before the query |
| PolymindApi.ChatsEndpointDefaults | lib/polymind/api.ts:209-214 | absent or zero limit and offset give 50 and 0; other values are written in decimal |
| PolymindApi.DataEvent | lib/polymind/api.ts:161-168 | a line yields at most one event, and only when it starts with `data: ` and the rest parses to it |
| PolymindApi.ReadEvents | lib/polymind/api.ts:148-171 | the events yielded are those of the complete lines of the concatenated stream text, so they do not depend on how the text is split into chunks |
| PolymindApi.HandleLines | lib/polymind/api.ts:160-170 | the events of a batch of lines are the events of each line in order |
| PolymindApi.StreamChatResponse | lib/polymind/api.ts:137-171 | non-OK fails with "Stream failed: <statusText>" and a missing body with "Response body is null", before any event; otherwise the events of the stream |
| PolymindApi.SkippedLine | lib/polymind/api.ts:163-168 | a line that is not `data: ` or does not parse yields nothing, and the lines around it are unaffected |
| PolymindApi.TwoEventBody | lib/polymind/api.ts:156-168 | two `data:` lines separated by blank lines yield exactly their two parsed events |
| SseLines.ChunkStep | lib/polymind/api.ts:156-158 | splitting the buffer plus a chunk gives the same complete lines and pending tail as splitting the whole text read so far |
| SseLines.UnterminatedTailIgnored | lib/polymind/api.ts:152-158 | text after the last newline when the stream ends yields nothing |
| UriCodec.DecodeEncode | lib/chat-store/session/provider.tsx:24 | `decodeURIComponent(encodeURIComponent(s)) == s` for every string |
| UriCodec.EncodeHasNoDelimiters | lib/polymind/api.ts:74 | an encoded component contains none of `& ? # = / +` nor a space |
| Text.IntToStringRoundTrip | app/api/chat/route.ts:127 | `String(n)` of a whole number is its decimal text, which reads back as the same number |
| JsonText.QuoteRoundTrip | app/api/chat/route.ts:129 | the JSON string literal of a text reads back as that text |
| ChatRoute.TrimStart | app/api/chat/route.ts:114 | removes exactly the leading white space: a suffix, starting with a non-space |
| ChatRoute.TrimEnd | app/api/chat/route.ts:114 | removes exactly the trailing white space: a prefix, ending with a non-space |
| ChatRoute.QuotedFrame | app/api/chat/route.ts:129 | `0:` or `3:` plus a JSON string literal plus a newline is one well-formed frame line |
| ChatRoute.EventFramesAreFrames | app/api/chat/route.ts:123-147 | each event gives well-formed frames only: `0:`, `d:` or `3:`, one line each |
| ChatRoute.LineFramesAreFrames | app/api/chat/route.ts:113-154 | each stream line, parsed or not, gives well-formed frames only |
| ChatRoute.FramesAreLines | app/api/chat/route.ts:108-156 | everything the transform enqueues is a sequence of complete frame lines |
| ChatRoute.ContentFrameCarriesText | app/api/chat/route.ts:123-130 | a content event gives exactly one frame, `0:` plus the quoted content, which reads back as the content |
| ChatRoute.ErrorTextDefaults | app/api/chat/route.ts:136-138 | a missing or falsy error becomes "Unknown error"; a string error is kept |
| ChatRoute.ParseErrorQuotesPrefix | app/api/chat/route.ts:148-153 | an unparsable payload gives one `3:` frame quoting "Parse error: " and the payload's first 100 characters |
| ChatRoute.TransformStream | app/api/chat/route.ts:96-162 | the frames enqueued are those of the complete lines of the concatenated upstream text, independent of chunking |
| ChatRoute.TransformLines | app/api/chat/route.ts:112-156 | the frames of a batch of lines are the frames of each line in order |
| ChatRoute.Admit | app/api/chat/route.ts:25-47 | a parse failure or null body is a 500; missing messages or userId is a 400; admitted exactly when userId is truthy and the last message exists with role `user` |
| ChatRoute.BackendRequest | app/api/chat/route.ts:49-71 | the body always has include_context true and max_context_messages 10, carries chat_id only when truthy, and nothing else; authorization is forwarded only when non-empty |
| ChatRoute.Post | app/api/chat/route.ts:23-191 | a rejected request gets its reply with no backend call; an admitted one sends the backend request; unreachable is a 500; non-OK is "Backend error: <statusText>" with the backend's status; no body is a 500; otherwise the transformed stream |
| SessionProvider.ActiveChatId | lib/chat-store/session/provider.tsx:19-32 | a chat id exactly for paths starting `/c/`: the decoded rest, or the raw rest when decoding fails |
| SessionProvider.ChatLinkRoundTrip | lib/chat-store/session/provider.tsx:20-24 | `/c/` plus an encoded id gives back that id |
| SessionProvider.WholeSuffix | lib/chat-store/session/provider.tsx:20-31 | `/c/` gives "", `/c/a/b` gives "a/b", `/chat` and no path give none |
| SessionProvider.MalformedEscapeKeptRaw | lib/chat-store/session/provider.tsx:25-29 | a malformed escape keeps the raw suffix instead of failing |
| TelegramClient.Client.constructor | lib/telegram/client.ts:11-12 | a new client is not initialised and has no webapp |
| TelegramClient.IsAvailable | lib/telegram/client.ts:49-51 | true exactly when there is a window carrying the SDK; `Client.Init` succeeds exactly when it holds |
| TelegramClient.Client.IsInitialized | lib/telegram/client.ts:199-201 | for a client kept by its own methods, initialised exactly when it holds the SDK |
| TelegramClient.Client.Init | lib/telegram/client.ts:17-44 | succeeds exactly when the SDK is present, then holds it and is initialised; otherwise nothing changes |
| TelegramClient.Client.GetUser | lib/telegram/client.ts:56-62 | none without a webapp, else the init data's user |
| TelegramClient.Client.GetUserId | lib/telegram/client.ts:67-70 | none when there is no user or the id is 0, else the id |
| TelegramClient.Client.GetInitData | lib/telegram/client.ts:75-77 | "" without a webapp, else its init data |
| TelegramClient.Client.GetInitDataUnsafe | lib/telegram/client.ts:82-84 | present exactly when there is a webapp |
| TelegramClient.Client.GetTheme | lib/telegram/client.ts:89-94 | never an empty colour scheme; "light" and no parameters without a webapp |
| TelegramClient.Client.Forward | lib/telegram/client.ts:99-187 | an SDK call is forwarded unchanged exactly when there is a webapp, else nothing happens |
| TelegramClient.UninitialisedDefaults | lib/telegram/client.ts:56-94 | without a webapp: no user, no id, "" init data, no unsafe data, light theme |
| ModelsIndex.ModelsCache.constructor | lib/models/index.ts:5-6 | starts with no cache and time 0 |
| ModelsIndex.ModelsCache.GetAllModels | lib/models/index.ts:10-30 | within five minutes of a fetch the cache is served untouched; otherwise a load is cached (or [] when not an array) with the time, and a failed load returns [] and changes nothing |
| ModelsIndex.ModelsCache.Refresh | lib/models/index.ts:94-97 | clears the cache so no time counts as fresh and the next call fetches |
| ModelsIndex.ServedWithinWindow | lib/models/index.ts:7-16 | a cached list is served from the cache until five minutes after its fetch time, and no longer |
| ModelsIndex.ModelsCache.ModelInfo | lib/models/index.ts:76-88 | the first cached model with that id; none without a cache or a match |
| ModelsIndex.FindModel | lib/models/index.ts:79 | the first model with that id, or none exactly when no model has it |
| ModelsIndex.WithAccessFlags | lib/models/index.ts:32-49 | every returned model is flagged accessible exactly when its id is free |
| ModelsIndex.AccessFlagsPartition | lib/models/index.ts:35-49 | the free models flagged accessible in input order, then all other models flagged not accessible in input order |
| ModelsIndex.AccessFlagsPermutation | lib/models/index.ts:35-49 | each result entry is accessible exactly when its id is free, and apart from the flags the result is a permutation of the input |
| ModelsIndex.ForProvider | lib/models/index.ts:52-63 | only models of that provider, flagged accessible, and every such model present |
| ModelsIndex.ForProviderAppend | lib/models/index.ts:52-63 | the result for a concatenation is the concatenation of the results, so the input order is kept |
| ModelsIndex.ForProviderSingle | lib/models/index.ts:52-63 | one model gives itself flagged accessible, once, exactly when it is the provider's, else nothing |
| ModelsIndex.ForUserProviders | lib/models/index.ts:66-72 | only input models whose provider is in the list, and every such model present |
| ModelsIndex.ForUserProvidersAppend | lib/models/index.ts:66-72 | the result for a concatenation is the concatenation of the results, so the input order is kept |
| ModelsIndex.ForUserProvidersSingle | lib/models/index.ts:66-72 | one model is kept unchanged, once, exactly when its provider is in the list, else dropped |
| UseModel.EffectiveModel | app/components/chat/use-model.ts:32-36 | the chat's model, else the first listed model's id, else the fallback; never empty |
| UseModel.SelectedModel | app/components/chat/use-model.ts:45 | the override when non-empty, else the effective model; never empty |
| UseModel.ChatModelShown | app/components/chat/use-model.ts:35 | with no override a chat's non-empty model is shown |
| UseModel.ModelSelection.Selected | app/components/chat/use-model.ts:45 | the picker never shows an empty model |
| UseModel.ModelSelection.HandleModelChange | app/components/chat/use-model.ts:48-80 | sets the override first; persists only with a chat id, an updater and a user id; on failure clears the override and rethrows; on success keeps it |
| UseModel.ChangeOutcomeShown | app/components/chat/use-model.ts:51-75 | after a kept change the new model is shown; after a failed save the effective model is shown again |
| Usage.CheckUsage | lib/usage.ts:16-24 | nothing used today, the authenticated daily limit |
| Usage.CheckProUsage | lib/usage.ts:38-44 | no pro messages used, the pro-model limit |
| Usage.IsFreeModel | lib/usage.ts:9 | a model is free exactly when its id is among the configured free ids |
| Usage.IsProModel | lib/usage.ts:10 | every model that is not free is a pro model |
| Usage.CheckUsageByModel | lib/usage.ts:58-71 | fails with the login message exactly for a pro model when unauthenticated; a pro model reports the pro record, a free one the daily record |
| Usage.IncrementUsageByModel | lib/usage.ts:77-88 | never fails; counts nothing exactly for an unauthenticated pro request; otherwise the pro or the daily counter |
| Usage.IncrementFollowsCheck | lib/usage.ts:58-88 | the increment skips exactly when the check refuses and touches the counter the check reported |
| CreateChatApi.CreateChatInDb | app/api/create-chat/api.ts:12-32 | fails exactly when the usage gate does; otherwise the fresh id, the title or "New Chat", the copied user, model and project, both times now |
| CreateChatApi.CreatedTitleNonEmpty | app/api/create-chat/api.ts:26 | a created chat's title is never empty |
| CreateChatApi.FreeModelNeverRefused | app/api/create-chat/api.ts:21 | a free model is never refused, logged in or not |
| RateLimitsApi.GetMessageUsage | app/api/rate-limits/api.ts:8-25 | the daily limit by authentication, remaining equal to it, zero counts, the pro limit |
| RateLimitsApi.AgreesWithUsageGate | app/api/rate-limits/api.ts:14-23 | an authenticated user is shown the limits and counts the usage gate reports |
| FileHandling.SizeMessage | lib/file-handling.ts:33 | the size message reads "File size exceeds 10MB limit" |
| FileHandling.ValidateFile | lib/file-handling.ts:27-45 | valid exactly when at most 10485760 bytes and of an allowed type; the size error wins over the type error; a valid file has no error |
| FileHandling.CreateAttachment | lib/file-handling.ts:54-60 | name and type copied, the given URL, no data |
| FileHandling.SecondField | lib/file-handling.ts:115 | `split(',')[1]`: absent exactly when there is no comma, and never contains one |
| FileHandling.Attach | lib/file-handling.ts:69-100 | an attachment exactly for a valid file whose object URL (and, for an image, data URL) does not throw; its URL is the object URL; name and type are copied; only images carry data, the data URL's payload |
| FileHandling.ProcessFiles | lib/file-handling.ts:62-104 | the attachments are those of the picked files in order |
| FileHandling.ProcessedAppend | lib/file-handling.ts:69-101 | files are handled one by one: processing a concatenation concatenates the results |
| FileHandling.ProcessedFromValidFiles | lib/file-handling.ts:70-79 | every attachment comes from a picked file that passed validation |
| FileHandling.SkippedFileContributesNothing | lib/file-handling.ts:71-100 | a file that fails validation or throws adds nothing and does not disturb the others |
| FileHandling.AllAccepted | lib/file-handling.ts:69-101 | when every file is accepted there is one attachment per file, in order |
| FileHandling.DataUrlPayload | lib/file-handling.ts:113-116 | for a `data:<type>;base64,<payload>` URL the data is the payload |
| FileHandling.CheckFileUploadLimit | lib/file-handling.ts:134-138 | always 0 |
| UserPreferencesRoute.Get | app/api/user-preferences/route.ts:9-23 | exactly the six preference fields, each with its default value |
| UserPreferencesRoute.Echo | app/api/user-preferences/route.ts:63-73 | `success: true` plus exactly the named fields the request has, with their values |
| UserPreferencesRoute.Put | app/api/user-preferences/route.ts:33-83 | a truthy non-string layout is a 400, checked first; a truthy non-array hidden_models is a 400; a parse failure is a 500; otherwise 200 echoing exactly the provided fields |
| UserPreferencesRoute.FalsyLayoutAccepted | app/api/user-preferences/route.ts:47 | a falsy layout passes the type check |
| FavoriteModelsRoute.Every | app/api/user-preferences/favorite-models/route.ts:24 | `every` holds exactly when all elements are strings |
| FavoriteModelsRoute.Post | app/api/user-preferences/favorite-models/route.ts:9-44 | a non-array is a 400; any non-string element is a 400; a parse failure is a 500; otherwise 200 echoing the list |
| FavoriteModelsRoute.Get | app/api/user-preferences/favorite-models/route.ts:46-60 | an empty favourites list |
| FavoriteModelsRoute.EmptyFavoritesAccepted | app/api/user-preferences/favorite-models/route.ts:24-36 | an empty list is valid |
| ToggleChatPinRoute.Post | app/api/toggle-chat-pin/route.ts:8-29 | a falsy chatId or a non-boolean pinned is a 400; a parse failure is a 500; otherwise 200 `success: true` |
| ToggleChatPinRoute.UnpinAccepted | app/api/toggle-chat-pin/route.ts:12 | `pinned: false` is accepted |
| UpdateChatModelRoute.Post | app/api/update-chat-model/route.ts:6-29 | a falsy chatId or model is a 400; a thrown error is a 500 with its message or "Internal server error"; otherwise 200 `success: true` |
| UserKeysRoute.Post | app/api/user-keys/route.ts:9-34 | a missing provider or key is a 400; a parse failure is a 500; otherwise 200 with `success: false` |
| UserKeysRoute.Delete | app/api/user-keys/route.ts:36-59 | a missing provider is a 400; a parse failure is a 500; otherwise 200 with `success: false` |
| CreateGuestRoute.Post | app/api/create-guest/route.ts:1-27 | a missing userId is a 400; a thrown error is a 500 with its message; otherwise 200 with a user whose id is the given one and who is not anonymous |
| ProjectsRoute.Post | app/api/projects/route.ts:8-36 | a missing name is a 400; a thrown error is a 500 with its message; otherwise a project with exactly the fresh id, the given name and the time |
| ProjectsRoute.Get | app/api/projects/route.ts:38-50 | always an empty list |

## Left out

- The readiness wait: the 100 ms polling and the 5-second timeout in lib/chat-store/chats/api.ts:18-40, lib/chat-store/messages/api.ts:41-61 and lib/polymind/api.ts:14-27 become the input `ready`. `polymindFetch` goes on after a timeout with whatever init data it has, and the model does the same.
- The merge fallback at lib/chat-store/chats/api.ts:105-109 writes the backend-only listing. In the model nothing in the merge can throw, so this branch is not modelled. It would store the same collection (`ChatsApi.MergeListing`), but unsorted.
- lib/chat-store/persist is not part of this model. The model assumes that an array write replaces a collection and a record write upserts one record. Errors from IndexedDB are not modelled, so the `try`/`catch` around the messages-entry write in `createNewChat` (lines 358-362) and its fallback (lines 365-368) have no counterpart.
- `TextDecoder` and the reader: the stream is a sequence of already decoded string chunks. Reader errors, `controller.error` and `releaseLock` are not modelled.
- Strings are sequences of Unicode scalar values. JavaScript's UTF-16 code units, and lone surrogates in particular, are not modelled. `substring(0, 100)` counts scalar values here.
- Dates: `new Date(...)` over ISO strings and its NaN for missing or invalid strings are not modelled. Timestamps are integers, and the current time is an argument.
- `Headers` instances and array-valued `HeadersInit`: caller headers are a plain string map.
- `messages[messages.length - 1]` on array-like objects that are not arrays: a non-array `messages` value has no last element in the model.
- `String(value)` on objects is "[object Object]". Objects that define their own `toString` or `valueOf` cannot come out of `JSON.parse`, and numbers are whole numbers.
- The wording of engine error messages: reading a property of a null reply and destructuring a null body are modelled as fixed messages (`Http.NullBodyMessage`, `ChatsApi.NullReadMessage`).
- The chat route's catch reads `statusCode` from the thrown error. The errors that can reach it here (a body parse failure, destructuring null, a failed `fetch`) have none, so the status is 500.
- Logging, toasts and the `console` output in every file.
- Concurrency: the operations are modelled one at a time, with no interleaving of cache writes from concurrent calls.
- The request body `streamChatResponse` sends (lib/polymind/api.ts:125-135) is not modelled; the event stream it reads is.
- The SDK calls `ready()` and `expand()` in `init` (lib/telegram/client.ts:29-30) are not modelled. The thin SDK wrappers (lib/telegram/client.ts:99-187) are modelled together as `TelegramClient.Client.Forward`, which forwards a call only when there is a webapp.
- `createChat` (lib/chat-store/chats/api.ts:195-215) writes a record without `pinned`/`public`. The model stores `false` for both, `None` for the update time and the project, and uses the given integer time for `created_at`.
- The other backend wrappers of lib/polymind/api.ts (`getModels`, `createChat`, `deleteChat`, and the preference calls) only wrap `polymindFetch` with no decision logic.
- The `lib/config` constants are a parameter, because their values are not part of the source files modelled.
- ModelsIndex.ModelsCache.GetAllModels: the dynamic import of the backend client and the `Array.isArray` test are folded into the `ModelsFetch` input.
- FileHandling.ProcessFiles: `URL.createObjectURL` and `FileReader` are inputs given with each file. Whether reading the data URL or creating the object URL throws is part of that input.
- Backend replies are assumed well-typed: a readable listing is an array of sessions or messages, and `createNewChat`'s `error` is a string. Two behaviours that only ill-typed bodies trigger are not modelled. `getMessagesFromDb` hands back a 2xx non-array body unchanged, because its `length > 0` test fails (lib/chat-store/messages/api.ts:67-76). A non-string `error` from `createNewChat` is thrown as it is.

/**
 * The identity state holder (lib/telegram/client.ts): a client that learns
 * the Telegram WebApp object once `init` finds the SDK, and answers the
 * identity and theme queries from it, with defaults before that.
 */
module TelegramClient {
  import opened Wrappers

  datatype TelegramUser = TelegramUser(id: int, firstName: string, username: Option<string>)

  /** The unverified init data; only the user is read. */
  datatype InitDataUnsafe = InitDataUnsafe(user: Option<TelegramUser>)

  /** The SDK object `window.Telegram.WebApp`, as far as the client reads it. */
  datatype WebApp = WebApp(
    initData: string,
    initDataUnsafe: InitDataUnsafe,
    colorScheme: string,
    themeParams: map<string, string>)

  /** The page: None on the server; `sdk` is `window.Telegram?.WebApp`. */
  datatype Window = Window(sdk: Option<WebApp>)

  datatype Theme = Theme(colorScheme: string, params: map<string, string>)

  /** The calls the client forwards to the SDK (show/hide buttons, alerts, links, data, closing). */
  datatype SdkCall =
    | ShowBackButton | HideBackButton | ShowMainButton(text: string) | HideMainButton
    | ShowAlert(message: string) | ShowConfirm(message: string) | Close | OpenLink(url: string)
    | SendData(data: map<string, string>) | EnableClosingConfirmation | DisableClosingConfirmation

  /** `isAvailable`: whether the page has the SDK, whatever the client's state. */
  predicate IsAvailable(window: Option<Window>) {
    window.Some? && window.value.sdk.Some?
  }

  class Client {
    var webapp: Option<WebApp>
    var initialized: bool

    /** Only `init` sets the fields, and it sets both together. */
    ghost predicate Valid()
      reads this
    {
      initialized <==> webapp.Some?
    }

    /** A fresh client is not initialised and holds no webapp. */
    constructor ()
      ensures Valid() && webapp.None? && !initialized
    {
      webapp := None;
      initialized := false;
    }

    /**
     * `init`: without a window or without the SDK it answers false and
     * changes nothing; otherwise it keeps the SDK object and is initialised.
     */
    method Init(window: Option<Window>) returns (ok: bool)
      requires Valid()
      modifies this
      ensures Valid()
      ensures ok <==> IsAvailable(window)
      ensures ok ==> webapp == window.value.sdk && initialized
      ensures !ok ==> webapp == old(webapp) && initialized == old(initialized)
    {
      if window.None? {
        return false;
      }
      if window.value.sdk.None? {
        return false;
      }
      webapp := window.value.sdk;
      initialized := true;
      ok := true;
    }

    /** `isInitialized`: for a client only `init` has touched, initialised exactly when it holds the SDK. */
    function IsInitialized(): (r: bool)
      reads this
      ensures Valid() ==> (r <==> webapp.Some?)
    {
      initialized
    }

    function GetWebApp(): Option<WebApp>
      reads this
    {
      webapp
    }

    /** `getUser`: the init data's user, or null without a webapp. */
    function GetUser(): (r: Option<TelegramUser>)
      reads this
      ensures webapp.None? ==> r.None?
      ensures webapp.Some? ==> r == webapp.value.initDataUnsafe.user
    {
      if webapp.None? then None else webapp.value.initDataUnsafe.user
    }

    /** `getUserId`: the user's id, or null when there is no user or the id is 0. */
    function GetUserId(): (r: Option<int>)
      reads this
      ensures r.Some? <==> GetUser().Some? && GetUser().value.id != 0
      ensures r.Some? ==> r.value == GetUser().value.id
    {
      var user := GetUser();
      if user.Some? && user.value.id != 0 then Some(user.value.id) else None
    }

    /** `getInitData`: the signed init data, or "" without a webapp. */
    function GetInitData(): (r: string)
      reads this
      ensures webapp.None? ==> r == ""
      ensures webapp.Some? ==> r == webapp.value.initData
    {
      if webapp.Some? then webapp.value.initData else ""
    }

    function GetInitDataUnsafe(): (r: Option<InitDataUnsafe>)
      reads this
      ensures r.Some? <==> webapp.Some?
      ensures r.Some? ==> r.value == webapp.value.initDataUnsafe
    {
      if webapp.Some? then Some(webapp.value.initDataUnsafe) else None
    }

    /** `getTheme`: the webapp's scheme (light when absent or empty) and its parameters (none when absent). */
    function GetTheme(): (r: Theme)
      reads this
      ensures webapp.None? ==> r == Theme("light", map[])
      ensures r.colorScheme != ""
      ensures webapp.Some? && webapp.value.colorScheme != "" ==> r.colorScheme == webapp.value.colorScheme
      ensures webapp.Some? ==> r.params == webapp.value.themeParams
    {
      if webapp.Some? then
        Theme(if webapp.value.colorScheme != "" then webapp.value.colorScheme else "light", webapp.value.themeParams)
      else Theme("light", map[])
    }

    /** The SDK helpers: each does nothing until there is a webapp, and never changes the client. */
    method Forward(call: SdkCall) returns (forwarded: Option<SdkCall>)
      ensures forwarded.Some? <==> webapp.Some?
      ensures forwarded.Some? ==> forwarded.value == call
    {
      if webapp.None? {
        return None;
      }
      forwarded := Some(call);
    }
  }

  /** Before `init` succeeds every query answers its default. */
  lemma UninitialisedDefaults(c: Client)
    requires c.webapp.None?
    ensures c.GetUser().None? && c.GetUserId().None? && c.GetInitData() == ""
    ensures c.GetInitDataUnsafe().None? && c.GetTheme() == Theme("light", map[])
  {
  }
}

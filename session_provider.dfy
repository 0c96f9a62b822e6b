/**
 * The active chat id of the session provider
 * (lib/chat-store/session/provider.tsx): the percent-decoded rest of a
 * `/c/…` path, or the raw rest when it does not decode.
 */
module SessionProvider {
  import opened Wrappers
  import UriCodec

  /** `pathname` is None while the router has no path. */
  function ActiveChatId(pathname: Option<string>): (r: Option<string>)
    ensures r.Some? <==> pathname.Some? && "/c/" <= pathname.value
    ensures r.Some? ==> var rest := pathname.value[3..];
      (UriCodec.Decode(rest).Some? ==> r.value == UriCodec.Decode(rest).value)
      && (UriCodec.Decode(rest).None? ==> r.value == rest)
  {
    if pathname.Some? && "/c/" <= pathname.value then
      var rest := pathname.value[3..];
      match UriCodec.Decode(rest)
      case Some(id) => Some(id)
      case None => Some(rest)
    else None
  }

  /** The link to a chat, `/c/` and the encoded id, leads back to that id. */
  lemma ChatLinkRoundTrip(id: string)
    ensures ActiveChatId(Some("/c/" + UriCodec.Encode(id))) == Some(id)
  {
    assert ("/c/" + UriCodec.Encode(id))[3..] == UriCodec.Encode(id);
    UriCodec.DecodeEncode(id);
  }

  /** The whole rest of the path is taken, slashes included, and a bare `/c/` gives the empty id. */
  lemma WholeSuffix()
    ensures ActiveChatId(Some("/c/")) == Some("")
    ensures ActiveChatId(Some("/c/a/b")) == Some("a/b")
    ensures ActiveChatId(Some("/chat")) == None
    ensures ActiveChatId(None) == None
  {
    assert "/c/a/b"[3..] == "a/b";
    UriCodec.DecodeWithoutEscapes("a/b");
    UriCodec.DecodeWithoutEscapes("");
    assert "/chat"[2] != "/c/"[2];
  }

  /** A malformed escape does not throw: the raw rest is the id. */
  lemma MalformedEscapeKeptRaw()
    ensures ActiveChatId(Some("/c/%")) == Some("%")
    ensures ActiveChatId(Some("/c/a%2")) == Some("a%2")
  {
    assert "/c/%"[3..] == "%";
    assert UriCodec.Decode("%").None?;
    assert "/c/a%2"[3..] == "a%2";
    assert UriCodec.Decode("%2").None?;
  }
}

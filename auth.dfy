/**
 * The client's token utilities (`authUtils`): one token kept in the browser's `localStorage`
 * under a fixed key, and the `Authorization` header built from it.
 */
module Auth {
  import opened Wrappers
  import JwtUtils

  const TokenKey: string := "urler_token"
  const AuthorizationHeader: string := "Authorization"

  /** JavaScript truthiness of `string | null`: null and `""` are falsy. */
  predicate Truthy(token: Option<string>)
  {
    token.Some? && token.value != ""
  }

  /** The header record for a token: one `Authorization` entry for a truthy token, none otherwise. */
  function AuthHeaderFor(token: Option<string>): (r: map<string, string>)
    ensures AuthorizationHeader in r <==> Truthy(token)
    ensures Truthy(token) ==> r == map[AuthorizationHeader := JwtUtils.BearerPrefix + token.value]
    ensures !Truthy(token) ==> r == map[]
  {
    if Truthy(token) then map[AuthorizationHeader := "Bearer " + token.value] else map[]
  }

  /**
   * The header the client sends is read back by the server as the same token, for every
   * non-empty token.
   */
  lemma AuthHeaderRoundTrip(t: string)
    requires t != ""
    ensures JwtUtils.GetJwtFromHeader(Some(AuthHeaderFor(Some(t))[AuthorizationHeader])) == Some(t)
  {
    JwtUtils.ExtractsBearerToken(t);
  }

  /** The browser storage as seen by `authUtils`; `hasWindow` is `typeof window !== 'undefined'`. */
  class TokenStore {
    const hasWindow: bool
    var storage: map<string, string>

    constructor (hasWindow: bool, storage: map<string, string>)
      ensures this.hasWindow == hasWindow && this.storage == storage
    {
      this.hasWindow := hasWindow;
      this.storage := storage;
    }

    /** `saveToken`: writes the one key in a browser, does nothing elsewhere. */
    method SaveToken(token: string)
      modifies this
      ensures hasWindow ==> storage == old(storage)[TokenKey := token]
      ensures !hasWindow ==> storage == old(storage)
      ensures hasWindow ==> GetToken() == Some(token)
      ensures forall k :: k != TokenKey ==> (k in storage <==> k in old(storage))
      ensures forall k :: k != TokenKey && k in storage ==> storage[k] == old(storage)[k]
    {
      if hasWindow {
        storage := storage[TokenKey := token];
      }
    }

    /** `getToken`: the stored token in a browser, null elsewhere or when none is stored. */
    function GetToken(): (r: Option<string>)
      reads this
      ensures r.Some? <==> hasWindow && TokenKey in storage
      ensures r.Some? ==> r.value == storage[TokenKey]
    {
      if hasWindow && TokenKey in storage then Some(storage[TokenKey]) else None
    }

    /** `removeToken`: deletes the one key in a browser, does nothing elsewhere. */
    method RemoveToken()
      modifies this
      ensures hasWindow ==> storage == old(storage) - {TokenKey}
      ensures !hasWindow ==> storage == old(storage)
      ensures GetToken() == None && !IsAuthenticated()
      ensures forall k :: k != TokenKey ==> (k in storage <==> k in old(storage))
      ensures forall k :: k != TokenKey && k in storage ==> storage[k] == old(storage)[k]
    {
      if hasWindow {
        storage := storage - {TokenKey};
      }
      assert hasWindow ==> TokenKey !in storage;
    }

    /** `isAuthenticated`: `!!getToken()`, so true exactly when a browser holds a non-empty token. */
    function IsAuthenticated(): (r: bool)
      reads this
      ensures r <==> hasWindow && TokenKey in storage && |storage[TokenKey]| > 0
    {
      Truthy(GetToken())
    }

    /** `getAuthHeader`. */
    function GetAuthHeader(): (r: map<string, string>)
      reads this
      ensures r == AuthHeaderFor(GetToken())
      ensures AuthorizationHeader in r <==> IsAuthenticated()
      ensures IsAuthenticated() ==> r[AuthorizationHeader] == "Bearer " + storage[TokenKey]
    {
      AuthHeaderFor(GetToken())
    }
  }

  /**
   * A login as the client performs it: the token is saved, and while it stays stored every
   * request's `Authorization` header is read by the server as that token.
   */
  method SaveThenAuthorize(store: TokenStore, t: string) returns (extracted: Option<string>)
    requires store.hasWindow && t != ""
    modifies store
    ensures store.IsAuthenticated()
    ensures extracted == Some(t)
  {
    store.SaveToken(t);
    var header := store.GetAuthHeader();
    AuthHeaderRoundTrip(t);
    extracted := JwtUtils.GetJwtFromHeader(Some(header[AuthorizationHeader]));
  }
}

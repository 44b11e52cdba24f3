/** The access-token cache of backend/src/auth/zohoAuth.js: the cached token is served
    while it stays valid for more than five minutes, and is refreshed from Zoho's token
    endpoint otherwise. The module-level variables become an explicit `TokenCache`, the
    two clock readings parameters (`now` before the request, `answered` once the reply
    is in), and the token endpoint's answer a parameter `reply`. */
module ZohoAuth {
  import opened Wrappers
  import opened Records
  import opened Text

  /** A cached token is only served while it has more than this long to live. */
  const RefreshMargin: int := 5 * MsPerMinute

  /** `currentAccessToken` and `tokenExpiryTime`. An expiry of `None` is the `NaN` that
      `Date.now() + undefined * 1000` produces when the reply carries no `expires_in`. */
  datatype TokenCache = TokenCache(token: Option<string>, expiry: Option<Instant>)

  /** The state at start-up: no token, expiry 0. */
  const InitialCache: TokenCache := TokenCache(None, Some(0))

  /** The cache answers without a request: a token is held and `now` is more than
      `RefreshMargin` before its expiry (a `NaN` expiry compares false). */
  predicate ServesFromCache(cache: TokenCache, now: Instant) {
    Truthy(cache.token) && cache.expiry.Some? && now < cache.expiry.value - RefreshMargin
  }

  /** `config.zoho`; an empty field stands for a missing one. */
  datatype Credentials = Credentials(refreshToken: string, clientId: string, clientSecret: string)

  predicate Configured(c: Credentials) {
    c.refreshToken != "" && c.clientId != "" && c.clientSecret != ""
  }

  /** The token endpoint's JSON answer (`error`, `access_token`, `expires_in` in seconds),
      or a failure of the request itself. */
  datatype TokenReply =
    | TokenBody(error: Option<string>, accessToken: Option<string>, expiresIn: Option<int>)
    | Unreachable(reason: string)

  datatype AuthError = NotConfigured | AuthRefused(error: string) | RequestFailed(reason: string)

  /** The outcome of one call: the token returned or the error thrown, the cache after
      the call, and whether a request went to the token endpoint. */
  datatype TokenResult = TokenResult(token: Result<Option<string>, AuthError>, cache: TokenCache, requested: bool)

  /** `getValidAccessToken`: `now` is the clock read by the freshness test and
      `answered` the clock read again after the token endpoint replied. */
  function GetValidAccessToken(cache: TokenCache, creds: Credentials, now: Instant, reply: TokenReply,
                               answered: Instant)
    : (r: TokenResult)
    ensures r.requested <==> !ServesFromCache(cache, now) && Configured(creds)
    ensures (r.token.Success? && !r.requested) <==> ServesFromCache(cache, now)
    ensures ServesFromCache(cache, now) ==> r.token == Success(cache.token) && r.cache == cache
    ensures !ServesFromCache(cache, now) && !Configured(creds) ==> r.token == Failure(NotConfigured)
    ensures r.token.Failure? ==> r.cache == cache
    ensures r.token.Success? ==> r.cache.token == r.token.value
    ensures r.requested && r.token.Success? ==>
              reply.TokenBody? && !Truthy(reply.error)
              && r.token.value == reply.accessToken
              && r.cache.expiry == (if reply.expiresIn.Some? then Some(answered + reply.expiresIn.value * MsPerSecond) else None)
  {
    if ServesFromCache(cache, now) then TokenResult(Success(cache.token), cache, false)
    else if !Configured(creds) then TokenResult(Failure(NotConfigured), cache, false)
    else
      match reply
      case Unreachable(reason) => TokenResult(Failure(RequestFailed(reason)), cache, true)
      case TokenBody(error, accessToken, expiresIn) =>
        if Truthy(error) then TokenResult(Failure(AuthRefused(error.value)), cache, true)
        else
          var expiry := if expiresIn.Some? then Some(answered + expiresIn.value * MsPerSecond) else None;
          TokenResult(Success(accessToken), TokenCache(accessToken, expiry), true)
  }

  /** A token served without a request still has more than five minutes to live. */
  lemma ServedTokenIsFresh(cache: TokenCache, creds: Credentials, now: Instant, reply: TokenReply, answered: Instant)
    ensures var r := GetValidAccessToken(cache, creds, now, reply, answered);
            r.token.Success? && !r.requested ==>
              r.cache.expiry.Some? && now + RefreshMargin < r.cache.expiry.value && Truthy(r.token.value)
  {
  }

  /** After a successful refresh at `t`, answered at `answered` with a non-empty token for
      `seconds`, every call before `answered + seconds * 1000 - 5 min` returns that token
      without a request, whatever the credentials and the endpoint would answer by then. */
  lemma RefreshedTokenReused(cache: TokenCache, creds: Credentials, t: Instant, answered: Instant,
                             token: string, seconds: int,
                             creds2: Credentials, later: Instant, reply2: TokenReply, answered2: Instant)
    requires Configured(creds) && token != ""
    requires !ServesFromCache(cache, t)
    requires later < answered + seconds * MsPerSecond - RefreshMargin
    ensures var r1 := GetValidAccessToken(cache, creds, t, TokenBody(None, Some(token), Some(seconds)), answered);
            var r2 := GetValidAccessToken(r1.cache, creds2, later, reply2, answered2);
            && r1.token == Success(Some(token)) && r1.requested
            && r2.token == Success(Some(token)) && !r2.requested && r2.cache == r1.cache
  {
  }

  /** Once `now` reaches five minutes before expiry the cached token is never served:
      the call either asks the endpoint or fails for want of credentials. */
  lemma NoServeNearExpiry(cache: TokenCache, creds: Credentials, now: Instant, reply: TokenReply, answered: Instant)
    requires cache.expiry.Some? && now >= cache.expiry.value - RefreshMargin
    ensures var r := GetValidAccessToken(cache, creds, now, reply, answered);
            r.requested || r.token == Failure(NotConfigured)
  {
  }
}

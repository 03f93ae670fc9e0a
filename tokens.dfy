/** The access-token cache of `AzureADApplication` (`app.ts`): when a refresh
    exchanges the client credentials for a new token (the client-credentials
    grant of section 4.4 of RFC 6749), the token request it sends, and the expiry
    it records afterwards. Time is an integer number of milliseconds. */
module Tokens {
  import opened Wrappers
  import opened Records
  import opened Platform

  /** `limitDt.setMinutes(limitDt.getMinutes() - 30)`: thirty minutes. */
  const RefreshMargin := 30 * 60 * 1000

  /** A `Date`: a time value, or the invalid date whose time value is NaN. */
  datatype Instant = At(ms: int) | Invalid

  datatype Config = Config(tenantId: string, clientId: string, clientSecret: string)

  /** What the token endpoint answers: `None` when `fetch` or `response.json()`
      rejects; otherwise the `access_token` of the JSON body, which is
      undefined in an error response. */
  datatype TokenReply = TokenReply(accessToken: Option<string>)

  /** `limit > expiry` on dates: a comparison of time values, false when either
      is NaN. */
  predicate Later(limit: int, expiry: Instant) {
    expiry.At? && limit > expiry.ms
  }

  /** The condition of `refresh`: a non-empty client secret, no recorded expiry,
      or an expiry more than thirty minutes before `now`. */
  predicate NeedsExchange(clientSecret: string, expiresIn: Option<Instant>, now: int) {
    clientSecret != "" || expiresIn.None? || Later(now - RefreshMargin, expiresIn.value)
  }

  /** The expiry recorded after an exchange. The code adds the `getSeconds`
      method itself, not its result, to `expires_in`; that sum is a string that
      is not a number, so `setSeconds` receives NaN and the date becomes invalid,
      whatever the `Date` header said. */
  function ExpiryAfterExchange(): (e: Instant)
    ensures e.Invalid?
  {
    Invalid
  }

  /** The token endpoint of a tenant. */
  function TokenUrl(tenantId: string): string {
    "https://login.microsoftonline.com/" + tenantId + "/oauth2/v2.0/token"
  }

  const VaultScope := "https://vault.azure.net/.default"

  /** The form fields of the token request, in the order they are written. */
  function TokenForm(config: Config): Record<string> {
    [ ("client_id", config.clientId),
      ("client_secret", config.clientSecret),
      ("scope", VaultScope),
      ("grant_type", "client_credentials") ]
  }

  /** The token request `refresh` sends. */
  function TokenRequest(config: Config): Request {
    Request("POST", TokenUrl(config.tenantId),
            [("Content-Type", "application/x-www-form-urlencoded")], Form(TokenForm(config)))
  }

  // ---- properties

  /** With no expiry recorded, a refresh always exchanges. */
  lemma NoExpiryExchanges(clientSecret: string, now: int)
    ensures NeedsExchange(clientSecret, None, now)
  {
  }

  /** A non-empty client secret forces an exchange whatever the expiry. */
  lemma SecretExchanges(clientSecret: string, expiresIn: Option<Instant>, now: int)
    requires clientSecret != ""
    ensures NeedsExchange(clientSecret, expiresIn, now)
  {
  }

  /** With an empty secret and a valid expiry, an exchange happens exactly when
      `now` is more than thirty minutes past the expiry: the token is renewed up
      to thirty minutes after it has expired, never before. */
  lemma ExchangeAfterMargin(expiry: int, now: int)
    ensures NeedsExchange("", Some(At(expiry)), now) <==> now > expiry + RefreshMargin
    ensures now <= expiry ==> !NeedsExchange("", Some(At(expiry)), now)
  {
  }

  /** After any exchange only the secret decides: the recorded expiry is invalid,
      it never compares as earlier than the limit and it is not missing. */
  lemma OnlySecretAfterExchange(clientSecret: string, now: int)
    ensures NeedsExchange(clientSecret, Some(ExpiryAfterExchange()), now) <==> clientSecret != ""
  {
  }

  /** The request is the client-credentials grant: it names the grant type, the
      client and its secret, and asks for the Key Vault scope. */
  lemma ClientCredentialsGrant(config: Config)
    ensures Distinct(TokenForm(config))
    ensures Get(TokenForm(config), "grant_type") == Some("client_credentials")
    ensures Get(TokenForm(config), "client_id") == Some(config.clientId)
    ensures Get(TokenForm(config), "client_secret") == Some(config.clientSecret)
    ensures Get(TokenForm(config), "scope") == Some(VaultScope)
  {
    var f := TokenForm(config);
    GetMember(f, "grant_type", "client_credentials");
    GetMember(f, "client_id", config.clientId);
    GetMember(f, "client_secret", config.clientSecret);
    GetMember(f, "scope", VaultScope);
  }
}

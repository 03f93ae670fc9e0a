/** The Key Vault clients (`app.ts`, `vault.ts`): an `AzureADApplication` that
    keeps an access token and its expiry and refreshes them in place, one
    `KeyVault` per name, and the secrets and keys whose operations go through
    `KeyVault.fetch`. The clock and the network are parameters: `now` is the
    current time, and `reply` is what the token endpoint answers if it is asked.
    Requests are returned instead of sent. */
module KeyVaultClient {
  import opened Wrappers
  import opened Records
  import opened Platform
  import opened Tokens
  import VaultRequests

  /** The Azure AD application whose client credentials buy the vault token. */
  class AzureADApplication {
    const config: Config
    const rt: Runtime
    var vaults: map<string, KeyVault>
    var accessToken: Option<string>
    var expiresIn: Option<Instant>

    /** Every memoised vault belongs to this application under the name it is kept at. */
    predicate Valid()
      reads this
    {
      forall n :: n in vaults ==> vaults[n].app == this && vaults[n].name == n
    }

    constructor(config: Config, rt: Runtime)
      ensures this.config == config && this.rt == rt
      ensures vaults == map[] && accessToken.None? && expiresIn.None?
      ensures Valid()
    {
      this.config := config;
      this.rt := rt;
      vaults := map[];
      accessToken := None;
      expiresIn := None;
    }

    /** `vault(name)`: the client kept for `name`, made and kept on first use. */
    method Vault(name: string) returns (v: KeyVault)
      requires Valid()
      modifies this
      ensures Valid()
      ensures v.app == this && v.name == name
      ensures old(name in vaults) ==> vaults == old(vaults) && v == old(vaults[name])
      ensures !old(name in vaults) ==> fresh(v) && vaults == old(vaults)[name := v]
      ensures accessToken == old(accessToken) && expiresIn == old(expiresIn)
    {
      if name !in vaults {
        var made := new KeyVault(this, name);
        vaults := vaults[name := made];
      }
      v := vaults[name];
    }

    /** `refresh()`: when `NeedsExchange` holds, sends the token request (`sent`)
        and, once the endpoint answers, records its `access_token` and the
        expiry the code computes; a failed exchange changes nothing. */
    method Refresh(now: int, reply: Option<TokenReply>) returns (sent: Option<Request>, r: Result<(), Failure>)
      modifies this
      ensures sent == if NeedsExchange(config.clientSecret, old(expiresIn), now) then Some(TokenRequest(config)) else None
      ensures r.Failure? <==> sent.Some? && reply.None?
      ensures r.Failure? ==> r.error == TokenRequestFailed
      ensures sent.Some? && reply.Some? ==> accessToken == reply.value.accessToken && expiresIn == Some(ExpiryAfterExchange())
      ensures sent.None? || reply.None? ==> accessToken == old(accessToken) && expiresIn == old(expiresIn)
      ensures vaults == old(vaults)
      // after an exchange, only a non-empty secret ever triggers the next one
      ensures sent.Some? && reply.Some? ==>
                forall later :: NeedsExchange(config.clientSecret, expiresIn, later) <==> config.clientSecret != ""
    {
      sent := None;
      r := Success(());
      var limit := now - RefreshMargin;
      if config.clientSecret != "" || expiresIn.None? || Later(limit, expiresIn.value) {
        sent := Some(TokenRequest(config));
        if reply.None? {
          return sent, Failure(TokenRequestFailed);
        }
        accessToken := reply.value.accessToken;
        expiresIn := Some(ExpiryAfterExchange());
      }
    }
  }

  /** One vault of an application. */
  class KeyVault {
    const app: AzureADApplication
    const name: string

    constructor(app: AzureADApplication, name: string)
      ensures this.app == app && this.name == name
    {
      this.app := app;
      this.name := name;
    }

    /** `secret(name)`. */
    function SecretNamed(secretName: string): (s: Secret)
      ensures s.vault == this && s.name == secretName
    {
      Secret(this, secretName)
    }

    /** `key(name)`: the key without a version. */
    function KeyNamed(keyName: string): (k: Key)
      ensures k.vault == this && k.name == keyName && k.version == ""
    {
      NewKey(this, keyName, None)
    }

    /** `fetch(method, url, data, headers)`: refreshes the token, then builds the
        request with the bearer token, the caller's headers over it, and the
        JSON body and `Content-Type` when there is data. */
    method Fetch(verb: string, url: string, data: Option<Record<string>>, caller: Record<string>, now: int, reply: Option<TokenReply>)
      returns (sent: Option<Request>, r: Result<Request, Failure>)
      modifies app
      ensures sent == if NeedsExchange(app.config.clientSecret, old(app.expiresIn), now) then Some(TokenRequest(app.config)) else None
      ensures sent.Some? && reply.Some? ==> app.accessToken == reply.value.accessToken && app.expiresIn == Some(ExpiryAfterExchange())
      ensures sent.None? || reply.None? ==> app.accessToken == old(app.accessToken) && app.expiresIn == old(app.expiresIn)
      ensures app.vaults == old(app.vaults)
      ensures r == if sent.Some? && reply.None? then Failure(TokenRequestFailed)
                   else Success(VaultRequests.FetchRequest(app.rt, name, verb, url, data, caller, app.accessToken))
    {
      var refreshed;
      sent, refreshed := app.Refresh(now, reply);
      if refreshed.Failure? {
        return sent, Failure(refreshed.error);
      }
      var headers := [("Authorization", VaultRequests.Bearer(app.accessToken))];
      headers := CopyInto(headers, caller);
      var body := NoBody;
      if data.Some? {
        body := Text(app.rt.stringify(VaultRequests.AsScalars(data.value)));
        headers := Set(headers, "Content-Type", "application/json");
      }
      r := Success(Request(verb, VaultRequests.ServiceUrl(name, url), headers, body));
    }
  }

  /** A secret of a vault. */
  datatype Secret = Secret(vault: KeyVault, name: string) {
    /** `get()`. */
    method Get(now: int, reply: Option<TokenReply>) returns (sent: Option<Request>, r: Result<Request, Failure>)
      modifies vault.app
      ensures sent == if NeedsExchange(vault.app.config.clientSecret, old(vault.app.expiresIn), now) then Some(TokenRequest(vault.app.config)) else None
      ensures sent.Some? && reply.Some? ==> vault.app.accessToken == reply.value.accessToken && vault.app.expiresIn == Some(ExpiryAfterExchange())
      ensures sent.None? || reply.None? ==> vault.app.accessToken == old(vault.app.accessToken) && vault.app.expiresIn == old(vault.app.expiresIn)
      ensures vault.app.vaults == old(vault.app.vaults)
      ensures r == if sent.Some? && reply.None? then Failure(TokenRequestFailed)
                   else Success(VaultRequests.FetchRequest(vault.app.rt, vault.name, "GET", VaultRequests.SecretUrl(name), None, [], vault.app.accessToken))
    {
      sent, r := vault.Fetch("GET", VaultRequests.SecretUrl(name), None, [], now, reply);
    }
  }

  /** `new Key(vault, name, version)`: a missing or empty version is the empty text. */
  function NewKey(vault: KeyVault, name: string, version: Option<string>): (k: Key)
    ensures k.vault == vault && k.name == name
    ensures k.version == "" <==> version.None? || version.value == ""
    ensures version.Some? ==> k.version == version.value
  {
    Key(vault, name, version.GetOr(""))
  }

  /** A key of a vault, at a version or (with the empty version) at its latest. */
  datatype Key = Key(vault: KeyVault, name: string, version: string) {
    /** `version(v)`: the same key when `v` is empty, otherwise the key at `v`. */
    function WithVersion(v: string): (k: Key)
      ensures k.vault == vault && k.name == name
      ensures k.version == if v == "" then version else v
    {
      if v == "" then this else NewKey(vault, name, Some(v))
    }

    /** `versions(max)`. */
    method Versions(max: Option<int>, now: int, reply: Option<TokenReply>) returns (sent: Option<Request>, r: Result<Request, Failure>)
      modifies vault.app
      ensures sent == if NeedsExchange(vault.app.config.clientSecret, old(vault.app.expiresIn), now) then Some(TokenRequest(vault.app.config)) else None
      ensures sent.Some? && reply.Some? ==> vault.app.accessToken == reply.value.accessToken && vault.app.expiresIn == Some(ExpiryAfterExchange())
      ensures sent.None? || reply.None? ==> vault.app.accessToken == old(vault.app.accessToken) && vault.app.expiresIn == old(vault.app.expiresIn)
      ensures vault.app.vaults == old(vault.app.vaults)
      ensures r == if sent.Some? && reply.None? then Failure(TokenRequestFailed)
                   else Success(VaultRequests.FetchRequest(vault.app.rt, vault.name, "GET", VaultRequests.VersionsUrl(name, max), None, [], vault.app.accessToken))
    {
      sent, r := vault.Fetch("GET", VaultRequests.VersionsUrl(name, max), None, [], now, reply);
    }

    /** `get()`. */
    method Get(now: int, reply: Option<TokenReply>) returns (sent: Option<Request>, r: Result<Request, Failure>)
      modifies vault.app
      ensures sent == if NeedsExchange(vault.app.config.clientSecret, old(vault.app.expiresIn), now) then Some(TokenRequest(vault.app.config)) else None
      ensures sent.Some? && reply.Some? ==> vault.app.accessToken == reply.value.accessToken && vault.app.expiresIn == Some(ExpiryAfterExchange())
      ensures sent.None? || reply.None? ==> vault.app.accessToken == old(vault.app.accessToken) && vault.app.expiresIn == old(vault.app.expiresIn)
      ensures vault.app.vaults == old(vault.app.vaults)
      ensures r == if sent.Some? && reply.None? then Failure(TokenRequestFailed)
                   else Success(VaultRequests.FetchRequest(vault.app.rt, vault.name, "GET", VaultRequests.KeyUrl(name, version), None, [], vault.app.accessToken))
    {
      sent, r := vault.Fetch("GET", VaultRequests.KeyUrl(name, version), None, [], now, reply);
    }

    /** `sign(value, alg)`: posts `{alg, value}` to the key's `sign` operation. */
    method Sign(value: string, alg: string, now: int, reply: Option<TokenReply>) returns (sent: Option<Request>, r: Result<Request, Failure>)
      modifies vault.app
      ensures sent == if NeedsExchange(vault.app.config.clientSecret, old(vault.app.expiresIn), now) then Some(TokenRequest(vault.app.config)) else None
      ensures sent.Some? && reply.Some? ==> vault.app.accessToken == reply.value.accessToken && vault.app.expiresIn == Some(ExpiryAfterExchange())
      ensures sent.None? || reply.None? ==> vault.app.accessToken == old(vault.app.accessToken) && vault.app.expiresIn == old(vault.app.expiresIn)
      ensures vault.app.vaults == old(vault.app.vaults)
      ensures r == if sent.Some? && reply.None? then Failure(TokenRequestFailed)
                   else Success(VaultRequests.FetchRequest(vault.app.rt, vault.name, "POST", VaultRequests.SignUrl(name, version),
                                                           Some(VaultRequests.SignBody(value, alg)), [], vault.app.accessToken))
    {
      sent, r := vault.Fetch("POST", VaultRequests.SignUrl(name, version), Some(VaultRequests.SignBody(value, alg)), [], now, reply);
    }
  }
}

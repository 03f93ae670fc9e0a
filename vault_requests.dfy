/** The request rules of the Key Vault client (`vault.ts`): the secret and key
    URLs, the sign body, and the headers of `KeyVault.fetch` (a bearer token the
    caller may override, and a JSON `Content-Type` that overrides the caller). */
module VaultRequests {
  import opened Wrappers
  import opened Text
  import opened Records
  import opened Platform
  import opened Url

  const ApiQuery := "?api-version=7.3"

  /** `Secret.get`. */
  function SecretUrl(name: string): string {
    "/secrets/" + name + ApiQuery
  }

  /** The path of a key, with its version segment only when the version is
      non-empty. */
  function KeyPath(name: string, version: string): string {
    "/keys/" + name + (if version != "" then "/" + version else "")
  }

  /** `Key.get`. */
  function KeyUrl(name: string, version: string): string {
    KeyPath(name, version) + ApiQuery
  }

  /** `Key.sign`. */
  function SignUrl(name: string, version: string): string {
    KeyPath(name, version) + "/sign" + ApiQuery
  }

  /** `Key.versions(max)`: `maxresults` only when `max` is truthy, so neither an
      undefined `max` nor 0 adds it. */
  function VersionsUrl(name: string, max: Option<int>): string {
    "/keys/" + name + "/versions" + ApiQuery
      + (if max.Some? && max.value != 0 then "&maxresults=" + IntString(max.value) else "")
  }

  /** The body of `Key.sign`: `{alg, value}`. */
  function SignBody(value: string, alg: string): Record<string> {
    [("alg", alg), ("value", value)]
  }

  /** The address the request goes to: the vault host, a `/`, then the URL,
      which itself starts with `/`. */
  function ServiceUrl(vaultName: string, url: string): string {
    "https://" + vaultName + ".vault.azure.net/" + url
  }

  /** `Bearer ${accessToken}`, where an undefined token reads `undefined`. */
  function Bearer(accessToken: Option<string>): string {
    "Bearer " + Interpolate(accessToken)
  }

  /** The headers `KeyVault.fetch` sends: the bearer token, then the caller's
      headers, then `Content-Type: application/json` when there is data. */
  function Headers(accessToken: Option<string>, caller: Record<string>, hasData: bool): Record<string> {
    var h := Assign([("Authorization", Bearer(accessToken))], caller);
    if hasData then Set(h, "Content-Type", "application/json") else h
  }

  /** The data as the flat object `JSON.stringify` writes. */
  function AsScalars(data: Record<string>): Record<Scalar> {
    seq(|data|, i requires 0 <= i < |data| => (data[i].0, Str(data[i].1)))
  }

  /** The request `KeyVault.fetch` sends once the token is refreshed. */
  function FetchRequest(rt: Runtime, vaultName: string, verb: string, url: string,
                        data: Option<Record<string>>, caller: Record<string>, accessToken: Option<string>): Request
  {
    Request(verb, ServiceUrl(vaultName, url), Headers(accessToken, caller, data.Some?),
            if data.Some? then Text(rt.stringify(AsScalars(data.value))) else NoBody)
  }

  // ---- properties

  /** Every header: `Content-Type` is JSON whenever there is data, whatever the
      caller set; otherwise the caller's value wins; otherwise `Authorization`
      is the bearer token; nothing else is set. */
  lemma HeaderValue(accessToken: Option<string>, caller: Record<string>, hasData: bool, k: string)
    requires Distinct(caller)
    ensures Get(Headers(accessToken, caller, hasData), k) ==
            if hasData && k == "Content-Type" then Some("application/json")
            else if HasKey(caller, k) then Get(caller, k)
            else if k == "Authorization" then Some(Bearer(accessToken))
            else None
  {
    var base := [("Authorization", Bearer(accessToken))];
    GetAssign(base, caller, k);
    if hasData {
      GetSet(Assign(base, caller), "Content-Type", "application/json", k);
    }
  }

  /** `maxresults` appears exactly when `max` is a non-zero number. */
  lemma MaxResultsOnlyWhenTruthy(name: string, max: Option<int>)
    requires '&' !in name
    ensures '&' in VersionsUrl(name, max) <==> max.Some? && max.value != 0
  {
    var base := "/keys/" + name + "/versions" + ApiQuery;
    assert '&' !in ApiQuery;
    assert '&' !in base by {
      assert base == "/keys/" + name + ("/versions" + ApiQuery);
    }
    if max.Some? && max.value != 0 {
      var tail := "&maxresults=" + IntString(max.value);
      assert VersionsUrl(name, max)[|base|] == tail[0] == '&';
    } else {
      assert VersionsUrl(name, max) == base;
    }
  }

  /** Different keys and versions name different resources: with names and
      versions free of `/`, the path of a key is read back uniquely. */
  lemma KeyPathInjective(name: string, version: string, name': string, version': string)
    requires '/' !in name && '/' !in version && '/' !in name' && '/' !in version'
    requires KeyPath(name, version) == KeyPath(name', version')
    ensures name == name' && version == version'
  {
    var prefix := "/keys/";
    var p := KeyPath(name, version);
    assert p[..|prefix|] == prefix;
    var rest := p[|prefix|..];
    assert rest == name + (if version != "" then "/" + version else "");
    assert rest == name' + (if version' != "" then "/" + version' else "");
    SplitSegment(name, version, rest);
    SplitSegment(name', version', rest);
  }

  /** Without that restriction the path is ambiguous: the key `a/b` and the key
      `a` at version `b` name the same resource. */
  lemma KeyPathCollision()
    ensures KeyPath("a/b", "") == KeyPath("a", "b")
  {
  }

  /** `name`, then `/version` when the version is non-empty: the name is the text
      before the first `/`, the version the text after it. */
  lemma SplitSegment(name: string, version: string, rest: string)
    requires '/' !in name && '/' !in version
    requires rest == name + (if version != "" then "/" + version else "")
    ensures SplitFirst(rest, '/') == (name, if version != "" then Some(version) else None)
  {
    if version != "" {
      assert rest == name + ['/'] + version;
      FirstSplitAt(name, version, '/');
    } else {
      assert rest == name;
      SplitFirstAbsent(name, '/');
    }
  }
}

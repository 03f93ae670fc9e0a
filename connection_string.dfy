/** The connection-string parser of `AzureStorage.initialize`: the string is
    split at `;` into `Key=Value` pairs, each pair is cut at its first `=`, and the
    pairs named `AccountName`, `AccountKey` and `EndpointSuffix` are recorded. */
module ConnectionString {
  import opened Wrappers
  import opened Text
  import opened Platform

  /** The three private fields the parser fills in; `None` is `undefined`. */
  datatype Credentials = Credentials(
    accountName: Option<string>,
    key: Option<CryptoKey>,
    endpointSuffix: Option<string>)

  /** `let [key, ...values] = keyValue.split('='); let value = values.join('=')`. */
  function Pair(keyValue: string): (string, string) {
    var parts := Split(keyValue, '=');
    (parts[0], Join(parts[1..], "="))
  }

  /** A pair is cut at its first `=` and nothing is lost: a value that itself
      contains `=` (base64 padding) is kept whole. */
  lemma PairAtFirstEquals(keyValue: string)
    ensures '=' !in Pair(keyValue).0
    ensures '=' in keyValue ==> keyValue == Pair(keyValue).0 + "=" + Pair(keyValue).1
    ensures '=' !in keyValue ==> Pair(keyValue) == (keyValue, "")
  {
    SplitHead(keyValue, '=');
  }

  /** Decoding and importing the value of `AccountKey`; `None` when either throws. */
  function ImportAccountKey(rt: Runtime, value: string): Option<CryptoKey> {
    match rt.base64Decode(value)
    case None => None
    case Some(bytes) => ImportKey(bytes)
  }

  /** One iteration of the loop: the new fields, or `None` when importing the key
      throws (the fields are then left as they were). */
  function Step(rt: Runtime, c: Credentials, keyValue: string): Option<Credentials> {
    var (key, value) := Pair(keyValue);
    if key == "AccountName" then Some(c.(accountName := Some(value)))
    else if key == "AccountKey" then
      match ImportAccountKey(rt, value)
      case None => None
      case Some(k) => Some(c.(key := Some(k)))
    else if key == "EndpointSuffix" then Some(c.(endpointSuffix := Some(value)))
    else Some(c)
  }

  /** The loop over the pairs: the fields it leaves behind, and whether it ran to the
      end (`false`: it stopped at a pair whose key could not be imported). */
  function Parse(rt: Runtime, c: Credentials, pairs: seq<string>): (Credentials, bool)
    decreases |pairs|
  {
    if |pairs| == 0 then (c, true)
    else match Step(rt, c, pairs[0])
      case None => (c, false)
      case Some(c') => Parse(rt, c', pairs[1..])
  }

  /** `initialize()`: nothing happens once a key is set; otherwise the whole
      connection string is parsed again. */
  function Initialize(rt: Runtime, c: Credentials, connectionString: string): (Credentials, bool) {
    if c.key.Some? then (c, true) else Parse(rt, c, Split(connectionString, ';'))
  }

  /** Once a key is recorded, `initialize` changes nothing and succeeds. */
  lemma InitializeMemoised(rt: Runtime, c: Credentials, connectionString: string)
    requires c.key.Some?
    ensures Initialize(rt, c, connectionString) == (c, true)
  {
  }

  /** A pair with any other name leaves the fields untouched. */
  lemma UnknownKeyIgnored(rt: Runtime, c: Credentials, keyValue: string)
    requires Pair(keyValue).0 !in {"AccountName", "AccountKey", "EndpointSuffix"}
    ensures Step(rt, c, keyValue) == Some(c)
  {
  }

  /** The value of the last pair called `name`, an independent reading of the
      connection string. */
  function LastValue(pairs: seq<string>, name: string): (v: Option<string>)
    ensures v.Some? ==> exists i :: 0 <= i < |pairs| && Pair(pairs[i]) == (name, v.value)
    decreases |pairs|
  {
    if |pairs| == 0 then None
    else
      var later := LastValue(pairs[1..], name);
      if later.Some? then
        assert exists i :: 0 <= i < |pairs| && Pair(pairs[i]) == (name, later.value) by {
          var i :| 0 <= i < |pairs[1..]| && Pair(pairs[1..][i]) == (name, later.value);
          assert pairs[i + 1] == pairs[1..][i];
        }
        later
      else if Pair(pairs[0]).0 == name then Some(Pair(pairs[0]).1)
      else None
  }

  /** When the loop runs to the end, every field holds the value of the LAST pair
      with its name (a later duplicate overwrites an earlier one), and keeps its
      previous value when no pair names it. */
  lemma {:induction false} ParseLastWins(rt: Runtime, c: Credentials, pairs: seq<string>)
    requires Parse(rt, c, pairs).1
    ensures var r := Parse(rt, c, pairs).0;
            r.accountName == (if LastValue(pairs, "AccountName").Some? then LastValue(pairs, "AccountName") else c.accountName) &&
            r.endpointSuffix == (if LastValue(pairs, "EndpointSuffix").Some? then LastValue(pairs, "EndpointSuffix") else c.endpointSuffix) &&
            r.key == (if LastValue(pairs, "AccountKey").Some? then ImportAccountKey(rt, LastValue(pairs, "AccountKey").value) else c.key)
  {
    ParseLastName(rt, c, pairs);
    ParseLastSuffix(rt, c, pairs);
    ParseLastKey(rt, c, pairs);
  }

  lemma {:induction false} ParseLastName(rt: Runtime, c: Credentials, pairs: seq<string>)
    requires Parse(rt, c, pairs).1
    ensures Parse(rt, c, pairs).0.accountName ==
            if LastValue(pairs, "AccountName").Some? then LastValue(pairs, "AccountName") else c.accountName
    decreases |pairs|
  {
    if |pairs| > 0 {
      ParseLastName(rt, Step(rt, c, pairs[0]).value, pairs[1..]);
    }
  }

  lemma {:induction false} ParseLastSuffix(rt: Runtime, c: Credentials, pairs: seq<string>)
    requires Parse(rt, c, pairs).1
    ensures Parse(rt, c, pairs).0.endpointSuffix ==
            if LastValue(pairs, "EndpointSuffix").Some? then LastValue(pairs, "EndpointSuffix") else c.endpointSuffix
    decreases |pairs|
  {
    if |pairs| > 0 {
      ParseLastSuffix(rt, Step(rt, c, pairs[0]).value, pairs[1..]);
    }
  }

  lemma {:induction false} ParseLastKey(rt: Runtime, c: Credentials, pairs: seq<string>)
    requires Parse(rt, c, pairs).1
    ensures Parse(rt, c, pairs).0.key ==
            if LastValue(pairs, "AccountKey").Some? then ImportAccountKey(rt, LastValue(pairs, "AccountKey").value) else c.key
    decreases |pairs|
  {
    if |pairs| > 0 {
      ParseLastKey(rt, Step(rt, c, pairs[0]).value, pairs[1..]);
    }
  }

  /** `initialize` may run twice for one request (the blob client calls it before
      signing, and signing calls it again); when the first run succeeds the second
      leaves the same fields. */
  lemma InitializeTwice(rt: Runtime, c: Credentials, connectionString: string)
    requires Initialize(rt, c, connectionString).1
    ensures Initialize(rt, Initialize(rt, c, connectionString).0, connectionString)
            == Initialize(rt, c, connectionString)
  {
    var pairs := Split(connectionString, ';');
    var c1 := Initialize(rt, c, connectionString).0;
    if c.key.None? && c1.key.None? {
      ParseLastWins(rt, c, pairs);
      assert LastValue(pairs, "AccountKey").None? by {
        if LastValue(pairs, "AccountKey").Some? {
          assert c1.key == ImportAccountKey(rt, LastValue(pairs, "AccountKey").value);
          ParseKeyImported(rt, c, pairs);
        }
      }
      ParseNoKeyOk(rt, c1, pairs);
      ParseLastWins(rt, c1, pairs);
      assert Parse(rt, c1, pairs).0 == c1;
    }
  }

  /** A run that reaches the end imports every `AccountKey` value it meets. */
  lemma {:induction false} ParseKeyImported(rt: Runtime, c: Credentials, pairs: seq<string>)
    requires Parse(rt, c, pairs).1
    ensures LastValue(pairs, "AccountKey").Some? ==> ImportAccountKey(rt, LastValue(pairs, "AccountKey").value).Some?
    decreases |pairs|
  {
    if |pairs| > 0 {
      ParseKeyImported(rt, Step(rt, c, pairs[0]).value, pairs[1..]);
    }
  }

  /** Without an `AccountKey` pair the loop never stops early. */
  lemma {:induction false} ParseNoKeyOk(rt: Runtime, c: Credentials, pairs: seq<string>)
    requires LastValue(pairs, "AccountKey").None?
    ensures Parse(rt, c, pairs).1
    decreases |pairs|
  {
    if |pairs| > 0 {
      ParseNoKeyOk(rt, Step(rt, c, pairs[0]).value, pairs[1..]);
    }
  }
}

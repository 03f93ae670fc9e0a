/** The request rules of the Table service client (`table.ts`): the list and
    entity URLs with their `$filter` expressions, the default headers, the body
    headers of post/put/merge, the caller-override merge and the table variant of
    the Shared Key signature. */
module TableRequests {
  import opened Wrappers
  import opened Text
  import opened Records
  import opened Url
  import opened Platform
  import opened ConnectionString
  import opened SharedKey
  import Utf8
  import opened Ordering

  const ApiVersion := "2021-04-10"
  const NoMetadata := "application/json;odata=nometadata"
  const FullMetadata := "application/json;odata=fullmetadata"
  const DataServiceVersion := "3.0;NetFx"

  // ---- URLs

  /** The caller header every `list` and entity `get` passes. */
  function AcceptHeader(isFullMetadata: bool): Headers {
    [("Accept", if isFullMetadata then FullMetadata else NoMetadata)]
  }

  /** `Table.list`: `{name}()`. */
  function ListUrl(name: string): string {
    name + "()"
  }

  /** The query of a filtered list: the single parameter `$filter`. */
  function FilterQuery(expression: string): string {
    FilterName + "=" + expression
  }

  const FilterName := "$filter"

  /** `FilteredTable.list`: the `$filter` parameter only when there is a condition. */
  function FilteredListUrl(name: string, conditions: seq<string>): string {
    if |conditions| > 0 then ListUrl(name) + "?" + FilterQuery(Join(conditions, " and ")) else ListUrl(name)
  }

  function PartitionCondition(partitionKey: string): string {
    "PartitionKey eq '" + partitionKey + "'"
  }

  /** `TablePartition.list`. */
  function PartitionListUrl(name: string, partitionKey: string): string {
    ListUrl(name) + "?" + FilterQuery(PartitionCondition(partitionKey))
  }

  /** `FilteredTablePartition.list`: the extra conditions follow the closing quote
      directly, without a space. */
  function FilteredPartitionListUrl(name: string, partitionKey: string, conditions: seq<string>): string {
    ListUrl(name) + "?" + FilterQuery(PartitionCondition(partitionKey) + MoreConditions(conditions))
  }

  /** The text appended after the partition condition. */
  function MoreConditions(conditions: seq<string>): string {
    if |conditions| > 0 then "and (" + Join(conditions, " and ") + ")" else ""
  }

  /** Extra conditions of a partition extend the partition list URL: `and (`, the
      conditions joined by ` and `, then `)`, right after the closing quote of the
      partition key; with none the URL is the partition list URL itself. */
  lemma PartitionConditionsAppended(name: string, partitionKey: string, conditions: seq<string>)
    ensures FilteredPartitionListUrl(name, partitionKey, conditions) ==
            if |conditions| == 0 then PartitionListUrl(name, partitionKey)
            else PartitionListUrl(name, partitionKey) + "and (" + Join(conditions, " and ") + ")"
  {
    var e := PartitionCondition(partitionKey);
    var more := MoreConditions(conditions);
    FilterQueryAppend(e, more);
    Associate(ListUrl(name) + "?", FilterQuery(e), more);
  }

  lemma FilterQueryAppend(expression: string, more: string)
    ensures FilterQuery(expression + more) == FilterQuery(expression) + more
  {
  }

  lemma Associate(a: string, b: string, c: string)
    ensures a + (b + c) == a + b + c
  {
  }

  /** The URL of one entity. */
  function EntityUrl(name: string, partitionKey: string, rowKey: string): string {
    name + "(PartitionKey='" + partitionKey + "',RowKey='" + rowKey + "')"
  }

  /** `eTag || '*'`. */
  function IfMatch(eTag: Option<string>): (v: string)
    ensures v == "*" <==> eTag.None? || eTag.value in {"", "*"}
  {
    if eTag.Some? && eTag.value != "" then eTag.value else "*"
  }

  function EntityKeys(partitionKey: string, rowKey: string): Record<Scalar> {
    [("PartitionKey", Str(partitionKey)), ("RowKey", Str(rowKey))]
  }

  /** The body of `TableEntity.post`: the keys first, then the caller's data. */
  function EntityBody(partitionKey: string, rowKey: string, data: Record<Scalar>): Record<Scalar> {
    Assign(EntityKeys(partitionKey, rowKey), data)
  }

  /** The address the request goes to. */
  function ServiceUrl(creds: Credentials, url: string): string {
    "https://" + Interpolate(creds.accountName) + ".table." + Interpolate(creds.endpointSuffix) + "/" + url
  }

  // ---- headers

  function Defaults(date: string): Headers {
    [ ("Accept", NoMetadata),
      ("x-ms-date", date),
      ("x-ms-version", ApiVersion),
      ("DataServiceVersion", DataServiceVersion),
      ("MaxDataServiceVersion", DataServiceVersion) ]
  }

  /** `post`, `put` and `merge` in any letter case carry a JSON body. */
  predicate SendsBody(verb: string) {
    Lower(verb) == "post" || Lower(verb) == "put" || Lower(verb) == "merge"
  }

  /** `JSON.stringify(data)`, `undefined` for no data. */
  function BodyText(rt: Runtime, data: Option<Record<Scalar>>): Option<string> {
    match data
    case None => None
    case Some(d) => Some(rt.stringify(d))
  }

  /** `new Blob([body]).size.toString()`: the UTF-8 size of the body text, where
      an undefined body is the text `undefined`. */
  function ContentLength(body: Option<string>): string {
    Decimal(Utf8.Size(Interpolate(body)))
  }

  /** The defaults with the body headers of post/put/merge. */
  function Base(verb: string, date: string, body: Option<string>): Headers {
    var h := Defaults(date);
    if SendsBody(verb) then Set(Set(h, "Content-Type", "application/json"), "Content-Length", ContentLength(body)) else h
  }

  /** The headers before `Authorization` is added: the caller's copied over `Base`. */
  function Prepared(verb: string, date: string, body: Option<string>, caller: Headers): Headers {
    Assign(Base(verb, date, body), caller)
  }

  /** The request `Table.fetch` sends once the credentials are initialized. */
  function FetchRequest(rt: Runtime, creds: Credentials, verb: string, url: string,
                        data: Option<Record<Scalar>>, caller: Headers, date: string): Result<Request, Failure>
  {
    var body := if SendsBody(verb) then BodyText(rt, data) else None;
    var headers := Prepared(verb, date, body, caller);
    match Authorization(rt, creds, verb, url, headers, true)
    case Failure(e) => Failure(e)
    case Success(auth) =>
      Success(Request(verb, ServiceUrl(creds, url), Set(headers, "Authorization", auth),
                      if body.Some? then Text(body.value) else NoBody))
  }

  // ---- properties

  /** Every header before signing: the caller's value wins; otherwise the body
      headers for post/put/merge; otherwise the defaults; no other header is set. */
  lemma PreparedHeader(verb: string, date: string, body: Option<string>, caller: Headers, k: string)
    requires Distinct(caller)
    ensures Get(Prepared(verb, date, body, caller), k) ==
            if HasKey(caller, k) then Get(caller, k)
            else if SendsBody(verb) && k == "Content-Type" then Some("application/json")
            else if SendsBody(verb) && k == "Content-Length" then Some(ContentLength(body))
            else Get(Defaults(date), k)
  {
    var d := Defaults(date);
    GetAssign(Base(verb, date, body), caller, k);
    if SendsBody(verb) {
      GetSet(Set(d, "Content-Type", "application/json"), "Content-Length", ContentLength(body), k);
      GetSet(d, "Content-Type", "application/json", k);
    }
  }

  lemma DefaultsDistinct(date: string)
    ensures Distinct(Defaults(date))
    ensures !HasKey(Defaults(date), "Content-Type") && !HasKey(Defaults(date), "Content-Length")
  {
  }

  lemma BaseKeys(verb: string, date: string, body: Option<string>)
    ensures Distinct(Base(verb, date, body))
    ensures |Base(verb, date, body)| >= 5
    ensures Keys(Base(verb, date, body))[..5] == Keys(Defaults(date))
  {
    DefaultsDistinct(date);
    if SendsBody(verb) {
      BodyHeadersAppended(Defaults(date), ContentLength(body));
    }
  }

  /** The defaults keep their places at the front and no header appears twice. */
  lemma PreparedKeys(verb: string, date: string, body: Option<string>, caller: Headers)
    ensures Distinct(Prepared(verb, date, body, caller))
    ensures |Prepared(verb, date, body, caller)| >= 5
    ensures Keys(Prepared(verb, date, body, caller))[..5] == Keys(Defaults(date))
  {
    var b := Base(verb, date, body);
    BaseKeys(verb, date, body);
    AssignKeys(b, caller);
    var ks := Keys(Prepared(verb, date, body, caller));
    assert ks[..5] == ks[..|b|][..5];
  }

  lemma BodyHeadersAppended(d: Headers, length: string)
    requires Distinct(d) && !HasKey(d, "Content-Type") && !HasKey(d, "Content-Length")
    ensures var h := Set(Set(d, "Content-Type", "application/json"), "Content-Length", length);
            Distinct(h) && |h| >= |d| && Keys(h)[..|d|] == Keys(d)
  {
    var h1 := Set(d, "Content-Type", "application/json");
    SetDistinct(d, "Content-Type", "application/json");
    assert h1 == d + [("Content-Type", "application/json")];
    HasKeyAppend(d, ("Content-Type", "application/json"), "Content-Length");
    SetDistinct(h1, "Content-Length", length);
    var h := Set(h1, "Content-Length", length);
    assert h == d + [("Content-Type", "application/json"), ("Content-Length", length)];
    assert Keys(h)[..|d|] == Keys(d);
  }

  /** `Authorization` is computed last, with the table variant, over exactly the
      prepared headers, which reach the request unchanged. */
  lemma SignedLast(rt: Runtime, creds: Credentials, verb: string, url: string,
                   data: Option<Record<Scalar>>, caller: Headers, date: string, k: string)
    requires creds.key.Some?
    ensures var body := if SendsBody(verb) then BodyText(rt, data) else None;
            var prepared := Prepared(verb, date, body, caller);
            var r := FetchRequest(rt, creds, verb, url, data, caller, date);
            r.Success? &&
            Get(r.value.headers, k) == (if k == "Authorization" then Some(Authorization(rt, creds, verb, url, prepared, true).value) else Get(prepared, k))
  {
    var body := if SendsBody(verb) then BodyText(rt, data) else None;
    var prepared := Prepared(verb, date, body, caller);
    GetSet(prepared, "Authorization", Authorization(rt, creds, verb, url, prepared, true).value, k);
  }

  /** A filter adds one more conjunct at the end of the `$filter` expression. */
  lemma FilterAppends(name: string, conditions: seq<string>, condition: string)
    ensures FilteredListUrl(name, conditions + [condition]) ==
            if |conditions| == 0 then ListUrl(name) + "?$filter=" + condition
            else FilteredListUrl(name, conditions) + " and " + condition
  {
    if |conditions| > 0 {
      JoinAppend(conditions, condition, " and ");
    } else {
      assert conditions + [condition] == [condition];
    }
  }

  /** A `$filter` query without `&` is one parameter, named `$filter`. */
  lemma FilterParam(expression: string)
    requires '&' !in expression
    ensures ParseQuery(FilterQuery(expression)) == [(FilterName, DecodeComponent(expression))]
  {
    FilterNamePlain();
    SingleParam(FilterName, expression);
  }

  lemma FilterNamePlain()
    ensures FilterName != "" && '&' !in FilterName && '=' !in FilterName
    ensures DecodeComponent(FilterName) == FilterName
  {
    FilterNameUnescaped();
    DecodeComponentPlain(FilterName);
    FilterNameSeparators();
  }

  lemma FilterNameUnescaped()
    ensures '%' !in FilterName && '+' !in FilterName
  {
  }

  lemma FilterNameSeparators()
    ensures FilterName != "" && '&' !in FilterName && '=' !in FilterName
  {
  }

  /** A query that is a single `$filter` parameter signs as the bare path. */
  lemma FilterResource(accountName: Option<string>, path: string, expression: string)
    requires '?' !in path && '?' !in expression && '&' !in expression
    ensures CanonicalizedResource(accountName, path + "?" + FilterQuery(expression))
            == "/" + Interpolate(accountName) + "/" + EncodeURI(path)
  {
    FilterQueryDollar(expression);
    DollarParamsDropped(accountName, path, FilterQuery(expression));
  }

  /** The filter query has no `?` and only names the `$filter` parameter. */
  lemma FilterQueryDollar(expression: string)
    requires '?' !in expression && '&' !in expression
    ensures '?' !in FilterQuery(expression)
    ensures forall i :: 0 <= i < |ParseQuery(FilterQuery(expression))| ==> StartsWith(ParseQuery(FilterQuery(expression))[i].0, "$")
  {
    FilterParam(expression);
    FilterNameDollar();
    assert FilterQuery(expression) == FilterName + ("=" + expression);
  }

  lemma FilterNameDollar()
    ensures StartsWith(FilterName, "$") && '?' !in FilterName
  {
  }

  predicate PlainCondition(c: string) {
    '?' !in c && '&' !in c
  }

  /** Table filters never reach the canonicalized resource: a filtered list signs as
      `/{account}/{name}()` when the table name holds no `?` and no condition
      holds a `?` or `&`. */
  lemma FilteredListSignsBare(accountName: Option<string>, name: string, conditions: seq<string>)
    requires '?' !in name
    requires forall i :: 0 <= i < |conditions| ==> PlainCondition(conditions[i])
    ensures CanonicalizedResource(accountName, FilteredListUrl(name, conditions))
            == "/" + Interpolate(accountName) + "/" + EncodeURI(ListUrl(name))
  {
    assert '?' !in ListUrl(name);
    if |conditions| > 0 {
      var e := Join(conditions, " and ");
      JoinExcludes(conditions, " and ", '?');
      JoinExcludes(conditions, " and ", '&');
      FilterResource(accountName, ListUrl(name), e);
    } else {
      ResourceWithoutQuery(accountName, ListUrl(name));
    }
  }

  /** Conditions are put into the URL unescaped, so a condition holding `&` ends
      the `$filter` parameter early: what follows it is read as a parameter of
      its own, and unless its name starts with `$` it is signed. */
  lemma AmpersandConditionSigned(accountName: Option<string>, name: string, expression: string, key: string, value: string)
    requires '?' !in name && PlainCondition(expression)
    requires key != "" && '&' !in key && '=' !in key && '?' !in key
    requires '&' !in value && '?' !in value
    requires !StartsWith(DecodeComponent(key), "$")
    ensures CanonicalizedResource(accountName, FilteredListUrl(name, [expression + "&" + (key + "=" + value)]))
            == "/" + Interpolate(accountName) + "/" + EncodeURI(ListUrl(name))
               + "\n" + (Lower(DecodeComponent(key)) + ":" + EscapeSpaces(DecodeComponent(value)))
  {
    var c := expression + "&" + (key + "=" + value);
    assert Join([c], " and ") == c;
    var search := FilterQuery(c);
    AmpersandQuery(expression, key, value);
    var line := Lower(DecodeComponent(key)) + ":" + EscapeSpaces(DecodeComponent(value));
    SecondLineOnly(DecodeComponent(expression), DecodeComponent(key), DecodeComponent(value));
    assert FilteredListUrl(name, [c]) == ListUrl(name) + "?" + search;
    assert Join([line], "\n") == line;
    ResourceWithLines(accountName, ListUrl(name), search, [line]);
  }

  /** A filter query whose expression holds `&` parses to two parameters. */
  lemma AmpersandQuery(expression: string, key: string, value: string)
    requires PlainCondition(expression)
    requires key != "" && '&' !in key && '=' !in key && '?' !in key
    requires '&' !in value && '?' !in value
    ensures '?' !in FilterQuery(expression + "&" + (key + "=" + value))
    ensures ParseQuery(FilterQuery(expression + "&" + (key + "=" + value)))
            == [(FilterName, DecodeComponent(expression)), (DecodeComponent(key), DecodeComponent(value))]
  {
    var search := FilterQuery(expression + "&" + (key + "=" + value));
    assert search == FilterQuery(expression) + "&" + (key + "=" + value);
    FilterQueryDollar(expression);
    FilterParam(expression);
    AppendParam(FilterQuery(expression), key, value);
  }

  /** Of a `$filter` parameter and another one, only the other is signed. */
  lemma SecondLineOnly(expression: string, key: string, value: string)
    requires !StartsWith(key, "$")
    ensures Collect([(FilterName, expression), (key, value)], QueryLine) == [Lower(key) + ":" + EscapeSpaces(value)]
  {
    var q := [(FilterName, expression), (key, value)];
    FilterNameDollar();
    assert QueryLine(q[0]).None?;
    assert q[1..] == [(key, value)] && [(key, value)][1..] == [];
    assert Collect([(key, value)], QueryLine) == [Lower(key) + ":" + EscapeSpaces(value)] + Collect([], QueryLine);
  }

  /** The partition filter never reaches the canonicalized resource either, with
      or without extra conditions. */
  lemma PartitionListSignsBare(accountName: Option<string>, name: string, partitionKey: string)
    requires '?' !in name && PlainCondition(partitionKey)
    ensures CanonicalizedResource(accountName, PartitionListUrl(name, partitionKey))
            == "/" + Interpolate(accountName) + "/" + EncodeURI(ListUrl(name))
  {
    PartitionConditionPlain(partitionKey);
    FilterResource(accountName, ListUrl(name), PartitionCondition(partitionKey));
  }

  lemma FilteredPartitionListSignsBare(accountName: Option<string>, name: string, partitionKey: string, conditions: seq<string>)
    requires '?' !in name && PlainCondition(partitionKey)
    requires forall i :: 0 <= i < |conditions| ==> PlainCondition(conditions[i])
    ensures CanonicalizedResource(accountName, FilteredPartitionListUrl(name, partitionKey, conditions))
            == "/" + Interpolate(accountName) + "/" + EncodeURI(ListUrl(name))
  {
    PartitionConditionPlain(partitionKey);
    MoreConditionsPlain(conditions);
    var e := PartitionCondition(partitionKey) + MoreConditions(conditions);
    assert PlainCondition(e);
    FilterResource(accountName, ListUrl(name), e);
  }

  lemma PartitionConditionPlain(partitionKey: string)
    requires PlainCondition(partitionKey)
    ensures PlainCondition(PartitionCondition(partitionKey))
  {
  }

  lemma MoreConditionsPlain(conditions: seq<string>)
    requires forall i :: 0 <= i < |conditions| ==> PlainCondition(conditions[i])
    ensures PlainCondition(MoreConditions(conditions))
  {
    JoinExcludes(conditions, " and ", '?');
    JoinExcludes(conditions, " and ", '&');
  }

  /** Entity URLs carry no query: they sign as `/{account}/{encodeURI(url)}` when
      the table name and keys hold no `?`. */
  lemma EntitySignsBare(accountName: Option<string>, name: string, partitionKey: string, rowKey: string)
    requires '?' !in name && '?' !in partitionKey && '?' !in rowKey
    ensures CanonicalizedResource(accountName, EntityUrl(name, partitionKey, rowKey))
            == "/" + Interpolate(accountName) + "/" + EncodeURI(EntityUrl(name, partitionKey, rowKey))
  {
    ResourceWithoutQuery(accountName, EntityUrl(name, partitionKey, rowKey));
  }

  /** Without conditions the filtered lists are the plain lists. */
  lemma NoConditions(name: string, partitionKey: string)
    ensures FilteredListUrl(name, []) == ListUrl(name)
    ensures FilteredPartitionListUrl(name, partitionKey, []) == PartitionListUrl(name, partitionKey)
  {
  }

  /** The body of `post`: the caller's fields win, the keys fill in what they lack,
      and `PartitionKey` and `RowKey` come first. */
  lemma EntityBodyFields(partitionKey: string, rowKey: string, data: Record<Scalar>, k: string)
    requires Distinct(data)
    ensures Get(EntityBody(partitionKey, rowKey, data), k) ==
            if HasKey(data, k) then Get(data, k)
            else if k == "PartitionKey" then Some(Str(partitionKey))
            else if k == "RowKey" then Some(Str(rowKey))
            else None
    ensures |EntityBody(partitionKey, rowKey, data)| >= 2
    ensures EntityBody(partitionKey, rowKey, data)[0].0 == "PartitionKey"
    ensures EntityBody(partitionKey, rowKey, data)[1].0 == "RowKey"
  {
    var base := EntityKeys(partitionKey, rowKey);
    GetAssign(base, data, k);
    AssignKeys(base, data);
    assert Keys(base)[0] == "PartitionKey" && Keys(base)[1] == "RowKey";
    var r := EntityBody(partitionKey, rowKey, data);
    assert Keys(r)[..2] == Keys(base);
    assert Keys(r)[0] == r[0].0 && Keys(r)[1] == r[1].0;
  }
}

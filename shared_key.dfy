/** `AzureStorage.createAuthorization`: the string-to-sign of the Shared Key
    scheme for service version 2009-09-19 and later (blob and queue: 13 fields,
    table: 5 fields), its canonicalized headers and canonicalized resource, and
    the `SharedKey {account}:{signature}` header value. */
module SharedKey {
  import opened Wrappers
  import opened Text
  import opened Ordering
  import opened Records
  import opened Url
  import opened Platform
  import opened ConnectionString

  type Headers = Record<string>

  /** The line an `x-ms-` header contributes, `None` for every other header. The
      prefix test is case-sensitive; only the written name is lower-cased. */
  function HeaderLine(h: (string, string)): Option<string> {
    if StartsWith(h.0, "x-ms-") then Some(Lower(h.0) + ":" + h.1) else None
  }

  /** The canonicalized headers: the header lines sorted, joined by line feeds, and
      one more line feed. */
  function CanonicalizedHeaders(headers: Headers): (block: string)
    ensures |block| > 0 && block[|block| - 1] == '\n'
  {
    Join(Sort(Collect(headers, HeaderLine)), "\n") + "\n"
  }

  /** The line a query parameter contributes, `None` for the `$` parameters. */
  function QueryLine(p: (string, string)): Option<string> {
    if StartsWith(p.0, "$") then None else Some(Lower(p.0) + ":" + EscapeSpaces(p.1))
  }

  /** The canonicalized resource of a request URL relative to the service
      endpoint: `/{account}/{encodeURI(path)}`, then the sorted parameter lines
      after a line feed when there are any. */
  function CanonicalizedResource(accountName: Option<string>, url: string): string {
    var (pathname, search) := PathAndSearch(url);
    var lines := Collect(ParseQuery(search), QueryLine);
    "/" + Interpolate(accountName) + "/" + EncodeURI(pathname)
      + (if |lines| > 0 then "\n" + Join(Sort(lines), "\n") else "")
  }

  /** `headers[name] || ''`. */
  function Field(headers: Headers, name: string): string {
    Get(headers, name).GetOr("")
  }

  /** The `Content-Length` slot: a length of `'0'` is written as the empty string. */
  function ContentLengthField(headers: Headers): string {
    if Get(headers, "Content-Length") == Some("0") then "" else Field(headers, "Content-Length")
  }

  /** The 13 fields of the blob and queue string-to-sign. */
  function BlobFields(verb: string, headers: Headers, resource: string): (f: seq<string>)
    ensures |f| == 13
  {
    [ Upper(verb),
      Field(headers, "Content-Encoding"),
      Field(headers, "Content-Language"),
      ContentLengthField(headers),
      Field(headers, "Content-MD5"),
      Field(headers, "Content-Type"),
      "",
      Field(headers, "If-Modified-Since"),
      Field(headers, "If-Match"),
      Field(headers, "If-None-Match"),
      Field(headers, "If-Unmodified-Since"),
      Field(headers, "Range"),
      CanonicalizedHeaders(headers) + resource ]
  }

  /** The 5 fields of the table string-to-sign. */
  function TableFields(verb: string, headers: Headers, resource: string): (f: seq<string>)
    ensures |f| == 5
  {
    [ Upper(verb),
      Field(headers, "Content-MD5"),
      Field(headers, "Content-Type"),
      Field(headers, "x-ms-date"),
      resource ]
  }

  function StringToSign(verb: string, url: string, headers: Headers, isTable: bool, accountName: Option<string>): string {
    var resource := CanonicalizedResource(accountName, url);
    Join(if isTable then TableFields(verb, headers, resource) else BlobFields(verb, headers, resource), "\n")
  }

  /** The `Authorization` value for credentials that `initialize` has filled in;
      signing with an undefined key throws. */
  function Authorization(rt: Runtime, creds: Credentials, verb: string, url: string, headers: Headers, isTable: bool): (r: Result<string, Failure>)
    ensures r.Success? <==> creds.key.Some?
    ensures r.Failure? ==> r.error == MissingAccountKey
    ensures r.Success? ==> StartsWith(r.value, "SharedKey " + Interpolate(creds.accountName) + ":")
    ensures r.Success? ==> r.value == "SharedKey " + Interpolate(creds.accountName) + ":"
                                      + Sign(rt, creds.key.value, StringToSign(verb, url, headers, isTable, creds.accountName))
  {
    match creds.key
    case None => Failure(MissingAccountKey)
    case Some(key) =>
      var text := StringToSign(verb, url, headers, isTable, creds.accountName);
      var prefix := "SharedKey " + Interpolate(creds.accountName) + ":";
      var r := prefix + Sign(rt, key, text);
      assert r[..|prefix|] == prefix;
      Success(r)
  }

  // ---- canonicalized headers

  /** The header lines are exactly the `x-ms-` headers, each as `lowercase(name):value`. */
  lemma HeaderLines(headers: Headers, l: string)
    ensures l in Sort(Collect(headers, HeaderLine)) <==>
            exists i :: 0 <= i < |headers| && StartsWith(headers[i].0, "x-ms-") && l == Lower(headers[i].0) + ":" + headers[i].1
  {
    CollectMember(headers, HeaderLine, l);
    assert l in Sort(Collect(headers, HeaderLine)) <==> l in multiset(Collect(headers, HeaderLine));
  }

  /** Every `x-ms-` header set on the request is signed as `lowercase(name):value`. */
  lemma HeaderSigned(headers: Headers, name: string, value: string)
    requires (name, value) in headers && StartsWith(name, "x-ms-")
    ensures Lower(name) + ":" + value in Sort(Collect(headers, HeaderLine))
  {
    var i :| 0 <= i < |headers| && headers[i] == (name, value);
    HeaderLines(headers, Lower(name) + ":" + value);
  }

  /** The header lines stand in ascending order. */
  lemma HeaderLinesSorted(headers: Headers)
    ensures Sorted(Sort(Collect(headers, HeaderLine)))
  {
    SortSorted(Collect(headers, HeaderLine));
  }

  /** With no `x-ms-` header the block is a lone line feed. */
  lemma NoMsHeaders(headers: Headers)
    requires forall i :: 0 <= i < |headers| ==> !StartsWith(headers[i].0, "x-ms-")
    ensures CanonicalizedHeaders(headers) == "\n"
  {
    var lines := Collect(headers, HeaderLine);
    if |lines| > 0 {
      CollectMember(headers, HeaderLine, lines[0]);
    }
  }

  /** The block does not depend on the order in which the headers were set. */
  lemma HeadersOrderIndependent(headers: Headers, headers': Headers)
    requires multiset(headers) == multiset(headers')
    ensures CanonicalizedHeaders(headers) == CanonicalizedHeaders(headers')
  {
    CollectPermutation(headers, headers', HeaderLine);
    SortPermutationInvariant(Collect(headers, HeaderLine), Collect(headers', HeaderLine));
  }

  // ---- canonicalized resource

  /** The parameter lines are exactly the parameters whose name does not start with
      `$`, as `lowercase(name):value` with spaces written `%20`. */
  lemma QueryLines(search: string, l: string)
    ensures l in Collect(ParseQuery(search), QueryLine) <==>
            exists i :: 0 <= i < |ParseQuery(search)| &&
              !StartsWith(ParseQuery(search)[i].0, "$") &&
              l == Lower(ParseQuery(search)[i].0) + ":" + EscapeSpaces(ParseQuery(search)[i].1)
  {
    CollectMember(ParseQuery(search), QueryLine, l);
  }

  /** A URL without a query signs as `/{account}/{encodeURI(url)}`. */
  lemma ResourceWithoutQuery(accountName: Option<string>, url: string)
    requires '?' !in url
    ensures CanonicalizedResource(accountName, url) == "/" + Interpolate(accountName) + "/" + EncodeURI(url)
  {
    assert PathAndSearch(url) == (url, "");
    assert Split("", '&') == [""];
  }

  /** A URL with a query signs as the bare resource, a line feed and the given
      lines, when these are the parameter lines in ascending order. */
  lemma ResourceWithLines(accountName: Option<string>, path: string, search: string, lines: seq<string>)
    requires '?' !in path && '?' !in search
    requires |lines| > 0 && Sorted(lines)
    requires multiset(lines) == multiset(Collect(ParseQuery(search), QueryLine))
    ensures CanonicalizedResource(accountName, path + "?" + search)
            == "/" + Interpolate(accountName) + "/" + EncodeURI(path) + "\n" + Join(lines, "\n")
  {
    PathAndSearchAt(path, search);
    var collected := Collect(ParseQuery(search), QueryLine);
    assert |collected| == |lines| by {
      assert |multiset(collected)| == |multiset(lines)|;
    }
    SortedArrangement(collected, lines);
  }

  /** `$` parameters never reach the resource: when every parameter of the query is
      a `$` parameter, the resource is that of the bare path. */
  lemma DollarParamsDropped(accountName: Option<string>, path: string, search: string)
    requires '?' !in path && '?' !in search
    requires forall i :: 0 <= i < |ParseQuery(search)| ==> StartsWith(ParseQuery(search)[i].0, "$")
    ensures CanonicalizedResource(accountName, path + "?" + search) == "/" + Interpolate(accountName) + "/" + EncodeURI(path)
  {
    PathAndSearchAt(path, search);
    var lines := Collect(ParseQuery(search), QueryLine);
    if |lines| > 0 {
      QueryLines(search, lines[0]);
    }
  }

  /** The parameter lines do not depend on the order of the parameters. */
  lemma QueryOrderIndependent(accountName: Option<string>, path: string, search: string, search': string)
    requires '?' !in path && '?' !in search && '?' !in search'
    requires multiset(ParseQuery(search)) == multiset(ParseQuery(search'))
    ensures CanonicalizedResource(accountName, path + "?" + search) == CanonicalizedResource(accountName, path + "?" + search')
  {
    PathAndSearchAt(path, search);
    PathAndSearchAt(path, search');
    CollectPermutation(ParseQuery(search), ParseQuery(search'), QueryLine);
    var a, b := Collect(ParseQuery(search), QueryLine), Collect(ParseQuery(search'), QueryLine);
    SortPermutationInvariant(a, b);
    assert |a| == |multiset(a)| == |multiset(b)| == |b|;
  }

  // ---- string-to-sign

  predicate NoLineFeed(s: string) {
    '\n' !in s
  }

  /** Joining fields with line feeds and splitting again gives back every field but
      the last, which may itself hold line feeds. */
  lemma FieldsRecovered(f: seq<string>, n: nat)
    requires |f| == n + 1
    requires forall k :: 0 <= k < n ==> NoLineFeed(f[k])
    ensures var pieces := Split(Join(f, "\n"), '\n');
            |pieces| >= n + 1 &&
            (forall k :: 0 <= k < n ==> pieces[k] == f[k]) &&
            Join(pieces[n..], "\n") == f[n]
  {
    assert f == f[..n] + [f[n]];
    SplitJoinPrefix(f[..n], f[n], '\n');
  }

  /** The blob and queue string-to-sign has 13 line-feed separated fields in a
      fixed order; the date slot is always empty. Splitting at line feeds gives
      the first 12 back one by one when none of them holds a line feed, and the
      rest is the header block followed by the resource. */
  lemma BlobStringToSignFields(verb: string, url: string, headers: Headers, accountName: Option<string>)
    requires forall k :: 0 <= k < 12 ==> NoLineFeed(BlobFields(verb, headers, CanonicalizedResource(accountName, url))[k])
    ensures var pieces := Split(StringToSign(verb, url, headers, false, accountName), '\n');
            |pieces| >= 13 &&
            pieces[0] == Upper(verb) &&
            pieces[1] == Field(headers, "Content-Encoding") &&
            pieces[2] == Field(headers, "Content-Language") &&
            pieces[3] == ContentLengthField(headers) &&
            pieces[4] == Field(headers, "Content-MD5") &&
            pieces[5] == Field(headers, "Content-Type") &&
            pieces[6] == "" &&
            pieces[7] == Field(headers, "If-Modified-Since") &&
            pieces[8] == Field(headers, "If-Match") &&
            pieces[9] == Field(headers, "If-None-Match") &&
            pieces[10] == Field(headers, "If-Unmodified-Since") &&
            pieces[11] == Field(headers, "Range") &&
            Join(pieces[12..], "\n") == CanonicalizedHeaders(headers) + CanonicalizedResource(accountName, url)
  {
    var f := BlobFields(verb, headers, CanonicalizedResource(accountName, url));
    FieldsRecovered(f, 12);
    var pieces := Split(StringToSign(verb, url, headers, false, accountName), '\n');
    assert pieces[0] == f[0] && pieces[1] == f[1] && pieces[2] == f[2] && pieces[3] == f[3];
    assert pieces[4] == f[4] && pieces[5] == f[5] && pieces[6] == f[6] && pieces[7] == f[7];
    assert pieces[8] == f[8] && pieces[9] == f[9] && pieces[10] == f[10] && pieces[11] == f[11];
  }

  /** The table string-to-sign has exactly 5 fields and no header block: the
      method, `Content-MD5`, `Content-Type`, `x-ms-date` and the resource. */
  lemma TableStringToSignFields(verb: string, url: string, headers: Headers, accountName: Option<string>)
    requires forall k :: 0 <= k < 4 ==> NoLineFeed(TableFields(verb, headers, CanonicalizedResource(accountName, url))[k])
    ensures var pieces := Split(StringToSign(verb, url, headers, true, accountName), '\n');
            |pieces| >= 5 &&
            pieces[0] == Upper(verb) &&
            pieces[1] == Field(headers, "Content-MD5") &&
            pieces[2] == Field(headers, "Content-Type") &&
            pieces[3] == Field(headers, "x-ms-date") &&
            Join(pieces[4..], "\n") == CanonicalizedResource(accountName, url)
  {
    var f := TableFields(verb, headers, CanonicalizedResource(accountName, url));
    FieldsRecovered(f, 4);
  }

  /** The `Content-Length` slot is empty exactly for a missing, empty or `'0'` length. */
  lemma ContentLengthSlot(headers: Headers)
    ensures ContentLengthField(headers) == "" <==>
            Get(headers, "Content-Length") in {None, Some(""), Some("0")}
  {
  }

  /** The string-to-sign does not depend on the order in which the headers were set. */
  lemma StringToSignOrderIndependent(verb: string, url: string, headers: Headers, headers': Headers,
                                     isTable: bool, accountName: Option<string>)
    requires Distinct(headers) && Distinct(headers') && multiset(headers) == multiset(headers')
    ensures StringToSign(verb, url, headers, isTable, accountName) == StringToSign(verb, url, headers', isTable, accountName)
  {
    forall k ensures Get(headers, k) == Get(headers', k) {
      GetPermutation(headers, headers', k);
    }
    assert ContentLengthField(headers) == ContentLengthField(headers');
    HeadersOrderIndependent(headers, headers');
    SameFields(verb, headers, headers', CanonicalizedResource(accountName, url));
  }

  /** The headers whose values fill the fixed slots. */
  const BlobNames: set<string> := {"Content-Encoding", "Content-Language", "Content-MD5", "Content-Type",
    "If-Modified-Since", "If-Match", "If-None-Match", "If-Unmodified-Since", "Range", "x-ms-date"}

  lemma SameFields(verb: string, headers: Headers, headers': Headers, resource: string)
    requires forall k :: k in BlobNames ==> Field(headers, k) == Field(headers', k)
    requires ContentLengthField(headers) == ContentLengthField(headers')
    requires CanonicalizedHeaders(headers) == CanonicalizedHeaders(headers')
    ensures BlobFields(verb, headers, resource) == BlobFields(verb, headers', resource)
    ensures TableFields(verb, headers, resource) == TableFields(verb, headers', resource)
  {
  }

  /** The signature, and so the whole `Authorization` value, does not depend on the
      order in which the headers were set. */
  lemma AuthorizationOrderIndependent(rt: Runtime, creds: Credentials, verb: string, url: string,
                                      headers: Headers, headers': Headers, isTable: bool)
    requires Distinct(headers) && Distinct(headers') && multiset(headers) == multiset(headers')
    ensures Authorization(rt, creds, verb, url, headers, isTable) == Authorization(rt, creds, verb, url, headers', isTable)
  {
    StringToSignOrderIndependent(verb, url, headers, headers', isTable, creds.accountName);
  }

  /** Only `Content-MD5`, `Content-Type` and `x-ms-date` of the headers enter the
      table string-to-sign. */
  lemma TableIgnoresOtherHeaders(verb: string, url: string, headers: Headers, headers': Headers, accountName: Option<string>)
    requires forall k :: k in {"Content-MD5", "Content-Type", "x-ms-date"} ==> Get(headers, k) == Get(headers', k)
    ensures StringToSign(verb, url, headers, true, accountName) == StringToSign(verb, url, headers', true, accountName)
  {
    assert Get(headers, "Content-MD5") == Get(headers', "Content-MD5");
    assert Get(headers, "Content-Type") == Get(headers', "Content-Type");
    assert Get(headers, "x-ms-date") == Get(headers', "x-ms-date");
  }
}

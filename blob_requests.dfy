/** The request rules of the Blob service client (`container.ts`): the list and
    file URLs, the default headers, the `BlockBlob` rule for uploads, the
    caller-override merge and the blob variant of the Shared Key signature. */
module BlobRequests {
  import opened Wrappers
  import opened Text
  import opened Records
  import opened Url
  import opened Platform
  import opened ConnectionString
  import opened SharedKey
  import opened Ordering

  const ApiVersion := "2021-04-10"

  // ---- URLs

  /** One `name=value` parameter. */
  function Param(name: string, value: string): string {
    name + "=" + value
  }

  const RestypeName := "restype"
  const ContainerValue := "container"
  const CompName := "comp"
  const ListValue := "list"
  const PrefixName := "prefix"

  /** The query of `Container.list`. */
  const ListQuery := Param(RestypeName, ContainerValue) + "&" + Param(CompName, ListValue)

  /** `Container.list`: `{name}?restype=container&comp=list`. */
  function ListUrl(name: string): string {
    name + "?" + ListQuery
  }

  /** The query of `ContainerDirectory.list`: the `prefix` parameter only for a
      non-empty path. */
  function DirectoryQuery(path: string): string {
    if path != "" then ListQuery + "&" + Param(PrefixName, path) else ListQuery
  }

  /** `ContainerDirectory.list`. */
  function DirectoryListUrl(name: string, path: string): string {
    name + "?" + DirectoryQuery(path)
  }

  /** The URL of a file, used by `get`, `put` and `delete`. */
  function FileUrl(name: string, path: string): string {
    name + "/" + path
  }

  /** `ContainerDirectory.file(p)`: the path of the file inside the directory. */
  function DirectoryFilePath(directory: string, path: string): string {
    directory + "/" + path
  }

  /** The caller header `ContainerFile.put` passes. */
  function ContentTypeHeader(contentType: string): Headers {
    [("Content-Type", contentType)]
  }

  /** The address the request goes to. */
  function ServiceUrl(creds: Credentials, url: string): string {
    "https://" + Interpolate(creds.accountName) + ".blob." + Interpolate(creds.endpointSuffix) + "/" + url
  }

  // ---- headers

  function Defaults(date: string): Headers {
    [ ("Accept", "application/json"),
      ("x-ms-date", date),
      ("x-ms-version", ApiVersion) ]
  }

  /** `method === 'put' && !query.has('comp')`: the method is compared as written,
      and `query` is the text after the first `?` up to the next one. */
  predicate IsBlockUpload(verb: string, url: string) {
    verb == "put" && !HasParam(ParseQuery(PathAndSearch(url).1), "comp")
  }

  /** The defaults and, for a block upload, the blob type and the byte size of the
      data; a block upload without data throws reading its size. `data` is the
      byte size of the data, `None` when there is none. */
  function Base(verb: string, url: string, date: string, data: Option<nat>): Result<Headers, Failure> {
    if IsBlockUpload(verb, url) then
      match data
      case None => Failure(MissingData)
      case Some(size) => Success(Set(Set(Defaults(date), "x-ms-blob-type", "BlockBlob"), "Content-Length", Decimal(size)))
    else Success(Defaults(date))
  }

  /** The request `Container.fetch` sends once the credentials are initialized. */
  function FetchRequest(rt: Runtime, creds: Credentials, verb: string, url: string,
                        data: Option<nat>, caller: Headers, date: string): Result<Request, Failure>
  {
    match Base(verb, url, date, data)
    case Failure(e) => Failure(e)
    case Success(base) =>
      var headers := Assign(base, caller);
      match Authorization(rt, creds, verb, url, headers, false)
      case Failure(e) => Failure(e)
      case Success(auth) =>
        Success(Request(verb, ServiceUrl(creds, url), Set(headers, "Authorization", auth),
                        if data.Some? then Data(data.value) else NoBody))
  }

  // ---- properties

  /** Only a block upload without data fails before signing. */
  lemma BaseFails(verb: string, url: string, date: string, data: Option<nat>)
    ensures Base(verb, url, date, data).Failure? <==> IsBlockUpload(verb, url) && data.None?
    ensures Base(verb, url, date, data).Failure? ==> Base(verb, url, date, data).error == MissingData
  {
  }

  /** Every header before signing: the caller's value wins; otherwise the blob
      type and the data size for a block upload; otherwise the defaults; no
      other header is set. */
  lemma PreparedHeader(verb: string, url: string, date: string, size: nat, caller: Headers, k: string)
    requires Distinct(caller)
    ensures Base(verb, url, date, Some(size)).Success?
    ensures Get(Assign(Base(verb, url, date, Some(size)).value, caller), k) ==
            if HasKey(caller, k) then Get(caller, k)
            else if IsBlockUpload(verb, url) && k == "x-ms-blob-type" then Some("BlockBlob")
            else if IsBlockUpload(verb, url) && k == "Content-Length" then Some(Decimal(size))
            else Get(Defaults(date), k)
  {
    var d := Defaults(date);
    GetAssign(Base(verb, url, date, Some(size)).value, caller, k);
    if IsBlockUpload(verb, url) {
      GetSet(Set(d, "x-ms-blob-type", "BlockBlob"), "Content-Length", Decimal(size), k);
      GetSet(d, "x-ms-blob-type", "BlockBlob", k);
    }
  }

  /** The blob type is part of what is signed: for a block upload where the caller
      does not set `x-ms-blob-type`, the canonicalized headers hold the line
      `x-ms-blob-type:BlockBlob`. */
  lemma BlobTypeSigned(verb: string, url: string, date: string, size: nat, caller: Headers)
    requires Distinct(caller) && !HasKey(caller, "x-ms-blob-type")
    requires IsBlockUpload(verb, url)
    ensures var headers := Assign(Base(verb, url, date, Some(size)).value, caller);
            "x-ms-blob-type:BlockBlob" in Sort(Collect(headers, HeaderLine))
  {
    var headers := Assign(Base(verb, url, date, Some(size)).value, caller);
    PreparedHeader(verb, url, date, size, caller, "x-ms-blob-type");
    assert ("x-ms-blob-type", "BlockBlob") in headers;
    BlobTypeName();
    HeaderSigned(headers, "x-ms-blob-type", "BlockBlob");
  }

  /** `Authorization` is computed last, with the blob variant, over exactly the
      prepared headers (blob type and size included), which reach the request
      unchanged; the body is the data when there is some. */
  lemma SignedLast(rt: Runtime, creds: Credentials, verb: string, url: string,
                   data: Option<nat>, caller: Headers, date: string, k: string)
    requires creds.key.Some?
    requires data.Some? || !IsBlockUpload(verb, url)
    ensures Base(verb, url, date, data).Success?
    ensures var prepared := Assign(Base(verb, url, date, data).value, caller);
            var r := FetchRequest(rt, creds, verb, url, data, caller, date);
            r.Success? &&
            r.value.body == (if data.Some? then Data(data.value) else NoBody) &&
            Get(r.value.headers, k) == (if k == "Authorization" then Some(Authorization(rt, creds, verb, url, prepared, false).value) else Get(prepared, k))
  {
    var prepared := Assign(Base(verb, url, date, data).value, caller);
    GetSet(prepared, "Authorization", Authorization(rt, creds, verb, url, prepared, false).value, k);
  }

  lemma BlobTypeName()
    ensures StartsWith("x-ms-blob-type", "x-ms-")
    ensures Lower("x-ms-blob-type") + ":" + "BlockBlob" == "x-ms-blob-type:BlockBlob"
  {
  }
  // ---- list queries and their canonicalized resource

  /** A directory list is the container list, plus `&prefix={path}` for a
      non-empty path. */
  lemma DirectoryListExtends(name: string, path: string)
    ensures DirectoryListUrl(name, path) == if path == "" then ListUrl(name) else ListUrl(name) + "&prefix=" + path
  {
  }

  /** The names and values of the list query are plain words. */
  predicate Word(s: string) {
    s != "" && forall i :: 0 <= i < |s| ==> 'a' <= s[i] <= 'z'
  }

  /** A plain word passes through the query parser unchanged and separates nothing. */
  lemma WordPlain(s: string)
    requires Word(s)
    ensures '&' !in s && '=' !in s && '?' !in s
    ensures DecodeComponent(s) == s
  {
    DecodeComponentPlain(s);
  }

  /** The resource line of a parameter whose name and value are plain words. */
  lemma WordLine(name: string, value: string)
    requires Word(name) && Word(value)
    ensures QueryLine((name, value)) == Some(name + ":" + value)
  {
    WordNameLine(name, value);
    assert ' ' !in value;
  }

  /** The resource line of a parameter whose name is a plain word. */
  lemma WordNameLine(name: string, value: string)
    requires Word(name)
    ensures QueryLine((name, value)) == Some(name + ":" + EscapeSpaces(value))
  {
    assert Lower(name) == name;
    assert name[..1][0] == name[0] != '$';
  }

  lemma ListWords()
    ensures Word(RestypeName) && Word(ContainerValue) && Word(CompName) && Word(ListValue) && Word(PrefixName)
    ensures CompName[0] == 'c' && PrefixName[0] == 'p' && RestypeName[0] == 'r'
  {
  }

  /** The list query holds the two parameters `restype=container` and `comp=list`. */
  lemma ListParams()
    ensures ParseQuery(ListQuery) == [(RestypeName, ContainerValue), (CompName, ListValue)]
  {
    ListNamesPlain();
    SingleParam(RestypeName, ContainerValue);
    AppendParam(Param(RestypeName, ContainerValue), CompName, ListValue);
  }

  lemma ListNamesPlain()
    ensures RestypeName != "" && '&' !in RestypeName && '=' !in RestypeName && '&' !in ContainerValue
    ensures CompName != "" && '&' !in CompName && '=' !in CompName && '&' !in ListValue
    ensures DecodeComponent(RestypeName) == RestypeName && DecodeComponent(ContainerValue) == ContainerValue
    ensures DecodeComponent(CompName) == CompName && DecodeComponent(ListValue) == ListValue
  {
    ListWords();
    WordPlain(RestypeName);
    WordPlain(ContainerValue);
    WordPlain(CompName);
    WordPlain(ListValue);
  }

  /** A directory list adds a third parameter `prefix`, the decoded path. */
  lemma DirectoryParams(path: string)
    requires path != "" && '&' !in path
    ensures ParseQuery(DirectoryQuery(path)) == [(RestypeName, ContainerValue), (CompName, ListValue), (PrefixName, DecodeComponent(path))]
  {
    ListParams();
    ListWords();
    WordPlain(PrefixName);
    AppendParam(ListQuery, PrefixName, path);
  }

  /** A list is never a block upload (it is a `get`, and it names `comp`), while
      a file `put` always is. */
  lemma UploadKinds(name: string, path: string)
    requires '?' !in name && '?' !in path
    ensures !IsBlockUpload("put", ListUrl(name))
    ensures IsBlockUpload("put", FileUrl(name, path))
  {
    ListQueryPlain();
    PathAndSearchAt(name, ListQuery);
    ListParams();
    assert ParseQuery(ListQuery)[1].0 == "comp";
    assert '?' !in FileUrl(name, path);
    assert ParseQuery("") == [];
  }

  lemma DirectoryQueryPlain(path: string)
    requires '?' !in path
    ensures '?' !in DirectoryQuery(path)
  {
    ListQueryPlain();
    ListWords();
    WordPlain(PrefixName);
  }

  lemma ListQueryPlain()
    ensures '?' !in ListQuery && '&' !in Param(RestypeName, ContainerValue)
  {
  }
  /** The resource line of `comp=list`. */
  function CompLine(): string {
    CompName + ":" + ListValue
  }

  /** The resource line of `restype=container`. */
  function RestypeLine(): string {
    RestypeName + ":" + ContainerValue
  }

  /** The resource lines of the list query, and their order. */
  lemma ListLines()
    ensures Collect(ParseQuery(ListQuery), QueryLine) == [RestypeLine(), CompLine()]
    ensures Less(CompLine(), RestypeLine()) && !Less(RestypeLine(), CompLine())
  {
    ListWords();
    ListParams();
    WordLine(RestypeName, ContainerValue);
    WordLine(CompName, ListValue);
    CollectPair((RestypeName, ContainerValue), (CompName, ListValue), QueryLine);
    LessAtFirst(CompLine(), RestypeLine());
  }

  /** A container list signs its two parameters, `comp` before `restype`. */
  lemma ListResource(accountName: Option<string>, name: string)
    requires '?' !in name
    ensures CanonicalizedResource(accountName, ListUrl(name))
            == "/" + Interpolate(accountName) + "/" + EncodeURI(name) + "\n" + Join([CompLine(), RestypeLine()], "\n")
  {
    ListLines();
    ListQueryPlain();
    ResourceWithLines(accountName, name, ListQuery, [CompLine(), RestypeLine()]);
  }

  /** The resource line of the `prefix` parameter. */
  function PrefixLine(path: string): string {
    PrefixName + ":" + EscapeSpaces(DecodeComponent(path))
  }

  /** The resource lines of a directory list, in the order they are signed. */
  function DirectorySignedLines(path: string): seq<string> {
    [CompLine(), PrefixLine(path), RestypeLine()]
  }

  /** The resource lines of a directory list query, and their order. */
  lemma DirectoryLines(path: string)
    requires '&' !in path && path != ""
    ensures Collect(ParseQuery(DirectoryQuery(path)), QueryLine) == [RestypeLine(), CompLine(), PrefixLine(path)]
  {
    ListWords();
    DirectoryParams(path);
    WordLine(RestypeName, ContainerValue);
    WordLine(CompName, ListValue);
    WordNameLine(PrefixName, DecodeComponent(path));
    CollectTriple((RestypeName, ContainerValue), (CompName, ListValue), (PrefixName, DecodeComponent(path)), QueryLine);
  }

  /** `comp` < `prefix` < `restype`. */
  lemma DirectoryOrder(path: string)
    ensures Sorted(DirectorySignedLines(path))
  {
    ListWords();
    LessAtFirst(CompLine(), RestypeLine());
    LessAtFirst(CompLine(), PrefixLine(path));
    LessAtFirst(PrefixLine(path), RestypeLine());
  }

  /** A directory list signs its path as a `prefix` line between the two list
      lines: `comp`, `prefix`, `restype`. */
  lemma DirectoryResource(accountName: Option<string>, name: string, path: string)
    requires '?' !in name && '?' !in path && '&' !in path && path != ""
    ensures CanonicalizedResource(accountName, DirectoryListUrl(name, path))
            == "/" + Interpolate(accountName) + "/" + EncodeURI(name) + "\n" + Join(DirectorySignedLines(path), "\n")
  {
    DirectoryLines(path);
    RotateMultiset(CompLine(), PrefixLine(path), RestypeLine());
    DirectoryOrder(path);
    DirectoryQueryPlain(path);
    ResourceWithLines(accountName, name, DirectoryQuery(path), DirectorySignedLines(path));
  }
}

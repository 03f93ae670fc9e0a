/** The request rules of the Queue service client (`queue.ts`): the message
    envelope of `put`, the default headers, the body headers of post/put/merge,
    the caller-override merge and the blob/queue variant of the Shared Key
    signature. */
module QueueRequests {
  import opened Wrappers
  import opened Text
  import opened Records
  import opened Platform
  import opened ConnectionString
  import opened SharedKey
  import Utf8

  const ApiVersion := "2021-04-10"

  const OpenTags := "<QueueMessage><MessageText>"
  const CloseTags := "</MessageText></QueueMessage>"

  /** The body `put` posts: the message inside the envelope, unescaped. */
  function MessageXml(message: string): string {
    OpenTags + message + CloseTags
  }

  /** `put` posts to `{name}/messages`. */
  function MessagesUrl(name: string): string {
    name + "/messages"
  }

  /** The address the request goes to. */
  function ServiceUrl(creds: Credentials, url: string): string {
    "https://" + Interpolate(creds.accountName) + ".queue." + Interpolate(creds.endpointSuffix) + "/" + url
  }

  function Defaults(date: string): Headers {
    [ ("x-ms-date", date),
      ("x-ms-version", ApiVersion) ]
  }

  /** `post`, `put` and `merge` in any letter case carry the body. */
  predicate SendsBody(verb: string) {
    Lower(verb) == "post" || Lower(verb) == "put" || Lower(verb) == "merge"
  }

  /** `new Blob([data]).size.toString()`, where undefined data is the text
      `undefined`. */
  function ContentLength(data: Option<string>): string {
    Decimal(Utf8.Size(Interpolate(data)))
  }

  /** The defaults with the body headers of post/put/merge. */
  function Base(verb: string, date: string, data: Option<string>): Headers {
    var h := Defaults(date);
    if SendsBody(verb) then Set(Set(h, "Content-Type", "application/xml"), "Content-Length", ContentLength(data)) else h
  }

  /** The headers before `Authorization` is added: the caller's copied over `Base`. */
  function Prepared(verb: string, date: string, data: Option<string>, caller: Headers): Headers {
    Assign(Base(verb, date, data), caller)
  }

  /** The request `Queue.fetch` sends once the credentials are initialized; the
      body is only passed on for post/put/merge. */
  function FetchRequest(rt: Runtime, creds: Credentials, verb: string, url: string,
                        data: Option<string>, caller: Headers, date: string): Result<Request, Failure>
  {
    var headers := Prepared(verb, date, data, caller);
    match Authorization(rt, creds, verb, url, headers, false)
    case Failure(e) => Failure(e)
    case Success(auth) =>
      Success(Request(verb, ServiceUrl(creds, url), Set(headers, "Authorization", auth),
                      if SendsBody(verb) && data.Some? then Text(data.value) else NoBody))
  }

  // ---- properties

  /** The envelope keeps the message verbatim: it is the text between the tags. */
  lemma MessageVerbatim(message: string)
    ensures var x := MessageXml(message);
            |x| == |OpenTags| + |message| + |CloseTags| &&
            x[..|OpenTags|] == OpenTags &&
            x[|OpenTags|..|OpenTags| + |message|] == message &&
            x[|OpenTags| + |message|..] == CloseTags
  {
  }

  /** Different messages give different bodies. */
  lemma MessageInjective(m: string, m': string)
    requires MessageXml(m) == MessageXml(m')
    ensures m == m'
  {
    MessageVerbatim(m);
    MessageVerbatim(m');
  }

  /** Every header before signing: the caller's value wins; otherwise the body
      headers for post/put/merge; otherwise the defaults; no other header is set. */
  lemma PreparedHeader(verb: string, date: string, data: Option<string>, caller: Headers, k: string)
    requires Distinct(caller)
    ensures Get(Prepared(verb, date, data, caller), k) ==
            if HasKey(caller, k) then Get(caller, k)
            else if SendsBody(verb) && k == "Content-Type" then Some("application/xml")
            else if SendsBody(verb) && k == "Content-Length" then Some(ContentLength(data))
            else Get(Defaults(date), k)
  {
    var d := Defaults(date);
    GetAssign(Base(verb, date, data), caller, k);
    if SendsBody(verb) {
      GetSet(Set(d, "Content-Type", "application/xml"), "Content-Length", ContentLength(data), k);
      GetSet(d, "Content-Type", "application/xml", k);
    }
  }

  /** `Authorization` is computed last, over the prepared headers, with the
      blob/queue variant; it is the only header added after the caller's. */
  lemma SignedLast(rt: Runtime, creds: Credentials, verb: string, url: string,
                   data: Option<string>, caller: Headers, date: string, k: string)
    requires creds.key.Some?
    ensures var prepared := Prepared(verb, date, data, caller);
            var r := FetchRequest(rt, creds, verb, url, data, caller, date);
            r.Success? &&
            Get(r.value.headers, k) == (if k == "Authorization" then Some(Authorization(rt, creds, verb, url, prepared, false).value) else Get(prepared, k))
  {
    var prepared := Prepared(verb, date, data, caller);
    GetSet(prepared, "Authorization", Authorization(rt, creds, verb, url, prepared, false).value, k);
  }

  /** A message post signs its byte length: the envelope is never empty, so its
      `Content-Length` is never the `0` that the signature blanks out. */
  lemma PutLengthSigned(date: string, message: string, caller: Headers)
    requires Distinct(caller) && !HasKey(caller, "Content-Length")
    ensures var headers := Prepared("post", date, Some(MessageXml(message)), caller);
            ContentLengthField(headers) == Decimal(Utf8.Size(MessageXml(message))) &&
            ContentLengthField(headers) != ""
  {
    var x := MessageXml(message);
    assert SendsBody("post");
    PreparedHeader("post", date, Some(x), caller, "Content-Length");
    MessageVerbatim(message);
    DecimalIsZero(Utf8.Size(x));
  }

  predicate Ascii(s: string) {
    forall i :: 0 <= i < |s| ==> s[i] as int < 0x80
  }

  /** An ASCII message is signed with its own length plus that of the envelope. */
  lemma AsciiPutLength(date: string, message: string, caller: Headers)
    requires Distinct(caller) && !HasKey(caller, "Content-Length")
    requires Ascii(message)
    ensures ContentLengthField(Prepared("post", date, Some(MessageXml(message)), caller))
            == Decimal(|OpenTags| + |message| + |CloseTags|)
  {
    var x := MessageXml(message);
    PutLengthSigned(date, message, caller);
    AsciiTags();
    AsciiConcat(OpenTags, message);
    AsciiConcat(OpenTags + message, CloseTags);
    Utf8.AsciiSize(x);
  }

  lemma AsciiConcat(a: string, b: string)
    requires Ascii(a) && Ascii(b)
    ensures Ascii(a + b) && |a + b| == |a| + |b|
  {
    forall i | 0 <= i < |a + b| ensures (a + b)[i] as int < 0x80 {
      if i >= |a| { assert (a + b)[i] == b[i - |a|]; }
    }
  }

  lemma AsciiTags()
    ensures Ascii(OpenTags) && Ascii(CloseTags)
  {
  }
}

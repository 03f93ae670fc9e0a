/** What the client takes from its runtime without this model looking inside:
    base64 (RFC 4648 section 4), HMAC-SHA256 (RFC 2104) and `JSON.stringify`.
    They are given as function values, so every statement about the client holds
    for any implementation of them. Also the shapes shared by all clients: the
    request handed to `fetch` and the ways a call can fail. */
module Platform {
  import opened Wrappers
  import Utf8
  import opened Records

  type Byte = Utf8.Byte

  /** A `CryptoKey` imported from raw bytes for HMAC with SHA-256. */
  datatype CryptoKey = CryptoKey(raw: seq<Byte>)

  /** A value of an entity property: `string | number | boolean`. */
  datatype Scalar = Str(s: string) | Num(n: int) | Bool(b: bool)

  datatype Runtime = Runtime(
    /** `decode` of the standard base64 module; `None` when the text is not base64. */
    base64Decode: string -> Option<seq<Byte>>,
    /** `encode` of the standard base64 module. */
    base64Encode: seq<Byte> -> string,
    /** HMAC-SHA256 of a message under a key. */
    hmacSha256: (seq<Byte>, seq<Byte>) -> seq<Byte>,
    /** `JSON.stringify` of a flat object. */
    stringify: Record<Scalar> -> string)

  /** `crypto.subtle.importKey('raw', bytes, {name: 'HMAC', hash: 'SHA-256'}, ...)`:
      Web Crypto refuses an empty key. */
  function ImportKey(bytes: seq<Byte>): (k: Option<CryptoKey>)
    ensures k.Some? <==> |bytes| > 0
    ensures k.Some? ==> k.value.raw == bytes
  {
    if |bytes| == 0 then None else Some(CryptoKey(bytes))
  }

  /** `encode(await crypto.subtle.sign('HMAC', key, new TextEncoder().encode(text)))`. */
  function Sign(rt: Runtime, key: CryptoKey, text: string): string {
    rt.base64Encode(rt.hmacSha256(key.raw, Utf8.Encode(text)))
  }

  /** Why a call rejects instead of sending a request. */
  datatype Failure =
    | InvalidAccountKey   // the `AccountKey` value is not base64 or decodes to no bytes
    | MissingAccountKey   // signing with an undefined key
    | MissingData         // a blob upload without data
    | TokenRequestFailed  // the token endpoint could not be reached or answered no JSON

  /** The body of a request: none, a text, binary data of some byte size, or
      form fields (`URLSearchParams`). */
  datatype Body = NoBody | Text(text: string) | Data(size: nat) | Form(fields: Record<string>)

  /** The arguments of the `fetch` call a client makes. */
  datatype Request = Request(verb: string, url: string, headers: Record<string>, body: Body)
}

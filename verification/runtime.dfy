/** The .NET collaborators of the library, kept abstract: `UriBuilder`,
    `HttpUtility`'s query collection, header validation of
    `HttpRequestMessage.Headers.Add`, media-type parsing of `StringContent`,
    `System.Text.Json`, `XmlSerializer`,
    `FormUrlEncodedContent`, `HttpContent.ReadAsStringAsync` and the transport
    `HttpClient.SendAsync`. Each is a function-valued field of `Platform`, so
    every property of the model holds whatever these functions do. */
module Runtime {
  import opened Core
  import opened OrderedMaps

  /** A URI as `UriBuilder` exposes it: everything before the path (scheme, user
      information, host, port), the path, the query without its leading "?", and
      the fragment with its "#". */
  datatype UriParts = UriParts(authority: string, path: string, query: string, fragment: string)

  /** The recomposition of section 5.3 of RFC 3986 from the parts, with their
      percent-escapes kept; `UriBuilder` writes no "?" for an empty query. This
      is the escaped text of a URI, not what `Uri.ToString()` shows. */
  function UriText(u: UriParts): string {
    u.authority + u.path + (if |u.query| == 0 then "" else "?" + u.query) + u.fragment
  }

  /** A name/value pair, as in the query list and in a form body. */
  datatype Pair = Pair(name: string, value: string)

  /** An object given to the JSON serialiser, or read back by a deserialiser. */
  datatype Value =
    | JNull
    | JBool(b: bool)
    | JNumber(n: int)
    | JString(s: string)
    | JArray(items: seq<Value>)
    | JObject(members: seq<Entry<string, Value>>)

  /** The one `JsonSerializerOptions` setting the library chooses. */
  datatype JsonOptions = JsonOptions(propertyNameCaseInsensitive: bool)

  /** The options the readers use when the caller passes none. */
  const DefaultReaderOptions: JsonOptions := JsonOptions(true)

  /** A `CancellationToken`, known by its identity only. */
  datatype CancellationToken = CancellationToken(id: nat)

  /** An `HttpClient`: one the caller supplied, or one the library created. */
  datatype Client = UserClient(id: nat) | CreatedClient(serial: nat)

  /** `HttpMethod`. */
  datatype Method = Get | Post | Put | Patch | Delete | Trace | Head | Options {
    /** `HttpMethod.Method`, the verb on the request line. */
    function Name(): string {
      match this
      case Get => "GET"
      case Post => "POST"
      case Put => "PUT"
      case Patch => "PATCH"
      case Delete => "DELETE"
      case Trace => "TRACE"
      case Head => "HEAD"
      case Options => "OPTIONS"
    }
  }

  /** Distinct methods go out with distinct verbs. */
  lemma MethodNameInjective(a: Method, b: Method)
    requires a.Name() == b.Name()
    ensures a == b
  {
  }

  /** `HttpContent`: the bytes, the media type and the charset parameter of its
      `Content-Type`. */
  datatype Content = Content(bytes: seq<byte>, mediaType: string, charset: Option<string>)

  /** `HttpRequestMessage` as handed to the transport. */
  datatype TransportRequest = TransportRequest(
    httpMethod: Method,
    uri: UriParts,
    headers: seq<Entry<string, string>>,
    content: Option<Content>)

  /** `HttpResponseMessage`. */
  datatype Response = Response(status: int, body: seq<byte>, charset: Option<string>)

  /** `HttpResponseMessage.IsSuccessStatusCode`: the 2xx class of section 15.3 of
      RFC 9110. */
  predicate IsSuccessStatusCode(status: int) {
    200 <= status <= 299
  }

  /** What little is fixed about `Uri.ToString()`: a URI whose escaped text
      holds no "%" has nothing to unescape, and is shown as written. */
  predicate ShowsAsWritten(p: Platform, u: UriParts) {
    '%' !in UriText(u) ==> p.uriToString(u) == UriText(u)
  }

  datatype Platform = Platform(
    /** `new UriBuilder(uri)`; `None` is a `UriFormatException`. */
    parseUri: string -> Option<UriParts>,
    /** `Uri.ToString()`: the unescaped canonical form of the URI, so that a
        query value serialised as "caf%c3%a9" shows as "café". */
    uriToString: UriParts -> string,
    /** `HttpUtility.ParseQueryString(query)` enumerated as pairs. */
    parseQuery: string -> seq<Pair>,
    /** `ToString()` of the query collection after the pairs were added in order. */
    serializeQuery: seq<Pair> -> string,
    /** Whether `HttpRequestHeaders.Add(name, value)` accepts the header on a
        message that already holds the given headers, added in that order. The
        collection compares names case-insensitively, so a second value for a
        single-value header such as `Authorization` can be refused even when
        the request's own dictionary, which compares ordinally, keeps both. */
    acceptsHeader: (seq<Entry<string, string>>, string, string) -> bool,
    /** Whether `new StringContent(text, encoding, mediaType)` accepts the media
        type; one it cannot parse is a `FormatException`. */
    acceptsMediaType: string -> bool,
    /** `JsonSerializer.SerializeAsync` of a body object. */
    serializeJson: (Value, CancellationToken) -> Result<seq<byte>>,
    /** The bytes of `new FormUrlEncodedContent(pairs)`. */
    formEncode: seq<Pair> -> seq<byte>,
    /** `HttpContent.ReadAsStringAsync`, decoding with the response charset. */
    decodeText: (seq<byte>, Option<string>) -> Result<string>,
    /** `JsonSerializer.DeserializeAsync`. */
    deserializeJson: (seq<byte>, JsonOptions, CancellationToken) -> Result<Value>,
    /** `XmlSerializer.Deserialize`. */
    deserializeXml: seq<byte> -> Result<Value>,
    /** `HttpClient.SendAsync(request, token)`. */
    send: (Client, TransportRequest, CancellationToken) -> Result<Response>)
}

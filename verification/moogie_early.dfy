/** The first `Moogie.Http` draft, the `MoogieHttpRequest.cs` at the repository
    root: a request with a client, a base URI, a method, a query list and a
    header dictionary. Header names are not validated, query values are not
    filtered, and `MakeRequest` always sends GET, without path or body. */
module MoogieEarly {
  import opened Core
  import opened Text
  import opened OrderedMaps
  import opened Runtime
  import opened Requests
  import Headers
  import Urls
  import opened Builder
  import opened Sending
  import MoogieHttp

  /** The draft's `HttpRequest`. The client is `null` unless the two-argument
      constructor supplied one. */
  datatype EarlyRequest = EarlyRequest(
    client: Option<Client>,
    uri: string,
    httpMethod: Method,
    queryParameters: Option<seq<Pair>>,
    headers: Option<seq<Entry<string, string>>>)

  /** `new HttpRequest(uri)`: no client, GET, nothing else set. */
  function New(uri: string): (r: EarlyRequest)
    ensures r.client.None? && r.uri == uri && r.httpMethod == Get
    ensures r.queryParameters.None? && r.headers.None?
  {
    EarlyRequest(None, uri, Get, None, None)
  }

  /** `new HttpRequest(uri, httpClient)`: the same, with the client stored as given. */
  function NewWithClient(uri: string, httpClient: Option<Client>): (r: EarlyRequest)
    ensures r.client == httpClient
    ensures r.(client := None) == New(uri)
  {
    New(uri).(client := httpClient)
  }

  /** The request of the later generation with the same state, for comparison:
      it has no path segments and no body. */
  function AsLater(e: EarlyRequest, client: Client): (r: HttpRequest)
    ensures r.uri == e.uri && r.httpMethod == e.httpMethod && r.client == client
    ensures r.headers == e.headers && r.queryParameters == e.queryParameters
    ensures r.pathSegments.None? && r.body.None?
  {
    HttpRequest(client, e.uri, e.httpMethod, e.headers, None, e.queryParameters, None)
  }

  /** The value of a header, if the dictionary exists and holds the name. */
  function HeaderValue(e: EarlyRequest, name: string): (v: Option<string>)
    ensures v.Some? <==> e.headers.Some? && ContainsKey(e.headers.value, name)
  {
    if e.headers.None? then None else Lookup(e.headers.value, name)
  }

  /** `WithRequestHeader(headerName, headerValue)`: no check on the name; only
      the dictionary's own `null` key check can fail. Any other name, blank or
      not, is set, overwriting an earlier value. */
  function WithRequestHeader(e: EarlyRequest, headerName: Option<string>, headerValue: string): (res: Result<EarlyRequest>)
    ensures res.Failure? <==> headerName.None?
    ensures res.Failure? ==> res.error == ArgumentNull("key")
    ensures res.Success? ==>
              && HeaderValue(res.value, headerName.value) == Some(headerValue)
              && res.value.(headers := e.headers) == e
  {
    if headerName.None? then Failure(ArgumentNull("key"))
    else Success(e.(headers := Some(Assign(e.headers.GetOr([]), headerName.value, headerValue))))
  }

  /** A blank name, which the later generation refuses, is accepted here. */
  lemma BlankHeaderNameAccepted(e: EarlyRequest, client: Client, name: string, value: string)
    requires IsBlank(name)
    ensures WithRequestHeader(e, Some(name), value).Success?
    ensures Headers.WithRequestHeader(AsLater(e, client), Some(name), value).Failure?
  {
  }

  /** For any other name both generations store the same dictionary. */
  lemma HeaderAgreesWithLater(e: EarlyRequest, client: Client, name: string, value: string)
    requires !IsBlank(name)
    ensures AsLater(WithRequestHeader(e, Some(name), value).value, client)
         == Headers.WithRequestHeader(AsLater(e, client), Some(name), value).value
  {
  }

  /** `WithBearerTokenAuth(token)`: as in the later generation; a `null` token
      fails on `Replace`. */
  function WithBearerTokenAuth(e: EarlyRequest, token: Option<string>): (res: Result<EarlyRequest>)
    ensures res.Failure? <==> token.None?
    ensures res.Failure? ==> res.error == NullReference
    ensures res.Success? ==>
              && HeaderValue(res.value, Headers.AuthorizationHeader)
                   == Some(Headers.BearerPrefix + RemoveAll(token.value, Headers.BearerPrefix))
              && res.value.(headers := e.headers) == e
  {
    if token.None? then Failure(NullReference)
    else WithRequestHeader(e, Some(Headers.AuthorizationHeader), Headers.BearerPrefix + RemoveAll(token.value, Headers.BearerPrefix))
  }

  /** `WithUserAgent(userAgent)`: the `User-Agent` header. */
  function WithUserAgent(e: EarlyRequest, userAgent: string): (res: EarlyRequest)
    ensures HeaderValue(res, Headers.UserAgentHeader) == Some(userAgent)
    ensures res.(headers := e.headers) == e
  {
    WithRequestHeader(e, Some(Headers.UserAgentHeader), userAgent).value
  }

  /** `AcceptingResponseContentType(contentType, replace)`: comma-appending as in
      the later generation. */
  function AcceptingResponseContentType(e: EarlyRequest, contentType: string, replace: bool): (res: EarlyRequest)
    ensures HeaderValue(res, Headers.AcceptHeader) ==
              if HeaderValue(e, Headers.AcceptHeader).Some? && !replace
              then Some(HeaderValue(e, Headers.AcceptHeader).value + "," + contentType)
              else Some(contentType)
    ensures res.(headers := e.headers) == e
  {
    var current := HeaderValue(e, Headers.AcceptHeader);
    var accept := if current.Some? && !replace then current.value + "," + contentType else contentType;
    WithRequestHeader(e, Some(Headers.AcceptHeader), accept).value
  }

  /** The draft's `Accept` shortcuts are the later generation's, state for state. */
  lemma AcceptAgreesWithLater(e: EarlyRequest, client: Client, contentType: string, replace: bool)
    ensures AsLater(AcceptingResponseContentType(e, contentType, replace), client)
         == Headers.AcceptingResponseContentType(AsLater(e, client), contentType, replace).value
  {
    assert !IsWhiteSpace(Headers.AcceptHeader[0]);
  }

  function AcceptingJsonResponseContentType(e: EarlyRequest, replace: bool): (res: EarlyRequest)
    ensures HeaderValue(res, Headers.AcceptHeader) ==
              if HeaderValue(e, Headers.AcceptHeader).Some? && !replace
              then Some(HeaderValue(e, Headers.AcceptHeader).value + "," + "application/json")
              else Some("application/json")
    ensures res.(headers := e.headers) == e
  {
    AcceptingResponseContentType(e, "application/json", replace)
  }

  function AcceptingXmlResponseContentType(e: EarlyRequest, replace: bool): (res: EarlyRequest)
    ensures HeaderValue(res, Headers.AcceptHeader) ==
              if HeaderValue(e, Headers.AcceptHeader).Some? && !replace
              then Some(HeaderValue(e, Headers.AcceptHeader).value + "," + "application/xml")
              else Some("application/xml")
    ensures res.(headers := e.headers) == e
  {
    AcceptingResponseContentType(e, "application/xml", replace)
  }

  function AcceptingPlainResponseContentType(e: EarlyRequest, replace: bool): (res: EarlyRequest)
    ensures HeaderValue(res, Headers.AcceptHeader) ==
              if HeaderValue(e, Headers.AcceptHeader).Some? && !replace
              then Some(HeaderValue(e, Headers.AcceptHeader).value + "," + "text/plain")
              else Some("text/plain")
    ensures res.(headers := e.headers) == e
  {
    AcceptingResponseContentType(e, "text/plain", replace)
  }

  function AcceptingHtmlResponseContentType(e: EarlyRequest, replace: bool): (res: EarlyRequest)
    ensures HeaderValue(res, Headers.AcceptHeader) ==
              if HeaderValue(e, Headers.AcceptHeader).Some? && !replace
              then Some(HeaderValue(e, Headers.AcceptHeader).value + "," + "text/html")
              else Some("text/html")
    ensures res.(headers := e.headers) == e
  {
    AcceptingResponseContentType(e, "text/html", replace)
  }

  /** `WithQueryParameter(parameterName, value)`: every pair is appended, blank
      value or repeated name alike. */
  function WithQueryParameter(e: EarlyRequest, parameterName: string, value: string): (res: EarlyRequest)
    ensures res.queryParameters == Some(e.queryParameters.GetOr([]) + [Pair(parameterName, value)])
    ensures res.(queryParameters := e.queryParameters) == e
  {
    e.(queryParameters := Some(e.queryParameters.GetOr([]) + [Pair(parameterName, value)]))
  }

  /** A blank value is kept here, where the later generation drops it. */
  lemma BlankQueryValueKept(e: EarlyRequest, client: Client, name: string, value: string)
    requires IsBlank(value)
    ensures |WithQueryParameter(e, name, value).queryParameters.value| == |e.queryParameters.GetOr([])| + 1
    ensures Urls.WithQueryParameter(AsLater(e, client), name, Some(value)).queryParameters.value == e.queryParameters.GetOr([])
  {
  }

  /** Any other value is appended by both generations alike. */
  lemma QueryAgreesWithLater(e: EarlyRequest, client: Client, name: string, value: string)
    requires !IsBlank(value)
    ensures AsLater(WithQueryParameter(e, name, value), client)
         == Urls.WithQueryParameter(AsLater(e, client), name, Some(value))
  {
  }

  /** `AsAGet()`, the only method setter of the draft. */
  function AsAGet(e: EarlyRequest): (res: EarlyRequest)
    ensures res.httpMethod == Get && res.(httpMethod := e.httpMethod) == e
  {
    e.(httpMethod := Get)
  }

  /** The URI `MakeRequest` builds: the base with its query replaced when a query
      list exists. */
  function QueryUri(p: Platform, e: EarlyRequest): (res: Result<UriParts>)
    ensures res.Failure? <==> p.parseUri(e.uri).None?
    ensures res.Success? ==> res.value.(query := p.parseUri(e.uri).value.query) == p.parseUri(e.uri).value
  {
    match p.parseUri(e.uri)
    case None => Failure(UriFormat)
    case Some(uri) =>
      if e.queryParameters.None? then Success(uri)
      else Success(uri.(query := p.serializeQuery(p.parseQuery(uri.query) + e.queryParameters.value)))
  }

  /** It is `BuildUri` of the later generation on a request without segments. */
  lemma QueryUriIsBuildUri(p: Platform, e: EarlyRequest, client: Client)
    ensures QueryUri(p, e) == BuildUri(p, AsLater(e, client))
  {
  }

  /** `MakeRequest()`: a GET whatever the configured method, with the headers in
      order and no content. A missing client is dereferenced only after the
      message is built. Nothing is disposed. */
  function MakeRequest(p: Platform, e: EarlyRequest): (res: Outcome<Response>)
    ensures BeforeResponse(res.effects) && ReleaseRequest !in res.effects
    ensures SendCount(res.effects) <= 1
    ensures QueryUri(p, e).Failure? ==> res == Outcome([], Failure(UriFormat))
  {
    match QueryUri(p, e)
    case Failure(err) => Outcome([], Failure(err))
    case Success(uri) =>
      var headers := e.headers.GetOr([]);
      match FirstRejected(p, headers)
      case Some(name) => Outcome([], Failure(InvalidHeader(name)))
      case None =>
        if e.client.None? then Outcome([], Failure(NullReference))
        else
          var message := TransportRequest(Get, uri, headers, None);
          var effects := [Send(e.client.value, message, MoogieHttp.NoToken)];
          assert SendCount(effects) == 1 by { assert effects[1..] == []; }
          Outcome(effects, p.send(e.client.value, message, MoogieHttp.NoToken))
  }

  /** The configured method never reaches the transport. */
  lemma MethodIgnored(p: Platform, e: EarlyRequest, m: Method)
    ensures MakeRequest(p, e.(httpMethod := m)) == MakeRequest(p, e)
    ensures forall i :: 0 <= i < |MakeRequest(p, e).effects| && MakeRequest(p, e).effects[i].Send? ==>
              MakeRequest(p, e).effects[i].request.httpMethod == Get
  {
  }

  /** Without a client nothing is sent; once the URI and headers are fine the
      call fails with a `NullReferenceException`. */
  lemma UnsetClientNeverSends(p: Platform, e: EarlyRequest)
    requires e.client.None?
    ensures SendCount(MakeRequest(p, e).effects) == 0
    ensures QueryUri(p, e).Success? && FirstRejected(p, e.headers.GetOr([])).None? ==>
              MakeRequest(p, e).result == Failure(NullReference)
  {
  }

  /** A GET request with a client does what the later generation's `MakeRequest`
      does with the same state. */
  lemma GetAgreesWithLater(p: Platform, e: EarlyRequest, client: Client)
    requires e.client == Some(client) && e.httpMethod == Get
    ensures MakeRequest(p, e) == MoogieHttp.MakeRequest(p, AsLater(e, client))
  {
    MoogieHttp.InlineUriIsBuildUri(p, AsLater(e, client));
    QueryUriIsBuildUri(p, e, client);
    if QueryUri(p, e).Success? {
      var sent := [Send(client, TransportRequest(Get, QueryUri(p, e).value, e.headers.GetOr([]), None), MoogieHttp.NoToken)];
      assert [] + sent == sent;
    }
  }

  /** `EnsureSuccessStatusCode()`: throws on a status outside 2xx; the response
      is neither read nor disposed. */
  function EnsureSuccessStatusCode(p: Platform, e: EarlyRequest): (res: Outcome<Payload>)
    ensures res.effects == MakeRequest(p, e).effects
    ensures ReleaseResponse !in res.effects && ReadBody !in res.effects
    ensures MakeRequest(p, e).result.Success? ==>
              (res.result.Success? <==> IsSuccessStatusCode(MakeRequest(p, e).result.value.status))
    ensures MakeRequest(p, e).result.Success? && !IsSuccessStatusCode(MakeRequest(p, e).result.value.status) ==>
              res.result == Failure(HttpRequestFailed(MakeRequest(p, e).result.value.status))
  {
    var sent := MakeRequest(p, e);
    match sent.result
    case Failure(err) => Outcome(sent.effects, Failure(err))
    case Success(response) =>
      if IsSuccessStatusCode(response.status) then Outcome(sent.effects, Success(NoPayload))
      else Outcome(sent.effects, Failure(HttpRequestFailed(response.status)))
  }

  /** The draft's check gives the result of the gated reader, which would also
      have disposed the response. */
  lemma EnsureSuccessMissesRelease(p: Platform, e: EarlyRequest)
    ensures EnsureSuccessStatusCode(p, e).result == Gate(p, MakeRequest(p, e), NoRead, MoogieHttp.NoToken).result
    ensures MakeRequest(p, e).result.Success? ==>
              Gate(p, MakeRequest(p, e), NoRead, MoogieHttp.NoToken).effects
                == EnsureSuccessStatusCode(p, e).effects + [ReleaseResponse]
  {
    assert MakeRequest(p, e).effects + [] == MakeRequest(p, e).effects;
  }
}

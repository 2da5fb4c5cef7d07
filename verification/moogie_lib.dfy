/** `MoogieHttpRequest` of `lib/Moogie.Http`: a request whose URI is parsed at
    construction, with a dedicated user-agent field, an auto-redirect flag, an
    unvalidated header dictionary and a query dictionary in which a repeated name
    overwrites. This generation has no send path. */
module MoogieLib {
  import opened Core
  import opened Text
  import opened OrderedMaps
  import opened Runtime
  import opened Requests
  import Urls
  import Builder

  type Dictionary = seq<Entry<string, string>>

  datatype MoogieHttpRequest = MoogieHttpRequest(
    client: Option<Client>,
    uri: UriParts,
    userAgent: Option<string>,
    headers: Option<Dictionary>,
    queryParameters: Option<Dictionary>,
    allowAutoRedirect: bool)

  const ContentTypeHeader: string := "Content-Type"

  /** The value of a header, if the dictionary exists and holds the name. */
  function HeaderValue(r: MoogieHttpRequest, name: string): (v: Option<string>)
    ensures v.Some? <==> r.headers.Some? && ContainsKey(r.headers.value, name)
  {
    if r.headers.None? then None else Lookup(r.headers.value, name)
  }

  /** The value of a query parameter, if the dictionary exists and holds the name. */
  function QueryValue(r: MoogieHttpRequest, name: string): (v: Option<string>)
    ensures v.Some? <==> r.queryParameters.Some? && ContainsKey(r.queryParameters.value, name)
  {
    if r.queryParameters.None? then None else Lookup(r.queryParameters.value, name)
  }

  /** `new MoogieHttpRequest(uri)`: the URI is parsed now, so a malformed one
      throws here. Every other field has its default: no client, no user agent,
      no dictionaries, redirects not allowed. */
  function New(p: Platform, uri: string): (res: Result<MoogieHttpRequest>)
    ensures res.Failure? <==> p.parseUri(uri).None?
    ensures res.Failure? ==> res.error == UriFormat
    ensures res.Success? ==>
              && res.value.uri == p.parseUri(uri).value
              && res.value.client.None? && res.value.userAgent.None?
              && res.value.headers.None? && res.value.queryParameters.None?
              && !res.value.allowAutoRedirect
  {
    match p.parseUri(uri)
    case None => Failure(UriFormat)
    case Some(parsed) => Success(MoogieHttpRequest(None, parsed, None, None, None, false))
  }

  /** `new MoogieHttpRequest(uri, httpClient)`: the same, then the client. */
  function NewWithClient(p: Platform, uri: string, httpClient: Option<Client>): (res: Result<MoogieHttpRequest>)
    ensures res.Failure? <==> New(p, uri).Failure?
    ensures res.Success? ==> res.value == New(p, uri).value.(client := httpClient)
  {
    var r :- New(p, uri);
    Success(r.(client := httpClient))
  }

  /** A URI that does not parse is refused at once here, whereas the later
      generation stores it and only fails when the URI is built. */
  lemma EagerParse(p: Platform, uri: string, client: Client)
    requires p.parseUri(uri).None?
    ensures New(p, uri).Failure?
    ensures Fresh(uri, client).uri == uri
    ensures Builder.BuildUri(p, Fresh(uri, client)) == Failure(UriFormat)
  {
  }

  /** `WithUserAgent(userAgent)`: the dedicated field; the headers are not touched. */
  function WithUserAgent(r: MoogieHttpRequest, userAgent: Option<string>): (res: MoogieHttpRequest)
    ensures res.userAgent == userAgent
    ensures res.headers == r.headers
    ensures res.(userAgent := r.userAgent) == r
  {
    r.(userAgent := userAgent)
  }

  /** `ShouldAllowAutoRedirect(allowAutoRedirect)`. */
  function ShouldAllowAutoRedirect(r: MoogieHttpRequest, allowAutoRedirect: bool): (res: MoogieHttpRequest)
    ensures res.allowAutoRedirect == allowAutoRedirect
    ensures res.(allowAutoRedirect := r.allowAutoRedirect) == r
  {
    r.(allowAutoRedirect := allowAutoRedirect)
  }

  /** `ShouldAllowAutoRedirect()`: the argument defaults to `true`. */
  function ShouldAllowAutoRedirectByDefault(r: MoogieHttpRequest): (res: MoogieHttpRequest)
    ensures res.allowAutoRedirect
    ensures res.(allowAutoRedirect := r.allowAutoRedirect) == r
  {
    ShouldAllowAutoRedirect(r, true)
  }

  /** Redirects start disallowed, and are allowed after `ShouldAllowAutoRedirect(true)`
      or after the call without argument. */
  lemma AutoRedirectLifecycle(p: Platform, uri: string)
    requires New(p, uri).Success?
    ensures !New(p, uri).value.allowAutoRedirect
    ensures ShouldAllowAutoRedirect(New(p, uri).value, true).allowAutoRedirect
    ensures ShouldAllowAutoRedirectByDefault(New(p, uri).value).allowAutoRedirect
  {
  }

  /** `WithHeader(headerName, headerValue)`: no check on the name beyond the
      dictionary's own `null` key check; overwrites an earlier value. */
  function WithHeader(r: MoogieHttpRequest, headerName: Option<string>, headerValue: string): (res: Result<MoogieHttpRequest>)
    ensures res.Failure? <==> headerName.None?
    ensures res.Failure? ==> res.error == ArgumentNull("key")
    ensures res.Success? ==>
              && HeaderValue(res.value, headerName.value) == Some(headerValue)
              && res.value.(headers := r.headers) == r
  {
    if headerName.None? then Failure(ArgumentNull("key"))
    else Success(r.(headers := Some(Assign(r.headers.GetOr([]), headerName.value, headerValue))))
  }

  /** Writing one header leaves the others as they were, and a blank name is
      accepted like any other. */
  lemma WithHeaderFrame(r: MoogieHttpRequest, name: string, value: string, other: string)
    requires other != name
    ensures WithHeader(r, Some(name), value).Success?
    ensures HeaderValue(WithHeader(r, Some(name), value).value, other) == HeaderValue(r, other)
  {
    AssignOther(r.headers.GetOr([]), name, value, other);
  }

  /** `WithContentType(contentType)`: the `Content-Type` header. */
  function WithContentType(r: MoogieHttpRequest, contentType: string): (res: MoogieHttpRequest)
    ensures HeaderValue(res, ContentTypeHeader) == Some(contentType)
    ensures res.(headers := r.headers) == r
  {
    WithHeader(r, Some(ContentTypeHeader), contentType).value
  }

  function WithPlainContentType(r: MoogieHttpRequest): (res: MoogieHttpRequest)
    ensures HeaderValue(res, ContentTypeHeader) == Some("text/plain")
    ensures res.(headers := r.headers) == r
  {
    WithContentType(r, "text/plain")
  }

  function WithJsonContentType(r: MoogieHttpRequest): (res: MoogieHttpRequest)
    ensures HeaderValue(res, ContentTypeHeader) == Some("application/json")
    ensures res.(headers := r.headers) == r
  {
    WithContentType(r, "application/json")
  }

  function WithXmlContentType(r: MoogieHttpRequest): (res: MoogieHttpRequest)
    ensures HeaderValue(res, ContentTypeHeader) == Some("application/xml")
    ensures res.(headers := r.headers) == r
  {
    WithContentType(r, "application/xml")
  }

  /** The last content-type helper wins, and the second call adds no entry. */
  lemma LastContentTypeWins(r: MoogieHttpRequest, first: string, second: string)
    ensures HeaderValue(WithContentType(WithContentType(r, first), second), ContentTypeHeader) == Some(second)
    ensures Keys(WithContentType(WithContentType(r, first), second).headers.value)
         == Keys(WithContentType(r, first).headers.value)
  {
    AssignKeys(WithContentType(r, first).headers.value, ContentTypeHeader, second);
  }

  /** `WithQueryParameter(parameterName, value)`: the query dictionary's indexer,
      so a repeated name replaces its earlier value; no value is filtered. */
  function WithQueryParameter(r: MoogieHttpRequest, parameterName: Option<string>, value: string): (res: Result<MoogieHttpRequest>)
    ensures res.Failure? <==> parameterName.None?
    ensures res.Failure? ==> res.error == ArgumentNull("key")
    ensures res.Success? ==>
              && QueryValue(res.value, parameterName.value) == Some(value)
              && res.value.(queryParameters := r.queryParameters) == r
  {
    if parameterName.None? then Failure(ArgumentNull("key"))
    else Success(r.(queryParameters := Some(Assign(r.queryParameters.GetOr([]), parameterName.value, value))))
  }

  /** A repeated name keeps one entry holding the second value, where the
      later generation keeps both pairs. */
  lemma RepeatedQueryNameOverwrites(r: MoogieHttpRequest, later: HttpRequest, name: string, first: string, second: string)
    requires !IsBlank(first) && !IsBlank(second)
    ensures var r1 := WithQueryParameter(r, Some(name), first).value;
            var r2 := WithQueryParameter(r1, Some(name), second).value;
            && QueryValue(r2, name) == Some(second)
            && |r2.queryParameters.value| == |r1.queryParameters.value|
    ensures var l := Urls.WithQueryParameter(Urls.WithQueryParameter(later, name, Some(first)), name, Some(second));
            QueryPairs(l) == QueryPairs(later) + [Pair(name, first), Pair(name, second)]
  {
    var r1 := WithQueryParameter(r, Some(name), first).value;
    AssignKeys(r1.queryParameters.value, name, second);
    Urls.QueryParameterRepeats(later, name, first, second);
  }
}

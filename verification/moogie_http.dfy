/** The `Moogie.Http` generation of the library, the `HttpRequest.cs` at the
    repository root. Its request record and builders are those of
    `Baseline.FluentHttpExtensions` (modules `Requests`, `Headers`, `Urls`,
    `Bodies` and `Actions`), without the form body. What differs is here: a
    constructor that never reads a global client, a `MakeRequest` that takes no
    cancellation token, builds the URI in place and never disposes the request
    message, and three gated readers. */
module MoogieHttp {
  import opened Core
  import opened Text
  import opened Runtime
  import opened Requests
  import opened Actions
  import opened Builder
  import opened Sending

  /** `CancellationToken.None`: what every call of this generation passes on. */
  const NoToken: CancellationToken := CancellationToken(0)

  /** The options `ReadJsonResponseAs` always deserialises with. */
  const CaseInsensitive: JsonOptions := JsonOptions(true)

  /** `url.AsA…Request(client)` of this generation: the constructor without the
      global slot, then the method setter. */
  function StringAsRequest(m: Method, s: ClientSlots, url: string, client: Option<Client>)
    : (res: (HttpRequest, ClientSlots))
    requires SlotsValid(s)
    ensures SlotsValid(res.1)
    ensures res.0.httpMethod == m && res.0.uri == url
    ensures res.0.headers.None? && res.0.pathSegments.None? && res.0.queryParameters.None? && res.0.body.None?
    ensures client.Some? ==> res.0.client == client.value && res.1 == s
    ensures client.None? ==> res.0.client == CreatedClient(0)
  {
    var (r, s1) := NewHttpRequestIgnoringGlobal(s, url, client);
    (Setter(m, r), s1)
  }

  /** The URI as `MakeRequest` builds it in place: parse the base, replace the
      query when a query list exists, then extend the path when a segment list
      exists. */
  function InlineUri(p: Platform, r: HttpRequest): (res: Result<UriParts>)
    ensures res.Failure? <==> p.parseUri(r.uri).None?
  {
    match p.parseUri(r.uri)
    case None => Failure(UriFormat)
    case Some(uri) =>
      var withQuery :=
        if r.queryParameters.None? then uri
        else uri.(query := p.serializeQuery(p.parseQuery(uri.query) + r.queryParameters.value));
      var withPath :=
        if r.pathSegments.None? then withQuery
        else withQuery.(path := withQuery.path + Join("/", r.pathSegments.value));
      Success(withPath)
  }

  /** The in-place construction is `BuildUri` of the later generation. */
  lemma InlineUriIsBuildUri(p: Platform, r: HttpRequest)
    ensures InlineUri(p, r) == BuildUri(p, r)
  {
  }

  /** `MakeRequest()`: the steps of `MakeRequestAsync`, with `CancellationToken.None`
      for the body producer and the transport, and no `using` around the request
      message, so nothing is ever released. */
  function MakeRequest(p: Platform, r: HttpRequest): (res: Outcome<Response>)
    ensures ReleaseRequest !in res.effects && BeforeResponse(res.effects)
    ensures p.parseUri(r.uri).None? ==> res == Outcome([], Failure(UriFormat))
  {
    match InlineUri(p, r)
    case Failure(e) => Outcome([], Failure(e))
    case Success(uri) =>
      var headers := r.headers.GetOr([]);
      match FirstRejected(p, headers)
      case Some(name) => Outcome([], Failure(InvalidHeader(name)))
      case None =>
        var produced := if r.body.None? then [] else [ProduceBody(NoToken)];
        var content := if r.body.None? then Success(None) else
                         match ProduceContent(p, r.body.value, NoToken)
                         case Failure(e) => Failure(e)
                         case Success(c) => Success(Some(c));
        match content
        case Failure(e) => Outcome(produced, Failure(e))
        case Success(c) =>
          var message := TransportRequest(r.httpMethod, uri, headers, c);
          Outcome(produced + [Send(r.client, message, NoToken)], p.send(r.client, message, NoToken))
  }

  /** `MakeRequest` returns what `MakeRequestAsync(CancellationToken.None)`
      returns and does the same things, except that the later generation also
      disposes the request message once the URI is built. */
  lemma MakeRequestMatchesAsync(p: Platform, r: HttpRequest)
    ensures MakeRequest(p, r).result == MakeRequestAsync(p, r, NoToken).result
    ensures BuildUri(p, r).Success? ==>
              MakeRequestAsync(p, r, NoToken).effects == MakeRequest(p, r).effects + [ReleaseRequest]
    ensures BuildUri(p, r).Failure? ==> MakeRequestAsync(p, r, NoToken).effects == MakeRequest(p, r).effects == []
  {
    InlineUriIsBuildUri(p, r);
    if BuildUri(p, r).Success? && FirstRejected(p, r.headers.GetOr([])).None? && r.body.Some? {
      var produced := [ProduceBody(NoToken)];
      if ProduceContent(p, r.body.value, NoToken).Success? {
        var m := TransportRequest(r.httpMethod, BuildUri(p, r).value, r.headers.GetOr([]),
                                  Some(ProduceContent(p, r.body.value, NoToken).value));
        assert produced + [Send(r.client, m, NoToken), ReleaseRequest]
            == (produced + [Send(r.client, m, NoToken)]) + [ReleaseRequest];
      }
    }
  }

  /** `EnsureSuccessStatusCode()`: send, dispose the response, throw on a
      non-2xx status. */
  function EnsureSuccessStatusCode(p: Platform, r: HttpRequest): (res: Outcome<Payload>)
    ensures res.result.Success? ==> res.result.value == NoPayload && ReadBody !in res.effects
    ensures var m := MakeRequest(p, r);
            m.result.Success? && !IsSuccessStatusCode(m.result.value.status) ==>
              res.result == Failure(HttpRequestFailed(m.result.value.status))
    ensures var m := MakeRequest(p, r);
            m.result.Success? && IsSuccessStatusCode(m.result.value.status) ==>
              res.result == Success(NoPayload)
  {
    var res := Gate(p, MakeRequest(p, r), NoRead, NoToken);
    assert MakeRequest(p, r).effects + [] == MakeRequest(p, r).effects;
    res
  }

  /** `ReadResponseAsString()`: the gate, then the text of the body. */
  function ReadResponseAsString(p: Platform, r: HttpRequest): (res: Outcome<Payload>)
    ensures res.result.Success? ==> res.result.value.TextPayload?
    ensures var m := MakeRequest(p, r);
            m.result.Success? && !IsSuccessStatusCode(m.result.value.status) ==>
              res.result == Failure(HttpRequestFailed(m.result.value.status))
    ensures var m := MakeRequest(p, r);
            m.result.Success? && IsSuccessStatusCode(m.result.value.status) ==>
              var t := p.decodeText(m.result.value.body, m.result.value.charset);
              res.result == (if t.Success? then Success(TextPayload(t.value)) else Failure(t.error))
  {
    Gate(p, MakeRequest(p, r), AsString, NoToken)
  }

  /** `ReadJsonResponseAs<T>()`: the gate, then deserialisation with
      case-insensitive property names; the caller cannot choose the options. */
  function ReadJsonResponseAs(p: Platform, r: HttpRequest): (res: Outcome<Payload>)
    ensures res.result.Success? ==> res.result.value.ObjectPayload?
    ensures var m := MakeRequest(p, r);
            m.result.Success? && !IsSuccessStatusCode(m.result.value.status) ==>
              res.result == Failure(HttpRequestFailed(m.result.value.status))
    ensures var m := MakeRequest(p, r);
            m.result.Success? && IsSuccessStatusCode(m.result.value.status) ==>
              var d := p.deserializeJson(m.result.value.body, JsonOptions(propertyNameCaseInsensitive := true), NoToken);
              res.result == (if d.Success? then Success(ObjectPayload(d.value)) else Failure(d.error))
  {
    Gate(p, MakeRequest(p, r), AsJson(Some(CaseInsensitive)), NoToken)
  }

  /** The three readers of this generation. */
  predicate IsMoogieReader(reader: Reader) {
    reader == NoRead || reader == AsString || reader == AsJson(Some(CaseInsensitive))
  }

  /** Each reader checks the status before reading: a response outside 2xx
      fails with its status, its body is never read, and it is disposed last. */
  lemma ReadersGated(p: Platform, r: HttpRequest, reader: Reader)
    requires IsMoogieReader(reader)
    requires MakeRequest(p, r).result.Success? && !IsSuccessStatusCode(MakeRequest(p, r).result.value.status)
    ensures var g := Gate(p, MakeRequest(p, r), reader, NoToken);
            && g.result == Failure(HttpRequestFailed(MakeRequest(p, r).result.value.status))
            && ReadBody !in g.effects
            && g.effects[|g.effects| - 1] == ReleaseResponse
  {
    StatusGate(p, MakeRequest(p, r), reader, NoToken);
    ResponseAlwaysReleased(p, MakeRequest(p, r), reader, NoToken);
  }

  /** The readers of this generation give the results of the later generation's
      readers called with `CancellationToken.None` and no JSON options. */
  lemma ReadersAgreeWithAsync(p: Platform, r: HttpRequest)
    ensures EnsureSuccessStatusCode(p, r).result == EnsureSuccessStatusCodeAsync(p, r, NoToken).result
    ensures ReadResponseAsString(p, r).result == ReadResponseAsStringAsync(p, r, NoToken).result
    ensures ReadJsonResponseAs(p, r).result == ReadJsonResponseAsAsync(p, r, None, NoToken).result
  {
    MakeRequestMatchesAsync(p, r);
  }
}

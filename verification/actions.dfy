/** `RequestActionExtensions`: the HTTP method of a request. */
module Actions {
  import opened Runtime
  import opened Requests

  /** `SetRequestMethod(method)`: only the method changes. */
  function SetRequestMethod(r: HttpRequest, m: Method): (res: HttpRequest)
    ensures res.httpMethod == m
    ensures res.(httpMethod := r.httpMethod) == r
  {
    r.(httpMethod := m)
  }

  function AsAGetRequest(r: HttpRequest): (res: HttpRequest)
    ensures res.httpMethod == Get && res.(httpMethod := r.httpMethod) == r
  {
    SetRequestMethod(r, Get)
  }

  function AsAPostRequest(r: HttpRequest): (res: HttpRequest)
    ensures res.httpMethod == Post && res.(httpMethod := r.httpMethod) == r
  {
    SetRequestMethod(r, Post)
  }

  function AsAPutRequest(r: HttpRequest): (res: HttpRequest)
    ensures res.httpMethod == Put && res.(httpMethod := r.httpMethod) == r
  {
    SetRequestMethod(r, Put)
  }

  /** PATCH has no static `HttpMethod` and is built from its name. */
  function AsAPatchRequest(r: HttpRequest): (res: HttpRequest)
    ensures res.httpMethod == Patch && res.(httpMethod := r.httpMethod) == r
    ensures res.httpMethod.Name() == "PATCH"
  {
    SetRequestMethod(r, Patch)
  }

  function AsADeleteRequest(r: HttpRequest): (res: HttpRequest)
    ensures res.httpMethod == Delete && res.(httpMethod := r.httpMethod) == r
  {
    SetRequestMethod(r, Delete)
  }

  function AsATraceRequest(r: HttpRequest): (res: HttpRequest)
    ensures res.httpMethod == Trace && res.(httpMethod := r.httpMethod) == r
  {
    SetRequestMethod(r, Trace)
  }

  function AsAHeadRequest(r: HttpRequest): (res: HttpRequest)
    ensures res.httpMethod == Head && res.(httpMethod := r.httpMethod) == r
  {
    SetRequestMethod(r, Head)
  }

  function AsAnOptionsRequest(r: HttpRequest): (res: HttpRequest)
    ensures res.httpMethod == Options && res.(httpMethod := r.httpMethod) == r
  {
    SetRequestMethod(r, Options)
  }

  /** The setter that `AsA…Request` names for each method. */
  function Setter(m: Method, r: HttpRequest): HttpRequest {
    match m
    case Get => AsAGetRequest(r)
    case Post => AsAPostRequest(r)
    case Put => AsAPutRequest(r)
    case Patch => AsAPatchRequest(r)
    case Delete => AsADeleteRequest(r)
    case Trace => AsATraceRequest(r)
    case Head => AsAHeadRequest(r)
    case Options => AsAnOptionsRequest(r)
  }

  /** Successive method setters: the last one wins, and nothing but the method
      ever changes. */
  lemma LastMethodWins(r: HttpRequest, first: Method, second: Method)
    ensures Setter(second, Setter(first, r)) == Setter(second, r)
    ensures Setter(second, Setter(first, r)).httpMethod == second
    ensures Setter(second, Setter(first, r)).(httpMethod := r.httpMethod) == r
  {
  }
}

/** `StringToHttpRequestExtensions`: a URL string straight to a configured
    request. Each entry point is the constructor followed by the method setter
    of the same name. */
module StringEntry {
  import opened Core
  import opened Runtime
  import opened Requests
  import opened Actions

  /** `url.AsA…Request(client)` for the method `m`. */
  function StringAsRequest(m: Method, s: ClientSlots, url: string, client: Option<Client>)
    : (res: (HttpRequest, ClientSlots))
    requires SlotsValid(s)
    ensures res.0.httpMethod == m && res.0.uri == url
    ensures res.0.headers.None? && res.0.pathSegments.None? && res.0.queryParameters.None? && res.0.body.None?
    ensures res.0.client == NewHttpRequest(s, url, client).0.client && res.1 == NewHttpRequest(s, url, client).1
  {
    var (r, s1) := NewHttpRequest(s, url, client);
    (Setter(m, r), s1)
  }

  function StringAsAGetRequest(s: ClientSlots, url: string, client: Option<Client>): (res: (HttpRequest, ClientSlots))
    requires SlotsValid(s)
    ensures res.0.httpMethod == Get
    ensures res.0.(httpMethod := Get) == NewHttpRequest(s, url, client).0 && res.1 == NewHttpRequest(s, url, client).1
  {
    var (r, s1) := NewHttpRequest(s, url, client); (AsAGetRequest(r), s1)
  }

  function StringAsAPostRequest(s: ClientSlots, url: string, client: Option<Client>): (res: (HttpRequest, ClientSlots))
    requires SlotsValid(s)
    ensures res.0.httpMethod == Post
    ensures res.0.(httpMethod := Get) == NewHttpRequest(s, url, client).0 && res.1 == NewHttpRequest(s, url, client).1
  {
    var (r, s1) := NewHttpRequest(s, url, client); (AsAPostRequest(r), s1)
  }

  function StringAsAPutRequest(s: ClientSlots, url: string, client: Option<Client>): (res: (HttpRequest, ClientSlots))
    requires SlotsValid(s)
    ensures res.0.httpMethod == Put
    ensures res.0.(httpMethod := Get) == NewHttpRequest(s, url, client).0 && res.1 == NewHttpRequest(s, url, client).1
  {
    var (r, s1) := NewHttpRequest(s, url, client); (AsAPutRequest(r), s1)
  }

  function StringAsAPatchRequest(s: ClientSlots, url: string, client: Option<Client>): (res: (HttpRequest, ClientSlots))
    requires SlotsValid(s)
    ensures res.0.httpMethod == Patch
    ensures res.0.(httpMethod := Get) == NewHttpRequest(s, url, client).0 && res.1 == NewHttpRequest(s, url, client).1
  {
    var (r, s1) := NewHttpRequest(s, url, client); (AsAPatchRequest(r), s1)
  }

  function StringAsADeleteRequest(s: ClientSlots, url: string, client: Option<Client>): (res: (HttpRequest, ClientSlots))
    requires SlotsValid(s)
    ensures res.0.httpMethod == Delete
    ensures res.0.(httpMethod := Get) == NewHttpRequest(s, url, client).0 && res.1 == NewHttpRequest(s, url, client).1
  {
    var (r, s1) := NewHttpRequest(s, url, client); (AsADeleteRequest(r), s1)
  }

  function StringAsATraceRequest(s: ClientSlots, url: string, client: Option<Client>): (res: (HttpRequest, ClientSlots))
    requires SlotsValid(s)
    ensures res.0.httpMethod == Trace
    ensures res.0.(httpMethod := Get) == NewHttpRequest(s, url, client).0 && res.1 == NewHttpRequest(s, url, client).1
  {
    var (r, s1) := NewHttpRequest(s, url, client); (AsATraceRequest(r), s1)
  }

  function StringAsAHeadRequest(s: ClientSlots, url: string, client: Option<Client>): (res: (HttpRequest, ClientSlots))
    requires SlotsValid(s)
    ensures res.0.httpMethod == Head
    ensures res.0.(httpMethod := Get) == NewHttpRequest(s, url, client).0 && res.1 == NewHttpRequest(s, url, client).1
  {
    var (r, s1) := NewHttpRequest(s, url, client); (AsAHeadRequest(r), s1)
  }

  function StringAsAnOptionsRequest(s: ClientSlots, url: string, client: Option<Client>): (res: (HttpRequest, ClientSlots))
    requires SlotsValid(s)
    ensures res.0.httpMethod == Options
    ensures res.0.(httpMethod := Get) == NewHttpRequest(s, url, client).0 && res.1 == NewHttpRequest(s, url, client).1
  {
    var (r, s1) := NewHttpRequest(s, url, client); (AsAnOptionsRequest(r), s1)
  }

  /** The eight entry points give eight different methods. */
  lemma EntryPointsDistinct(s: ClientSlots, url: string, client: Option<Client>, m1: Method, m2: Method)
    requires SlotsValid(s)
    requires StringAsRequest(m1, s, url, client).0.httpMethod.Name() == StringAsRequest(m2, s, url, client).0.httpMethod.Name()
    ensures m1 == m2
  {
    MethodNameInjective(m1, m2);
  }
}

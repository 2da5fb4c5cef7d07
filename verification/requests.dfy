/** The `HttpRequest` record that every extension method configures, the global
    client slot of `BaselineFluentHttpExtensionsHttpClientManager`, and the
    constructor's choice of client. */
module Requests {
  import opened Core
  import opened OrderedMaps
  import opened Runtime

  /** What `GetBodyContentAsync` will produce at send time: the body setters only
      record their argument, and the content is made when the request is sent. */
  datatype BodySource =
    | JsonBody(value: Value)
    | TextBody(text: string, contentType: string)
    | FormBody(pairs: seq<Pair>)

  type Headers = seq<Entry<string, string>>

  /** `HttpRequest`. Every optional field is `None` (C# `null`) until the first
      builder call that needs it. */
  datatype HttpRequest = HttpRequest(
    client: Client,
    uri: string,
    httpMethod: Method,
    headers: Option<Headers>,
    pathSegments: Option<seq<string>>,
    queryParameters: Option<seq<Pair>>,
    body: Option<BodySource>)

  /** The invariant every builder keeps: the header dictionary has distinct keys. */
  predicate Valid(r: HttpRequest) {
    r.headers.Some? ==> UniqueKeys(r.headers.value)
  }

  /** The value of a header, if the dictionary exists and holds the name. */
  function HeaderValue(r: HttpRequest, name: string): (v: Option<string>)
    ensures v.Some? <==> r.headers.Some? && ContainsKey(r.headers.value, name)
  {
    if r.headers.None? then None else Lookup(r.headers.value, name)
  }

  /** The path segments so far, an absent list read as empty. */
  function Segments(r: HttpRequest): seq<string> {
    r.pathSegments.GetOr([])
  }

  /** The query pairs so far, an absent list read as empty. */
  function QueryPairs(r: HttpRequest): seq<Pair> {
    r.queryParameters.GetOr([])
  }

  // ---------------------------------------------------------------------------
  // Process-wide client state: the global slot of the manager and the lazily
  // created shared default of the constructor. `created` counts the clients the
  // library has constructed.

  datatype ClientSlots = ClientSlots(global: Option<Client>, shared: Option<Client>, created: nat)

  /** The state when the process starts: both static fields are `null`. */
  const InitialSlots: ClientSlots := ClientSlots(None, None, 0)

  /** The shared default is created at most once, and it is the first client the
      library creates. */
  predicate SlotsValid(s: ClientSlots) {
    && s.created <= 1
    && (s.shared.Some? <==> s.created == 1)
    && (s.shared.Some? ==> s.shared.value == CreatedClient(0))
  }

  /** `SetGlobalHttpClient(client)`: only the global slot changes. */
  function SetGlobalHttpClient(s: ClientSlots, client: Option<Client>): (r: ClientSlots)
    ensures r.global == client
    ensures r.shared == s.shared && r.created == s.created
  {
    s.(global := client)
  }

  /** `GetGlobalHttpClient()`. */
  function GetGlobalHttpClient(s: ClientSlots): Option<Client> {
    s.global
  }

  /** A series of `SetGlobalHttpClient` calls. */
  function SetAll(s: ClientSlots, clients: seq<Option<Client>>): ClientSlots
    decreases |clients|
  {
    if |clients| == 0 then s else SetAll(SetGlobalHttpClient(s, clients[0]), clients[1..])
  }

  /** After a series of calls the getter returns the last value set, `null` if
      nothing was ever set, and `null` again after `SetGlobalHttpClient(null)`. */
  lemma {:induction false} GetAfterSets(clients: seq<Option<Client>>)
    ensures GetGlobalHttpClient(SetAll(InitialSlots, clients))
         == if |clients| == 0 then None else clients[|clients| - 1]
  {
    SetAllLastWins(InitialSlots, clients);
  }

  lemma {:induction false} SetAllLastWins(s: ClientSlots, clients: seq<Option<Client>>)
    ensures SetAll(s, clients).global == if |clients| == 0 then s.global else clients[|clients| - 1]
    ensures SetAll(s, clients).shared == s.shared && SetAll(s, clients).created == s.created
    decreases |clients|
  {
    if |clients| > 0 {
      SetAllLastWins(SetGlobalHttpClient(s, clients[0]), clients[1..]);
    }
  }

  /** A request as the constructor leaves it, before client resolution. */
  function Fresh(uri: string, client: Client): (r: HttpRequest)
    ensures r.uri == uri && r.client == client && r.httpMethod == Get
    ensures r.headers.None? && r.pathSegments.None? && r.queryParameters.None? && r.body.None?
  {
    HttpRequest(client, uri, Get, None, None, None, None)
  }

  /** Creates the shared default when the condition holds and none exists yet. */
  function CreateSharedIf(s: ClientSlots, condition: bool): ClientSlots {
    if condition && s.shared.None? then
      s.(shared := Some(CreatedClient(s.created)), created := s.created + 1)
    else s
  }

  /** `new HttpRequest(uri, httpClient)`: the explicit client, else the global
      client, else the shared default, created here if this is the first request
      that needs it. The URI is stored as given and not parsed. */
  function NewHttpRequest(s: ClientSlots, uri: string, httpClient: Option<Client>): (res: (HttpRequest, ClientSlots))
    requires SlotsValid(s)
    ensures SlotsValid(res.1)
    ensures res.0 == Fresh(uri, res.0.client)
    ensures httpClient.Some? ==> res.0.client == httpClient.value && res.1 == s
    ensures httpClient.None? && s.global.Some? ==> res.0.client == s.global.value && res.1 == s
    ensures httpClient.None? && s.global.None? ==>
              res.0.client == CreatedClient(0) && res.1 == s.(shared := Some(CreatedClient(0)), created := 1)
    ensures res.1.global == s.global
  {
    var slots := CreateSharedIf(s, httpClient.None? && s.global.None?);
    var client :=
      if httpClient.Some? then httpClient.value
      else if slots.global.Some? then slots.global.value
      else slots.shared.GetOr(CreatedClient(slots.created));
    (Fresh(uri, client), slots)
  }

  /** The constructor of the `HttpRequest.cs` snapshot under `src/`: the explicit
      client, else the shared default; the global slot is never read. */
  function NewHttpRequestIgnoringGlobal(s: ClientSlots, uri: string, httpClient: Option<Client>)
    : (res: (HttpRequest, ClientSlots))
    requires SlotsValid(s)
    ensures SlotsValid(res.1)
    ensures res.0 == Fresh(uri, res.0.client)
    ensures httpClient.Some? ==> res.0.client == httpClient.value && res.1 == s
    ensures httpClient.None? ==> res.0.client == CreatedClient(0)
  {
    var slots := CreateSharedIf(s, httpClient.None?);
    var client := if httpClient.Some? then httpClient.value else slots.shared.GetOr(CreatedClient(slots.created));
    (Fresh(uri, client), slots)
  }

  /** With a global client set and no explicit one, the snapshot's constructor
      still hands out the shared default, whereas the global client is what the
      manager promises "for all subsequent requests". */
  lemma IgnoringGlobalMissesGlobalClient()
    ensures var s := SetGlobalHttpClient(InitialSlots, Some(UserClient(7)));
            && NewHttpRequestIgnoringGlobal(s, "http://www.google.com", None).0.client == CreatedClient(0)
            && NewHttpRequest(s, "http://www.google.com", None).0.client == UserClient(7)
  {
  }

  // ---------------------------------------------------------------------------
  // Traces of the two static operations.

  datatype ClientCall =
    | SetGlobal(client: Option<Client>)
    | Construct(uri: string, httpClient: Option<Client>)

  /** Runs the calls in order, collecting the requests constructed. */
  function RunCalls(s: ClientSlots, calls: seq<ClientCall>): (res: (seq<HttpRequest>, ClientSlots))
    requires SlotsValid(s)
    ensures SlotsValid(res.1)
    decreases |calls|
  {
    if |calls| == 0 then ([], s)
    else match calls[0]
      case SetGlobal(c) => RunCalls(SetGlobalHttpClient(s, c), calls[1..])
      case Construct(uri, c) =>
        var (r, s1) := NewHttpRequest(s, uri, c);
        var (rs, s2) := RunCalls(s1, calls[1..]);
        ([r] + rs, s2)
  }

  /** The shared default is private to the library, so every client a caller
      passes in is one of its own. */
  predicate CallerClients(calls: seq<ClientCall>) {
    forall i :: 0 <= i < |calls| ==>
      match calls[i]
      case SetGlobal(c) => c.Some? ==> c.value.UserClient?
      case Construct(_, c) => c.Some? ==> c.value.UserClient?
  }

  /** Over any sequence of calls the library creates at most one client, and
      every request that does not get a caller's client gets that single shared
      default. */
  lemma {:induction false} RunCallsClients(s: ClientSlots, calls: seq<ClientCall>)
    requires SlotsValid(s) && CallerClients(calls)
    requires s.global.Some? ==> s.global.value.UserClient?
    ensures var (rs, s') := RunCalls(s, calls);
            && s'.created <= 1
            && (s.shared.Some? ==> s'.shared == s.shared)
            && forall i :: 0 <= i < |rs| ==>
                 rs[i].client.CreatedClient? ==> rs[i].client == CreatedClient(0) && s'.shared == Some(CreatedClient(0))
    decreases |calls|
  {
    if |calls| > 0 {
      match calls[0]
      case SetGlobal(c) =>
        assert CallerClients(calls[1..]) by {
          forall i | 0 <= i < |calls| - 1 ensures calls[1..][i] == calls[i + 1] { }
        }
        RunCallsClients(SetGlobalHttpClient(s, c), calls[1..]);
      case Construct(uri, c) =>
        var (r, s1) := NewHttpRequest(s, uri, c);
        assert CallerClients(calls[1..]) by {
          forall i | 0 <= i < |calls| - 1 ensures calls[1..][i] == calls[i + 1] { }
        }
        RunCallsClients(s1, calls[1..]);
        var (rs, s2) := RunCalls(s1, calls[1..]);
        assert RunCalls(s, calls) == ([r] + rs, s2);
        if r.client.CreatedClient? {
          assert s1.shared == Some(CreatedClient(0));
        }
    }
  }
}

/** `SendTriggeringExtensions`: turning a configured request into one transport
    call, and the convenience readers that gate on the status code before
    reading the response. Everything observable is recorded as an effect, so the
    order of body production, sending, reading and disposal can be stated. */
module Sending {
  import opened Core
  import opened OrderedMaps
  import opened Runtime
  import opened Requests
  import opened Builder
  import Headers
  import Utf8

  /** The observable steps of a send. */
  datatype Effect =
    | ProduceBody(token: CancellationToken)
    | Send(client: Client, request: TransportRequest, token: CancellationToken)
    | ReadBody
    | ReleaseRequest
    | ReleaseResponse

  /** What a send did, and what it returned or threw. */
  datatype Outcome<T> = Outcome(effects: seq<Effect>, result: Result<T>)

  const JsonContentType: string := "application/json"
  const FormContentType: string := "application/x-www-form-urlencoded"
  const Utf8Charset: string := "utf-8"

  /** `GetBodyContentAsync(token)`: the content the registered body produces. A
      JSON body is serialised now, with the token; a text body is its UTF-8 bytes
      under the chosen content type, once that type parses; a form body is the
      encoded pairs. */
  function ProduceContent(p: Platform, body: BodySource, token: CancellationToken): (res: Result<Content>)
    ensures body.JsonBody? ==>
              res == (if p.serializeJson(body.value, token).Failure? then Failure(p.serializeJson(body.value, token).error)
                      else Success(Content(p.serializeJson(body.value, token).value, JsonContentType, None)))
    ensures body.TextBody? ==> (res.Success? <==> p.acceptsMediaType(body.contentType))
    ensures body.TextBody? && res.Failure? ==> res.error == MediaTypeFormat(body.contentType)
    ensures body.TextBody? && res.Success? ==>
              res.value.mediaType == body.contentType && res.value.charset == Some(Utf8Charset)
    ensures body.TextBody? && res.Success? ==> Utf8.Decode(res.value.bytes) == Some(body.text)
    ensures body.FormBody? ==> res == Success(Content(p.formEncode(body.pairs), FormContentType, None))
  {
    match body
    case JsonBody(v) =>
      var bytes :- p.serializeJson(v, token);
      Success(Content(bytes, JsonContentType, None))
    case TextBody(text, contentType) =>
      if !p.acceptsMediaType(contentType) then Failure(MediaTypeFormat(contentType))
      else
        Utf8.DecodeEncode(text);
        Success(Content(Utf8.Encode(text), contentType, Some(Utf8Charset)))
    case FormBody(pairs) =>
      Success(Content(p.formEncode(pairs), FormContentType, None))
  }

  /** Whether `Headers.Add` accepts the `k`-th header, once the headers before
      it have been added. */
  predicate Accepted(p: Platform, hs: seq<Entry<string, string>>, k: int)
    requires 0 <= k < |hs|
  {
    p.acceptsHeader(hs[..k], hs[k].key, hs[k].value)
  }

  /** The name of the first header that `Headers.Add` refuses when the headers
      are added one after another in dictionary order, if any. */
  function FirstRejected(p: Platform, hs: seq<Entry<string, string>>): (name: Option<string>)
    ensures name.None? <==> forall k :: 0 <= k < |hs| ==> Accepted(p, hs, k)
    ensures name.Some? ==>
              exists k :: 0 <= k < |hs| && hs[k].key == name.value && !Accepted(p, hs, k)
                          && forall j :: 0 <= j < k ==> Accepted(p, hs, j)
  {
    RejectedFrom(p, hs, 0)
  }

  /** `FirstRejected`, starting at the `i`-th header. */
  function RejectedFrom(p: Platform, hs: seq<Entry<string, string>>, i: nat): (name: Option<string>)
    requires i <= |hs|
    ensures name.None? <==> forall k :: i <= k < |hs| ==> Accepted(p, hs, k)
    ensures name.Some? ==>
              exists k :: i <= k < |hs| && hs[k].key == name.value && !Accepted(p, hs, k)
                          && forall j :: i <= j < k ==> Accepted(p, hs, j)
    decreases |hs| - i
  {
    if i == |hs| then None
    else if !Accepted(p, hs, i) then Some(hs[i].key)
    else
      var rest := RejectedFrom(p, hs, i + 1);
      assert rest.Some? ==>
               exists k :: i <= k < |hs| && hs[k].key == rest.value && !Accepted(p, hs, k)
                           && forall j :: i <= j < k ==> Accepted(p, hs, j) by {
        if rest.Some? {
          var k :| i + 1 <= k < |hs| && hs[k].key == rest.value && !Accepted(p, hs, k)
                   && forall j :: i + 1 <= j < k ==> Accepted(p, hs, j);
          assert forall j :: i <= j < k ==> Accepted(p, hs, j);
        }
      }
      rest
  }

  /** `MakeRequestAsync(token)`. Building the URI happens before the request
      message exists, so a malformed URI leaves no effect. Inside the `using`,
      every header is added in order, the body producer runs if one was
      registered, and the client sends once; the message is disposed on every
      way out. The status is not looked at. */
  function MakeRequestAsync(p: Platform, r: HttpRequest, token: CancellationToken): (res: Outcome<Response>)
    ensures BuildUri(p, r).Failure? ==> res == Outcome([], Failure(UriFormat))
    ensures BuildUri(p, r).Success? ==> |res.effects| > 0 && res.effects[|res.effects| - 1] == ReleaseRequest
  {
    match BuildUri(p, r)
    case Failure(e) => Outcome([], Failure(e))
    case Success(uri) =>
      var headers := r.headers.GetOr([]);
      match FirstRejected(p, headers)
      case Some(name) => Outcome([ReleaseRequest], Failure(InvalidHeader(name)))
      case None =>
        var produced := if r.body.None? then [] else [ProduceBody(token)];
        var content := if r.body.None? then Success(None) else
                         match ProduceContent(p, r.body.value, token)
                         case Failure(e) => Failure(e)
                         case Success(c) => Success(Some(c));
        match content
        case Failure(e) => Outcome(produced + [ReleaseRequest], Failure(e))
        case Success(c) =>
          var message := TransportRequest(r.httpMethod, uri, headers, c);
          Outcome(produced + [Send(r.client, message, token), ReleaseRequest], p.send(r.client, message, token))
  }

  /** The number of transport calls among the effects. */
  function SendCount(effects: seq<Effect>): nat
    decreases |effects|
  {
    if |effects| == 0 then 0 else (if effects[0].Send? then 1 else 0) + SendCount(effects[1..])
  }

  lemma {:induction false} SendCountAppend(a: seq<Effect>, b: seq<Effect>)
    ensures SendCount(a + b) == SendCount(a) + SendCount(b)
    decreases |a|
  {
    if |a| == 0 {
      assert a + b == b;
    } else {
      assert (a + b)[1..] == a[1..] + b;
      SendCountAppend(a[1..], b);
    }
  }

  /** Whether the request message reached the transport: the URI was built, the
      headers were accepted, and the body (if any) was produced. */
  predicate Reaches(p: Platform, r: HttpRequest, token: CancellationToken) {
    && BuildUri(p, r).Success?
    && FirstRejected(p, r.headers.GetOr([])).None?
    && (r.body.Some? ==> ProduceContent(p, r.body.value, token).Success?)
  }

  /** The message handed to the transport, once everything before it succeeded. */
  function Message(p: Platform, r: HttpRequest, token: CancellationToken): TransportRequest
    requires Reaches(p, r, token)
  {
    TransportRequest(
      r.httpMethod, BuildUri(p, r).value, r.headers.GetOr([]),
      if r.body.None? then None else Some(ProduceContent(p, r.body.value, token).value))
  }

  /** One transport call exactly when everything before it succeeded, none
      otherwise; the call carries the configured method, the built URI, every
      header in order, the produced content, the request's client and the
      caller's token; and its result is returned as it came, whatever the status. */
  lemma MakeRequestSendsOnce(p: Platform, r: HttpRequest, token: CancellationToken)
    ensures var o := MakeRequestAsync(p, r, token);
            SendCount(o.effects) == if Reaches(p, r, token) then 1 else 0
    ensures Reaches(p, r, token) ==>
              var o := MakeRequestAsync(p, r, token);
              var m := Message(p, r, token);
              && Send(r.client, m, token) in o.effects
              && o.result == p.send(r.client, m, token)
              && m.httpMethod == r.httpMethod && m.headers == r.headers.GetOr([])
              && Success(m.uri) == BuildUri(p, r)
  {
    var o := MakeRequestAsync(p, r, token);
    if BuildUri(p, r).Success? && FirstRejected(p, r.headers.GetOr([])).None? {
      var produced := if r.body.None? then [] else [ProduceBody(token)];
      assert SendCount(produced) == 0;
      if Reaches(p, r, token) {
        var tail := [Send(r.client, Message(p, r, token), token), ReleaseRequest];
        assert o.effects == produced + tail;
        assert SendCount(tail) == 1 by {
          assert tail[1..] == [ReleaseRequest] && tail[1..][1..] == [];
          assert SendCount(tail[1..]) == 0;
        }
        SendCountAppend(produced, tail);
      } else {
        assert o.effects == produced + [ReleaseRequest];
        SendCountAppend(produced, [ReleaseRequest]);
      }
    }
  }

  /** The request's dictionary compares names ordinally, so "Authorization" and
      "authorization" are two entries; the message's header collection does
      not, and when it refuses the second value of that single-value header the
      message is disposed and nothing is sent. */
  lemma CaseCollisionNotSent(p: Platform, uri: string, client: Client, token: CancellationToken)
    requires p.parseUri(uri).Some?
    requires p.acceptsHeader([], "Authorization", "Basic a")
    requires !p.acceptsHeader([Entry("Authorization", "Basic a")], "authorization", "Basic b")
    ensures Headers.WithRequestHeader(Fresh(uri, client), Some("Authorization"), "Basic a").Success?
    ensures var r1 := Headers.WithRequestHeader(Fresh(uri, client), Some("Authorization"), "Basic a").value;
            && Headers.WithRequestHeader(r1, Some("authorization"), "Basic b").Success?
            && var r2 := Headers.WithRequestHeader(r1, Some("authorization"), "Basic b").value;
               && r2.headers == Some([Entry("Authorization", "Basic a"), Entry("authorization", "Basic b")])
               && MakeRequestAsync(p, r2, token) == Outcome([ReleaseRequest], Failure(InvalidHeader("authorization")))
               && SendCount(MakeRequestAsync(p, r2, token).effects) == 0
  {
    CollisionHeaders(uri, client);
    var r1 := Headers.WithRequestHeader(Fresh(uri, client), Some("Authorization"), "Basic a").value;
    var r2 := Headers.WithRequestHeader(r1, Some("authorization"), "Basic b").value;
    assert r2.uri == uri;
    CollisionRejected(p);
    RejectedHeaderNotSent(p, r2, token, "authorization");
    assert SendCount([ReleaseRequest]) == 0 by { assert [ReleaseRequest][1..] == []; }
  }

  /** A refused header ends the call with only the release of the message. */
  lemma RejectedHeaderNotSent(p: Platform, r: HttpRequest, token: CancellationToken, name: string)
    requires BuildUri(p, r).Success? && FirstRejected(p, r.headers.GetOr([])) == Some(name)
    ensures MakeRequestAsync(p, r, token) == Outcome([ReleaseRequest], Failure(InvalidHeader(name)))
  {
  }

  /** Both spellings end up in the request's dictionary, in call order. */
  lemma CollisionHeaders(uri: string, client: Client)
    ensures Headers.WithRequestHeader(Fresh(uri, client), Some("Authorization"), "Basic a").Success?
    ensures var r1 := Headers.WithRequestHeader(Fresh(uri, client), Some("Authorization"), "Basic a").value;
            && Headers.WithRequestHeader(r1, Some("authorization"), "Basic b").Success?
            && Headers.WithRequestHeader(r1, Some("authorization"), "Basic b").value.headers
               == Some([Entry("Authorization", "Basic a"), Entry("authorization", "Basic b")])
  {
    var r0 := Fresh(uri, client);
    assert !Text.IsWhiteSpace("Authorization"[0]) && !Text.IsWhiteSpace("authorization"[0]);
    var r1 := Headers.WithRequestHeader(r0, Some("Authorization"), "Basic a").value;
    assert r1.headers == Some([Entry("Authorization", "Basic a")]);
    assert "Authorization"[0] != "authorization"[0];
    assert !ContainsKey([Entry("Authorization", "Basic a")], "authorization");
    var r2 := Headers.WithRequestHeader(r1, Some("authorization"), "Basic b").value;
    assert r2.headers == Some(Assign([Entry("Authorization", "Basic a")], "authorization", "Basic b"));
    assert [Entry("Authorization", "Basic a")] + [Entry("authorization", "Basic b")]
        == [Entry("Authorization", "Basic a"), Entry("authorization", "Basic b")];
  }

  /** The collection takes the first spelling and refuses the second. */
  lemma CollisionRejected(p: Platform)
    requires p.acceptsHeader([], "Authorization", "Basic a")
    requires !p.acceptsHeader([Entry("Authorization", "Basic a")], "authorization", "Basic b")
    ensures FirstRejected(p, [Entry("Authorization", "Basic a"), Entry("authorization", "Basic b")])
         == Some("authorization")
  {
    var hs := [Entry("Authorization", "Basic a"), Entry("authorization", "Basic b")];
    assert hs[..0] == [] && hs[..1] == [Entry("Authorization", "Basic a")];
    assert Accepted(p, hs, 0) && !Accepted(p, hs, 1);
  }

  /** The body producer runs exactly when a body was registered and the headers
      went through, it runs first, it gets the caller's token, and the transport
      comes after it. */
  lemma ProducerBeforeSend(p: Platform, r: HttpRequest, token: CancellationToken)
    ensures var o := MakeRequestAsync(p, r, token);
            (ProduceBody(token) in o.effects) <==>
              BuildUri(p, r).Success? && FirstRejected(p, r.headers.GetOr([])).None? && r.body.Some?
    ensures var o := MakeRequestAsync(p, r, token);
            forall t :: ProduceBody(t) in o.effects ==> t == token && o.effects[0] == ProduceBody(t)
    ensures var o := MakeRequestAsync(p, r, token);
            forall i :: 0 <= i < |o.effects| && o.effects[i].Send? ==>
              (r.body.Some? <==> i > 0 && o.effects[i - 1] == ProduceBody(token))
  {
  }

  // ---------------------------------------------------------------------------
  // The readers.

  /** What a convenience method does with the response body. */
  datatype Reader =
    | NoRead
    | AsStream
    | AsString
    | AsJson(options: Option<JsonOptions>)
    | AsXml

  datatype Payload =
    | NoPayload
    | StreamPayload(bytes: seq<byte>)
    | TextPayload(text: string)
    | ObjectPayload(value: Value)

  /** The `HttpResponseMessageExtensions` reader for `reader`, kept abstract in
      the platform: a copy of the bytes, the text in the response charset, or
      the deserialised object. JSON without options is read case-insensitively. */
  function ReadPayload(p: Platform, reader: Reader, response: Response, token: CancellationToken): (res: Result<Payload>)
    ensures reader.NoRead? ==> res == Success(NoPayload)
    ensures reader.AsStream? ==> res == Success(StreamPayload(response.body))
    ensures reader.AsString? ==>
              var t := p.decodeText(response.body, response.charset);
              res == (if t.Success? then Success(TextPayload(t.value)) else Failure(t.error))
    ensures reader.AsJson? ==>
              var d := p.deserializeJson(response.body,
                                         if reader.options.Some? then reader.options.value
                                         else JsonOptions(propertyNameCaseInsensitive := true),
                                         token);
              res == (if d.Success? then Success(ObjectPayload(d.value)) else Failure(d.error))
    ensures reader.AsXml? ==>
              var d := p.deserializeXml(response.body);
              res == (if d.Success? then Success(ObjectPayload(d.value)) else Failure(d.error))
  {
    match reader
    case NoRead => Success(NoPayload)
    case AsStream => Success(StreamPayload(response.body))
    case AsString =>
      var text :- p.decodeText(response.body, response.charset);
      Success(TextPayload(text))
    case AsJson(options) =>
      var v :- p.deserializeJson(response.body, options.GetOr(DefaultReaderOptions), token);
      Success(ObjectPayload(v))
    case AsXml =>
      var v :- p.deserializeXml(response.body);
      Success(ObjectPayload(v))
  }

  /** No response has been read or disposed yet: true of what any send leaves. */
  predicate BeforeResponse(effects: seq<Effect>) {
    ReadBody !in effects && ReleaseResponse !in effects
  }

  /** `using (var response = await send) { response.EnsureSuccessStatusCode(); read }`:
      a failed send propagates; otherwise a non-2xx status throws before any
      read, and the response is disposed on both ways out. */
  function Gate(p: Platform, sent: Outcome<Response>, reader: Reader, token: CancellationToken): (res: Outcome<Payload>)
    ensures sent.result.Failure? ==> res == Outcome(sent.effects, Failure(sent.result.error))
  {
    match sent.result
    case Failure(e) => Outcome(sent.effects, Failure(e))
    case Success(response) =>
      if !IsSuccessStatusCode(response.status) then
        Outcome(sent.effects + [ReleaseResponse], Failure(HttpRequestFailed(response.status)))
      else
        var read := if reader.NoRead? then [] else [ReadBody];
        Outcome(sent.effects + read + [ReleaseResponse], ReadPayload(p, reader, response, token))
  }

  /** The convenience readers: `MakeRequestAsync` behind the success gate. */
  function Fetch(p: Platform, r: HttpRequest, reader: Reader, token: CancellationToken): (res: Outcome<Payload>)
    ensures MakeRequestAsync(p, r, token).result.Failure? ==>
              res == Outcome(MakeRequestAsync(p, r, token).effects, Failure(MakeRequestAsync(p, r, token).result.error))
  {
    Gate(p, MakeRequestAsync(p, r, token), reader, token)
  }

  function EnsureSuccessStatusCodeAsync(p: Platform, r: HttpRequest, token: CancellationToken): (res: Outcome<Payload>)
    ensures res.result.Success? ==> res.result.value == NoPayload && ReadBody !in res.effects
    ensures var m := MakeRequestAsync(p, r, token);
            m.result.Success? && !IsSuccessStatusCode(m.result.value.status) ==>
              res.result == Failure(HttpRequestFailed(m.result.value.status))
    ensures var m := MakeRequestAsync(p, r, token);
            m.result.Success? && IsSuccessStatusCode(m.result.value.status) ==>
              res.result == Success(NoPayload)
  {
    var res := Fetch(p, r, NoRead, token);
    assert MakeRequestAsync(p, r, token).effects + [] == MakeRequestAsync(p, r, token).effects;
    res
  }

  function ReadResponseAsStreamAsync(p: Platform, r: HttpRequest, token: CancellationToken): (res: Outcome<Payload>)
    ensures res.result.Success? ==> res.result.value.StreamPayload?
    ensures var m := MakeRequestAsync(p, r, token);
            m.result.Success? && !IsSuccessStatusCode(m.result.value.status) ==>
              res.result == Failure(HttpRequestFailed(m.result.value.status))
    ensures var m := MakeRequestAsync(p, r, token);
            m.result.Success? && IsSuccessStatusCode(m.result.value.status) ==>
              res.result == Success(StreamPayload(m.result.value.body))
  {
    Fetch(p, r, AsStream, token)
  }

  function ReadResponseAsStringAsync(p: Platform, r: HttpRequest, token: CancellationToken): (res: Outcome<Payload>)
    ensures res.result.Success? ==> res.result.value.TextPayload?
    ensures var m := MakeRequestAsync(p, r, token);
            m.result.Success? && !IsSuccessStatusCode(m.result.value.status) ==>
              res.result == Failure(HttpRequestFailed(m.result.value.status))
    ensures var m := MakeRequestAsync(p, r, token);
            m.result.Success? && IsSuccessStatusCode(m.result.value.status) ==>
              var t := p.decodeText(m.result.value.body, m.result.value.charset);
              res.result == (if t.Success? then Success(TextPayload(t.value)) else Failure(t.error))
  {
    Fetch(p, r, AsString, token)
  }

  function ReadJsonResponseAsAsync(p: Platform, r: HttpRequest, options: Option<JsonOptions>, token: CancellationToken)
    : (res: Outcome<Payload>)
    ensures res.result.Success? ==> res.result.value.ObjectPayload?
    ensures var m := MakeRequestAsync(p, r, token);
            m.result.Success? && !IsSuccessStatusCode(m.result.value.status) ==>
              res.result == Failure(HttpRequestFailed(m.result.value.status))
    ensures var m := MakeRequestAsync(p, r, token);
            m.result.Success? && IsSuccessStatusCode(m.result.value.status) ==>
              var d := p.deserializeJson(m.result.value.body,
                                         if options.Some? then options.value
                                         else JsonOptions(propertyNameCaseInsensitive := true),
                                         token);
              res.result == (if d.Success? then Success(ObjectPayload(d.value)) else Failure(d.error))
  {
    Fetch(p, r, AsJson(options), token)
  }

  function ReadXmlResponseAsAsync(p: Platform, r: HttpRequest, token: CancellationToken): (res: Outcome<Payload>)
    ensures res.result.Success? ==> res.result.value.ObjectPayload?
    ensures var m := MakeRequestAsync(p, r, token);
            m.result.Success? && !IsSuccessStatusCode(m.result.value.status) ==>
              res.result == Failure(HttpRequestFailed(m.result.value.status))
    ensures var m := MakeRequestAsync(p, r, token);
            m.result.Success? && IsSuccessStatusCode(m.result.value.status) ==>
              var d := p.deserializeXml(m.result.value.body);
              res.result == (if d.Success? then Success(ObjectPayload(d.value)) else Failure(d.error))
  {
    Fetch(p, r, AsXml, token)
  }

  /** Sending reads and disposes no response. */
  lemma MakeRequestBeforeResponse(p: Platform, r: HttpRequest, token: CancellationToken)
    ensures BeforeResponse(MakeRequestAsync(p, r, token).effects)
  {
  }

  /** The success gate: when the transport answers with a status outside 2xx, the
      reader fails with that status and the body is never read. */
  lemma StatusGate(p: Platform, sent: Outcome<Response>, reader: Reader, token: CancellationToken)
    requires BeforeResponse(sent.effects)
    requires sent.result.Success? && !IsSuccessStatusCode(sent.result.value.status)
    ensures Gate(p, sent, reader, token).result == Failure(HttpRequestFailed(sent.result.value.status))
    ensures ReadBody !in Gate(p, sent, reader, token).effects
  {
  }

  /** With a 2xx status the body is read once, unless nothing is to be read, and
      the payload is what the reader makes of the response. */
  lemma ReadAfterSuccess(p: Platform, sent: Outcome<Response>, reader: Reader, token: CancellationToken)
    requires BeforeResponse(sent.effects)
    requires sent.result.Success? && IsSuccessStatusCode(sent.result.value.status)
    ensures var g := Gate(p, sent, reader, token);
            && g.result == ReadPayload(p, reader, sent.result.value, token)
            && (ReadBody in g.effects <==> !reader.NoRead?)
            && SendCount(g.effects) == SendCount(sent.effects)
  {
    var read := if reader.NoRead? then [] else [ReadBody];
    SendCountAppend(sent.effects, read);
    SendCountAppend(sent.effects + read, [ReleaseResponse]);
    assert SendCount([ReleaseResponse]) == 0;
    assert SendCount(read) == 0;
  }

  /** Once a response exists it is disposed, exactly once and last, whatever the
      status and whatever the reader does. */
  lemma ResponseAlwaysReleased(p: Platform, sent: Outcome<Response>, reader: Reader, token: CancellationToken)
    requires BeforeResponse(sent.effects) && sent.result.Success?
    ensures var g := Gate(p, sent, reader, token);
            && |g.effects| > 0 && g.effects[|g.effects| - 1] == ReleaseResponse
            && ReleaseResponse !in g.effects[..|g.effects| - 1]
  {
    var g := Gate(p, sent, reader, token);
    if IsSuccessStatusCode(sent.result.value.status) {
      var read := if reader.NoRead? then [] else [ReadBody];
      assert g.effects[..|g.effects| - 1] == sent.effects + read;
    } else {
      assert g.effects[..|g.effects| - 1] == sent.effects;
    }
  }

  /** Through a convenience reader the transport is still called exactly once
      when the request reaches it. */
  lemma FetchSendsOnce(p: Platform, r: HttpRequest, reader: Reader, token: CancellationToken)
    ensures SendCount(Fetch(p, r, reader, token).effects) == if Reaches(p, r, token) then 1 else 0
  {
    var o := MakeRequestAsync(p, r, token);
    MakeRequestSendsOnce(p, r, token);
    if o.result.Success? {
      if IsSuccessStatusCode(o.result.value.status) {
        ReadAfterSuccess(p, o, reader, token);
      } else {
        SendCountAppend(o.effects, [ReleaseResponse]);
        assert SendCount([ReleaseResponse]) == 0;
      }
    }
  }
}

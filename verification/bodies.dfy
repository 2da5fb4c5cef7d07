/** `BodyContentExtensions`: the three body setters. Each validates its
    arguments, then records a body source that is turned into content only when
    the request is sent. */
module Bodies {
  import opened Core
  import opened Text
  import opened Runtime
  import opened Requests

  /** The media type a JSON body is sent with. */
  const JsonMediaType: string := "application/json"

  /** The default content type of `WithTextBody`. */
  const DefaultTextContentType: string := "text/plain"

  /** `WithJsonBody(body)`: refuses a null object; otherwise records it. Nothing
      is serialised here. */
  function WithJsonBody(r: HttpRequest, body: Option<Value>): (res: Result<HttpRequest>)
    ensures res.Failure? <==> body.None?
    ensures res.Failure? ==> res.error == ArgumentNull("body")
    ensures res.Success? ==> res.value.body == Some(JsonBody(body.value)) && res.value.(body := r.body) == r
  {
    if body.None? then Failure(ArgumentNull("body")) else Success(r.(body := Some(JsonBody(body.value))))
  }

  /** `WithTextBody(body, contentType)`: refuses a null body, then a null or
      blank content type; otherwise records both. A caller that omits the
      content type passes `Some(DefaultTextContentType)`. */
  function WithTextBody(r: HttpRequest, body: Option<string>, contentType: Option<string>): (res: Result<HttpRequest>)
    ensures res.Failure? <==> body.None? || IsNullOrWhiteSpace(contentType)
    ensures body.None? ==> res == Failure(ArgumentNull("body"))
    ensures body.Some? && IsNullOrWhiteSpace(contentType) ==> res == Failure(ArgumentNull("contentType"))
    ensures res.Success? ==>
              res.value.body == Some(TextBody(body.value, contentType.value)) && res.value.(body := r.body) == r
  {
    if body.None? then Failure(ArgumentNull("body"))
    else if IsNullOrWhiteSpace(contentType) then Failure(ArgumentNull("contentType"))
    else Success(r.(body := Some(TextBody(body.value, contentType.value))))
  }

  /** `WithFormUrlEncodedBody(pairs)`: refuses a null array; otherwise records the
      pairs as given, in order and with repeated keys. */
  function WithFormUrlEncodedBody(r: HttpRequest, body: Option<seq<Pair>>): (res: Result<HttpRequest>)
    ensures res.Failure? <==> body.None?
    ensures res.Failure? ==> res.error == ArgumentNull("body")
    ensures res.Success? ==> res.value.body == Some(FormBody(body.value)) && res.value.(body := r.body) == r
  {
    if body.None? then Failure(ArgumentNull("body")) else Success(r.(body := Some(FormBody(body.value))))
  }

  /** One call of any of the three setters. */
  datatype BodyCall =
    | SetJson(json: Option<Value>)
    | SetText(text: Option<string>, contentType: Option<string>)
    | SetForm(form: Option<seq<Pair>>)

  function ApplyBody(r: HttpRequest, call: BodyCall): Result<HttpRequest> {
    match call
    case SetJson(v) => WithJsonBody(r, v)
    case SetText(t, ct) => WithTextBody(r, t, ct)
    case SetForm(f) => WithFormUrlEncodedBody(r, f)
  }

  /** Whether a setter succeeds depends only on its own arguments. */
  lemma ApplyBodyOutcome(r: HttpRequest, s: HttpRequest, call: BodyCall)
    ensures ApplyBody(r, call).Success? <==> ApplyBody(s, call).Success?
  {
  }

  /** The last body wins: after a successful setter, a second successful setter
      gives the request the first call never happened. */
  lemma LastBodyWins(r: HttpRequest, first: BodyCall, second: BodyCall)
    requires ApplyBody(r, first).Success?
    requires ApplyBody(r, second).Success?
    ensures ApplyBody(ApplyBody(r, first).value, second) == ApplyBody(r, second)
  {
  }
}

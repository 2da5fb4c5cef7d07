/** `HeaderExtensions`: the header dictionary of a request and the shortcuts
    that write `Authorization`, `User-Agent` and `Accept`. */
module Headers {
  import opened Core
  import opened Text
  import opened OrderedMaps
  import opened Runtime
  import opened Requests
  import Utf8
  import Base64

  /** `WithRequestHeader(headerName, headerValue)`: refuses a null or blank name
      before touching the request; otherwise creates the dictionary if needed and
      sets the name to the value, overwriting an earlier value under the same
      (case-sensitive) name. */
  function WithRequestHeader(r: HttpRequest, headerName: Option<string>, headerValue: string): (res: Result<HttpRequest>)
    ensures res.Failure? <==> IsNullOrWhiteSpace(headerName)
    ensures res.Failure? ==> res.error == ArgumentNull("headerName")
    ensures res.Success? ==>
              && HeaderValue(res.value, headerName.value) == Some(headerValue)
              && res.value.(headers := r.headers) == r
              && (r.headers.Some? && ContainsKey(r.headers.value, headerName.value) ==>
                    |res.value.headers.value| == |r.headers.value|)
  {
    if IsNullOrWhiteSpace(headerName) then Failure(ArgumentNull("headerName"))
    else
      var name := headerName.value;
      var before := r.headers.GetOr([]);
      var after := Assign(before, name, headerValue);
      assert ContainsKey(before, name) ==> |after| == |before| by {
        if ContainsKey(before, name) { AssignKeys(before, name, headerValue); }
      }
      Success(r.(headers := Some(after)))
  }

  /** Writing one header leaves every other header as it was. */
  lemma WithRequestHeaderFrame(r: HttpRequest, name: string, value: string, other: string)
    requires !IsBlank(name) && other != name
    ensures WithRequestHeader(r, Some(name), value).Success?
    ensures HeaderValue(WithRequestHeader(r, Some(name), value).value, other) == HeaderValue(r, other)
  {
    var before := r.headers.GetOr([]);
    AssignOther(before, name, value, other);
    assert WithRequestHeader(r, Some(name), value).value.headers == Some(Assign(before, name, value));
  }

  /** Writing a header keeps the dictionary free of duplicate names. */
  lemma WithRequestHeaderValid(r: HttpRequest, name: string, value: string)
    requires !IsBlank(name) && Valid(r)
    ensures WithRequestHeader(r, Some(name), value).Success?
    ensures Valid(WithRequestHeader(r, Some(name), value).value)
  {
    var before := r.headers.GetOr([]);
    AssignUnique(before, name, value);
    assert WithRequestHeader(r, Some(name), value).value.headers == Some(Assign(before, name, value));
  }

  /** Setting the same header twice keeps only the second value. */
  lemma WithRequestHeaderOverwrites(r: HttpRequest, name: string, first: string, second: string)
    requires !IsBlank(name)
    ensures var r1 := WithRequestHeader(r, Some(name), first).value;
            var r2 := WithRequestHeader(r1, Some(name), second).value;
            && HeaderValue(r2, name) == Some(second)
            && (ContainsKey(r1.headers.value, name) ==> |r2.headers.value| == |r1.headers.value|)
  {
  }

  // ---------------------------------------------------------------------------
  // Authorization

  const AuthorizationHeader: string := "Authorization"
  const BearerPrefix: string := "Bearer "

  /** `WithBearerTokenAuth(token)`: `Authorization: Bearer <token>`, with every
      "Bearer " already in the token removed first. A null token fails on the
      `Replace` call, with a `NullReferenceException`. */
  function WithBearerTokenAuth(r: HttpRequest, token: Option<string>): (res: Result<HttpRequest>)
    ensures token.None? <==> res.Failure?
    ensures res.Failure? ==> res.error == NullReference
    ensures res.Success? ==>
              && HeaderValue(res.value, AuthorizationHeader) == Some(BearerPrefix + RemoveAll(token.value, BearerPrefix))
              && res.value.(headers := r.headers) == r
  {
    if token.None? then Failure(NullReference)
    else
      assert !IsWhiteSpace(AuthorizationHeader[0]);
      WithRequestHeader(r, Some(AuthorizationHeader), BearerPrefix + RemoveAll(token.value, BearerPrefix))
  }

  /** A token given with or without its "Bearer " prefix produces the same
      header. */
  lemma BearerPrefixIgnored(r: HttpRequest, token: string)
    ensures WithBearerTokenAuth(r, Some(BearerPrefix + token)) == WithBearerTokenAuth(r, Some(token))
  {
    assert StartsWith(BearerPrefix + token, BearerPrefix);
    assert (BearerPrefix + token)[|BearerPrefix|..] == token;
  }

  /** A token without the substring "Bearer " (any token of section 2.1 of RFC
      6750, which has no spaces) is sent exactly as given. */
  lemma BearerPlainToken(r: HttpRequest, token: string)
    requires !Contains(token, BearerPrefix)
    ensures HeaderValue(WithBearerTokenAuth(r, Some(token)).value, AuthorizationHeader) == Some(BearerPrefix + token)
  {
  }

  /** `Replace` makes a single left-to-right pass, so removing the prefix can
      leave a new "Bearer " behind. */
  lemma BearerRemovalIsSinglePass()
    ensures RemoveAll("BeBearer arer x", BearerPrefix) == "Bearer x"
  {
    var s := "BeBearer arer x";
    assert s[..7] != BearerPrefix by { assert s[..7][2] != BearerPrefix[2]; }
    assert s[1..][..7] != BearerPrefix by { assert s[1..][..7][0] != BearerPrefix[0]; }
    assert s[2..][..7] == BearerPrefix;
    assert s[2..][7..] == "arer x";
    assert RemoveAll(s[2..], BearerPrefix) == "arer x";
    assert RemoveAll(s[1..], BearerPrefix) == "e" + "arer x";
  }

  /** The `user-pass` of section 2 of RFC 7617, with `null` interpolated as
      the empty string. */
  function Credentials(username: Option<string>, password: Option<string>): string {
    username.GetOr("") + ":" + password.GetOr("")
  }

  const BasicPrefix: string := "Basic "

  /** `WithBasicAuth(username, password)`: `Authorization: Basic` followed by the
      base 64 encoding of the UTF-8 bytes of `username:password`. */
  function WithBasicAuth(r: HttpRequest, username: Option<string>, password: Option<string>): (res: Result<HttpRequest>)
    ensures res.Success?
    ensures res.value.(headers := r.headers) == r
    ensures var h := HeaderValue(res.value, AuthorizationHeader);
            && h.Some? && StartsWith(h.value, BasicPrefix)
            && Base64.Decode(h.value[|BasicPrefix|..]) == Some(Utf8.Encode(Credentials(username, password)))
  {
    var parameter := Base64.Encode(Utf8.Encode(Credentials(username, password)));
    Base64.DecodeEncode(Utf8.Encode(Credentials(username, password)));
    assert (BasicPrefix + parameter)[|BasicPrefix|..] == parameter;
    assert !IsWhiteSpace(AuthorizationHeader[0]);
    WithRequestHeader(r, Some(AuthorizationHeader), BasicPrefix + parameter)
  }

  /** The text before the first colon and the text after it. */
  function SplitAtFirstColon(s: string): Option<(string, string)>
    decreases |s|
  {
    if |s| == 0 then None
    else if s[0] == ':' then Some(("", s[1..]))
    else match SplitAtFirstColon(s[1..])
      case None => None
      case Some((a, b)) => Some(([s[0]] + a, b))
  }

  lemma {:induction false} SplitAtFirstColonOf(user: string, pass: string)
    requires forall i :: 0 <= i < |user| ==> user[i] != ':'
    ensures SplitAtFirstColon(user + ":" + pass) == Some((user, pass))
    decreases |user|
  {
    if |user| == 0 {
      assert user + ":" + pass == [':'] + pass;
    } else {
      assert (user + ":" + pass)[1..] == user[1..] + ":" + pass;
      SplitAtFirstColonOf(user[1..], pass);
      assert [user[0]] + user[1..] == user;
    }
  }

  /** The server side of section 2 of RFC 7617: decoding the header recovers the
      user name and the password, provided the user name has no colon. */
  lemma BasicAuthRecoverable(r: HttpRequest, username: string, password: string)
    requires forall i :: 0 <= i < |username| ==> username[i] != ':'
    ensures var h := HeaderValue(WithBasicAuth(r, Some(username), Some(password)).value, AuthorizationHeader).value;
            && Base64.Decode(h[|BasicPrefix|..]).Some?
            && Utf8.Decode(Base64.Decode(h[|BasicPrefix|..]).value) == Some(username + ":" + password)
            && SplitAtFirstColon(username + ":" + password) == Some((username, password))
  {
    Utf8.DecodeEncode(username + ":" + password);
    SplitAtFirstColonOf(username, password);
  }

  // ---------------------------------------------------------------------------
  // User-Agent and Accept

  const UserAgentHeader: string := "User-Agent"
  const AcceptHeader: string := "Accept"

  /** `WithUserAgent(userAgent)`: the `User-Agent` header. */
  function WithUserAgent(r: HttpRequest, userAgent: string): (res: Result<HttpRequest>)
    ensures res.Success?
    ensures HeaderValue(res.value, UserAgentHeader) == Some(userAgent)
    ensures res.value.(headers := r.headers) == r
  {
    assert !IsWhiteSpace(UserAgentHeader[0]);
    WithRequestHeader(r, Some(UserAgentHeader), userAgent)
  }

  /** The `Accept` value after `AcceptingResponseContentType(contentType, replace)`. */
  predicate AcceptUpdated(before: HttpRequest, after: HttpRequest, contentType: string, replace: bool) {
    HeaderValue(after, AcceptHeader) ==
      if HeaderValue(before, AcceptHeader).Some? && !replace
      then Some(HeaderValue(before, AcceptHeader).value + "," + contentType)
      else Some(contentType)
  }

  /** `AcceptingResponseContentType(contentType, replace)`: appends the type to an
      existing `Accept` header, separated by a bare comma, unless `replace` is
      set or there is no such header, in which case the header becomes the type. */
  function AcceptingResponseContentType(r: HttpRequest, contentType: string, replace: bool): (res: Result<HttpRequest>)
    ensures res.Success?
    ensures AcceptUpdated(r, res.value, contentType, replace)
    ensures res.value.(headers := r.headers) == r
  {
    var current := HeaderValue(r, AcceptHeader);
    var accept := if current.Some? && !replace then current.value + "," + contentType else contentType;
    assert !IsWhiteSpace(AcceptHeader[0]);
    WithRequestHeader(r, Some(AcceptHeader), accept)
  }

  function AcceptingJsonResponseContentType(r: HttpRequest, replace: bool): (res: Result<HttpRequest>)
    ensures res.Success? && AcceptUpdated(r, res.value, "application/json", replace)
    ensures res.value.(headers := r.headers) == r
  {
    AcceptingResponseContentType(r, "application/json", replace)
  }

  function AcceptingXmlResponseContentType(r: HttpRequest, replace: bool): (res: Result<HttpRequest>)
    ensures res.Success? && AcceptUpdated(r, res.value, "application/xml", replace)
    ensures res.value.(headers := r.headers) == r
  {
    AcceptingResponseContentType(r, "application/xml", replace)
  }

  function AcceptingPlainResponseContentType(r: HttpRequest, replace: bool): (res: Result<HttpRequest>)
    ensures res.Success? && AcceptUpdated(r, res.value, "text/plain", replace)
    ensures res.value.(headers := r.headers) == r
  {
    AcceptingResponseContentType(r, "text/plain", replace)
  }

  function AcceptingHtmlResponseContentType(r: HttpRequest, replace: bool): (res: Result<HttpRequest>)
    ensures res.Success? && AcceptUpdated(r, res.value, "text/html", replace)
    ensures res.value.(headers := r.headers) == r
  {
    AcceptingResponseContentType(r, "text/html", replace)
  }

  /** Accepting several types in turn, none with `replace`. */
  function AcceptAll(r: HttpRequest, types: seq<string>): HttpRequest
    decreases |types|
  {
    if |types| == 0 then r
    else AcceptAll(AcceptingResponseContentType(r, types[0], false).value, types[1..])
  }

  /** Starting without an `Accept` header, accepting several types in turn
      leaves them joined by commas in call order. */
  lemma {:induction false} AcceptAccumulates(r: HttpRequest, types: seq<string>)
    requires HeaderValue(r, AcceptHeader).None?
    requires |types| > 0
    ensures HeaderValue(AcceptAll(r, types), AcceptHeader) == Some(Join(",", types))
  {
    AcceptAllFrom(AcceptingResponseContentType(r, types[0], false).value, [types[0]], types[1..]);
    assert [types[0]] + types[1..] == types;
  }

  lemma {:induction false} AcceptAllFrom(r: HttpRequest, done: seq<string>, types: seq<string>)
    requires |done| > 0 && HeaderValue(r, AcceptHeader) == Some(Join(",", done))
    ensures HeaderValue(AcceptAll(r, types), AcceptHeader) == Some(Join(",", done + types))
    decreases |types|
  {
    if |types| == 0 {
      assert done + types == done;
      assert AcceptAll(r, types) == r;
    } else {
      var r1 := AcceptingResponseContentType(r, types[0], false).value;
      var done1 := done + [types[0]];
      assert HeaderValue(r1, AcceptHeader) == Some(Join(",", done1)) by {
        AcceptStep(r, done, types[0]);
      }
      assert HeaderValue(AcceptAll(r1, types[1..]), AcceptHeader) == Some(Join(",", done1 + types[1..])) by {
        AcceptAllFrom(r1, done1, types[1..]);
      }
      assert AcceptAll(r, types) == AcceptAll(r1, types[1..]) by {
        AcceptAllStep(r, types);
      }
      assert done1 + types[1..] == done + types;
    }
  }

  /** One appending call adds one type to the comma-joined list. */
  lemma AcceptStep(r: HttpRequest, done: seq<string>, contentType: string)
    requires |done| > 0 && HeaderValue(r, AcceptHeader) == Some(Join(",", done))
    ensures HeaderValue(AcceptingResponseContentType(r, contentType, false).value, AcceptHeader)
         == Some(Join(",", done + [contentType]))
  {
    JoinSnoc(",", done, contentType);
  }

  /** `AcceptAll` takes the first type, then the rest. */
  lemma AcceptAllStep(r: HttpRequest, types: seq<string>)
    requires |types| > 0
    ensures AcceptAll(r, types) == AcceptAll(AcceptingResponseContentType(r, types[0], false).value, types[1..])
  {
  }
}

/** `BuilderExtensions`: the URI a request will be sent to, computed from its
    state without sending anything. */
module Builder {
  import opened Core
  import opened Text
  import opened Runtime
  import opened Requests
  import opened Urls

  /** `BuildUri()`: parse the base URI; if a query call was ever made, the base
      query's pairs followed by the added pairs in call order replace the query;
      if a path call was ever made, the joined segments are appended to the base
      path. The request itself is only read. */
  function BuildUri(p: Platform, r: HttpRequest): (res: Result<UriParts>)
    ensures res.Failure? <==> p.parseUri(r.uri).None?
    ensures res.Failure? ==> res.error == UriFormat
    ensures res.Success? ==>
              var base := p.parseUri(r.uri).value;
              && res.value.authority == base.authority
              && res.value.fragment == base.fragment
              && (r.queryParameters.None? ==> res.value.query == base.query)
              && (r.pathSegments.None? ==> res.value.path == base.path)
              && (r.queryParameters.Some? ==>
                    res.value.query == p.serializeQuery(p.parseQuery(base.query) + r.queryParameters.value))
              && (r.pathSegments.Some? ==> res.value.path == base.path + Join("/", r.pathSegments.value))
              && StartsWith(res.value.path, base.path)
  {
    match p.parseUri(r.uri)
    case None => Failure(UriFormat)
    case Some(base) =>
      var query :=
        if r.queryParameters.None? then base.query
        else p.serializeQuery(p.parseQuery(base.query) + r.queryParameters.value);
      var path :=
        if r.pathSegments.None? then base.path
        else base.path + Join("/", r.pathSegments.value);
      Success(UriParts(base.authority, path, query, base.fragment))
  }

  /** `BuildUriAsString()`: `ToString()` of the built URI, which shows it
      unescaped rather than as the escaped text `UriText`. */
  function BuildUriAsString(p: Platform, r: HttpRequest): (res: Result<string>)
    ensures res.Failure? <==> p.parseUri(r.uri).None?
    ensures res.Failure? ==> res.error == UriFormat
    ensures res.Success? ==> res.value == p.uriToString(BuildUri(p, r).value)
  {
    var u :- BuildUri(p, r);
    Success(p.uriToString(u))
  }

  /** When the built URI has nothing to unescape, its string is the escaped
      text itself, and so begins with the base URI's authority and path. */
  lemma BuildUriAsStringPlain(p: Platform, r: HttpRequest)
    requires BuildUri(p, r).Success?
    requires ShowsAsWritten(p, BuildUri(p, r).value) && '%' !in UriText(BuildUri(p, r).value)
    ensures BuildUriAsString(p, r) == Success(UriText(BuildUri(p, r).value))
    ensures var base := p.parseUri(r.uri).value;
            StartsWith(BuildUriAsString(p, r).value, base.authority + base.path)
  {
    var base := p.parseUri(r.uri).value;
    var u := BuildUri(p, r).value;
    assert StartsWith(u.path, base.path);
    assert UriText(u)[..|base.authority + base.path|] == base.authority + base.path;
  }

  /** Only the base URI, the segment list and the query list matter: headers,
      method, body and client leave the URI alone. */
  lemma BuildUriReadsUrlStateOnly(p: Platform, r: HttpRequest, s: HttpRequest)
    requires r.uri == s.uri && r.pathSegments == s.pathSegments && r.queryParameters == s.queryParameters
    ensures BuildUri(p, r) == BuildUri(p, s)
  {
  }

  /** The added pairs follow the base query's pairs, in call order. */
  lemma BuildUriQueryOrder(p: Platform, r: HttpRequest, base: UriParts)
    requires p.parseUri(r.uri) == Some(base) && r.queryParameters.Some?
    ensures BuildUri(p, r).value.query == p.serializeQuery(p.parseQuery(base.query) + QueryPairs(r))
  {
  }

  /** The first segment is glued to the base path as it stands: no "/" is put
      between them, so a base path without a trailing slash runs into it. */
  lemma {:induction false} PathWithoutSeparator(p: Platform, r: HttpRequest, base: UriParts)
    requires p.parseUri(r.uri) == Some(base) && |Segments(r)| > 0 && r.pathSegments.Some?
    ensures StartsWith(BuildUri(p, r).value.path, base.path + Segments(r)[0])
  {
    var segs := r.pathSegments.value;
    var path := BuildUri(p, r).value.path;
    JoinStartsWithFirst(segs);
    assert path == base.path + Join("/", segs);
    assert path[..|base.path + segs[0]|] == base.path + Join("/", segs)[..|segs[0]|];
  }

  lemma {:induction false} JoinStartsWithFirst(parts: seq<string>)
    requires |parts| > 0
    ensures StartsWith(Join("/", parts), parts[0])
  {
    if |parts| > 1 {
      assert Join("/", parts) == parts[0] + ("/" + Join("/", parts[1..]));
      assert Join("/", parts)[..|parts[0]|] == parts[0];
    }
  }

  /** One more path segment extends the built path by "/" and the segment, or by
      the segment alone when it is the first. */
  lemma {:induction false} BuildUriAfterPathSegment(p: Platform, r: HttpRequest, segment: string)
    requires !IsBlank(segment)
    requires BuildUri(p, r).Success?
    ensures var before := BuildUri(p, r).value;
            BuildUri(p, WithPathSegment(r, Some(segment)).value)
            == Success(before.(path := before.path + (if |Segments(r)| == 0 then "" else "/") + segment))
  {
    var base := p.parseUri(r.uri).value;
    var before := BuildUri(p, r).value;
    var r1 := WithPathSegment(r, Some(segment)).value;
    var segs := Segments(r);
    assert r1.pathSegments == Some(segs + [segment]);
    if r.pathSegments.None? {
      assert Join("/", segs) == "" && base.path + "" == base.path;
    }
    assert before.path == base.path + Join("/", segs);
    JoinAppendSegment(base.path, segs, segment);
  }

  /** The path arithmetic behind `BuildUriAfterPathSegment`. */
  lemma {:induction false} JoinAppendSegment(basePath: string, segs: seq<string>, segment: string)
    ensures basePath + Join("/", segs + [segment])
         == basePath + Join("/", segs) + (if |segs| == 0 then "" else "/") + segment
  {
    JoinSnoc("/", segs, segment);
    if |segs| == 0 {
      assert segs + [segment] == [segment];
      assert Join("/", segs) == "";
    }
  }

  // ---------------------------------------------------------------------------
  // Interleaved path and query calls.

  datatype UrlCall = PathCall(segment: Option<string>) | QueryCall(name: string, value: Option<string>)

  function ApplyUrlCall(r: HttpRequest, call: UrlCall): Result<HttpRequest> {
    match call
    case PathCall(s) => WithPathSegment(r, s)
    case QueryCall(n, v) => Success(WithQueryParameter(r, n, v))
  }

  /** The calls in order, stopping at the first that throws. */
  function ApplyUrlCalls(r: HttpRequest, calls: seq<UrlCall>): Result<HttpRequest>
    decreases |calls|
  {
    if |calls| == 0 then Success(r)
    else
      var r1 :- ApplyUrlCall(r, calls[0]);
      ApplyUrlCalls(r1, calls[1..])
  }

  /** No path call in the list is null or blank. */
  predicate PathsValid(calls: seq<UrlCall>)
    decreases |calls|
  {
    |calls| == 0 || ((calls[0].PathCall? ==> !IsNullOrWhiteSpace(calls[0].segment)) && PathsValid(calls[1..]))
  }

  predicate HasPathCall(calls: seq<UrlCall>)
    decreases |calls|
  {
    |calls| > 0 && (calls[0].PathCall? || HasPathCall(calls[1..]))
  }

  predicate HasQueryCall(calls: seq<UrlCall>)
    decreases |calls|
  {
    |calls| > 0 && (calls[0].QueryCall? || HasQueryCall(calls[1..]))
  }

  /** The segments the path calls add, in order. */
  function PathsOf(calls: seq<UrlCall>): seq<string>
    decreases |calls|
  {
    if |calls| == 0 then []
    else if calls[0].PathCall? then [calls[0].segment.GetOr("")] + PathsOf(calls[1..])
    else PathsOf(calls[1..])
  }

  /** The pairs the query calls add, in order, blank values dropped. */
  function QueriesOf(calls: seq<UrlCall>): seq<Pair>
    decreases |calls|
  {
    if |calls| == 0 then []
    else if calls[0].QueryCall? && !IsNullOrWhiteSpace(calls[0].value) then
      [Pair(calls[0].name, calls[0].value.value)] + QueriesOf(calls[1..])
    else QueriesOf(calls[1..])
  }

  lemma {:induction false} NoPathCalls(calls: seq<UrlCall>)
    requires !HasPathCall(calls)
    ensures PathsOf(calls) == []
    decreases |calls|
  {
    if |calls| > 0 {
      NoPathCalls(calls[1..]);
    }
  }

  lemma {:induction false} NoQueryCalls(calls: seq<UrlCall>)
    requires !HasQueryCall(calls)
    ensures QueriesOf(calls) == []
    decreases |calls|
  {
    if |calls| > 0 {
      NoQueryCalls(calls[1..]);
    }
  }

  /** Any interleaving of path and query calls succeeds exactly when every path
      segment is non-blank, and then leaves the segments of the path calls and the
      pairs of the query calls, each list in its own call order, as if all path
      calls had come first. */
  lemma {:induction false} ApplyUrlCallsSeparates(r: HttpRequest, calls: seq<UrlCall>)
    ensures ApplyUrlCalls(r, calls).Success? <==> PathsValid(calls)
    ensures ApplyUrlCalls(r, calls).Success? ==>
              var q := ApplyUrlCalls(r, calls).value;
              && q.pathSegments == (if HasPathCall(calls) then Some(Segments(r) + PathsOf(calls)) else r.pathSegments)
              && q.queryParameters == (if HasQueryCall(calls) then Some(QueryPairs(r) + QueriesOf(calls)) else r.queryParameters)
              && q.(pathSegments := r.pathSegments, queryParameters := r.queryParameters) == r
    decreases |calls|
  {
    if |calls| > 0 {
      var rest := calls[1..];
      match calls[0]
      case PathCall(s) =>
        if !IsNullOrWhiteSpace(s) {
          var r1 := WithPathSegment(r, s).value;
          assert ApplyUrlCalls(r, calls) == ApplyUrlCalls(r1, rest);
          ApplyUrlCallsSeparates(r1, rest);
          assert PathsOf(calls) == [s.value] + PathsOf(rest);
          if !HasPathCall(rest) {
            NoPathCalls(rest);
            assert Segments(r) + PathsOf(calls) == Segments(r) + [s.value];
          } else {
            assert Segments(r1) + PathsOf(rest) == Segments(r) + PathsOf(calls);
          }
        }
      case QueryCall(n, v) =>
        var r1 := WithQueryParameter(r, n, v);
        assert ApplyUrlCalls(r, calls) == ApplyUrlCalls(r1, rest);
        ApplyUrlCallsSeparates(r1, rest);
        var added := if IsNullOrWhiteSpace(v) then [] else [Pair(n, v.value)];
        assert QueriesOf(calls) == added + QueriesOf(rest);
        if IsNullOrWhiteSpace(v) {
          assert QueryPairs(r) + added == QueryPairs(r);
        }
        assert r1.queryParameters == Some(QueryPairs(r) + added);
        if !HasQueryCall(rest) {
          NoQueryCalls(rest);
          assert added + QueriesOf(rest) == added;
        }
        assert QueryPairs(r1) + QueriesOf(rest) == QueryPairs(r) + QueriesOf(calls);
    }
  }

  /** So the URI built after interleaved calls is the URI built after any other
      order of the same calls that keeps the path calls in their order and the
      query calls in theirs, such as every path call first. */
  lemma InterleavingIrrelevant(p: Platform, r: HttpRequest, calls: seq<UrlCall>, reordered: seq<UrlCall>)
    requires PathsValid(calls) && PathsValid(reordered)
    requires PathsOf(calls) == PathsOf(reordered) && HasPathCall(calls) == HasPathCall(reordered)
    requires QueriesOf(calls) == QueriesOf(reordered) && HasQueryCall(calls) == HasQueryCall(reordered)
    ensures ApplyUrlCalls(r, calls).Success? && ApplyUrlCalls(r, reordered).Success?
    ensures BuildUri(p, ApplyUrlCalls(r, calls).value) == BuildUri(p, ApplyUrlCalls(r, reordered).value)
  {
    ApplyUrlCallsSeparates(r, calls);
    ApplyUrlCallsSeparates(r, reordered);
  }

  // ---------------------------------------------------------------------------
  // The examples the tests pin, under what the .NET parser and query collection
  // give for them.

  /** The calls of the URI-building tests that end in `search?q=…`. */
  function SearchCalls(): seq<UrlCall> {
    [PathCall(Some("search")), QueryCall("q", Some("how much does a pug snore"))]
  }

  lemma {:induction false} SearchCallsState(r: HttpRequest)
    requires r.pathSegments.None? && r.queryParameters.None?
    ensures ApplyUrlCalls(r, SearchCalls())
         == Success(r.(pathSegments := Some(["search"]), queryParameters := Some([Pair("q", "how much does a pug snore")])))
  {
    var calls := SearchCalls();
    var c1 := [QueryCall("q", Some("how much does a pug snore"))];
    assert calls[1..] == c1 && c1[1..] == [];
    assert !IsWhiteSpace("search"[0]) && !IsWhiteSpace("how much does a pug snore"[0]);
    assert PathsValid(c1) && PathsValid(calls);
    assert HasPathCall(calls) && HasQueryCall(calls);
    ApplyUrlCallsSeparates(r, calls);
    assert PathsOf(c1) == [];
    assert PathsOf(calls) == ["search"];
    assert QueriesOf(c1) == [Pair("q", "how much does a pug snore")];
    assert QueriesOf(calls) == [Pair("q", "how much does a pug snore")];
    assert Segments(r) + PathsOf(calls) == PathsOf(calls);
    assert QueryPairs(r) + QueriesOf(calls) == QueriesOf(calls);
  }

  /** "https://www.google.com/" with segment "search" and q="how much does a pug
      snore", under what the .NET parser and query collection give for them. */
  lemma GoogleSearchExample(p: Platform, client: Client)
    requires p.parseUri("https://www.google.com/") == Some(UriParts("https://www.google.com", "/", "", ""))
    requires p.parseQuery("") == []
    requires p.serializeQuery([Pair("q", "how much does a pug snore")]) == "q=how+much+does+a+pug+snore"
    requires p.uriToString(UriParts("https://www.google.com", "/search", "q=how+much+does+a+pug+snore", ""))
          == UriText(UriParts("https://www.google.com", "/search", "q=how+much+does+a+pug+snore", ""))
    ensures ApplyUrlCalls(Fresh("https://www.google.com/", client), SearchCalls()).Success?
    ensures BuildUriAsString(p, ApplyUrlCalls(Fresh("https://www.google.com/", client), SearchCalls()).value)
         == Success("https://www.google.com/search?q=how+much+does+a+pug+snore")
  {
    var r := Fresh("https://www.google.com/", client);
    SearchCallsState(r);
    SearchUri(p, ApplyUrlCalls(r, SearchCalls()).value);
    SearchText();
  }

  lemma SearchUri(p: Platform, q: HttpRequest)
    requires p.parseUri("https://www.google.com/") == Some(UriParts("https://www.google.com", "/", "", ""))
    requires p.parseQuery("") == []
    requires p.serializeQuery([Pair("q", "how much does a pug snore")]) == "q=how+much+does+a+pug+snore"
    requires q.uri == "https://www.google.com/" && q.pathSegments == Some(["search"])
    requires q.queryParameters == Some([Pair("q", "how much does a pug snore")])
    ensures BuildUri(p, q) == Success(UriParts("https://www.google.com", "/search", "q=how+much+does+a+pug+snore", ""))
  {
    var base := p.parseUri(q.uri).value;
    assert Join("/", ["search"]) == "search";
    assert base.path + "search" == "/search";
    assert p.parseQuery(base.query) + q.queryParameters.value == [Pair("q", "how much does a pug snore")];
  }

  /** The escaped text of the search URI. */
  lemma SearchText()
    ensures UriText(UriParts("https://www.google.com", "/search", "q=how+much+does+a+pug+snore", ""))
         == "https://www.google.com/search?q=how+much+does+a+pug+snore"
  {
    UriTextWithQuery("https://www.google.com", "/search", "q=how+much+does+a+pug+snore");
    SearchPrefix();
    SearchWhole();
  }

  lemma SearchPrefix()
    ensures "https://www.google.com" + "/search" + "?" == "https://www.google.com/search?"
  {
    assert "https://www.google.com" + "/search" == "https://www.google.com/search";
  }

  lemma SearchWhole()
    ensures "https://www.google.com/search?" + "q=how+much+does+a+pug+snore"
         == "https://www.google.com/search?q=how+much+does+a+pug+snore"
  {
  }

  /** A URI with a non-empty query and no fragment reads as its parts around a "?". */
  lemma UriTextWithQuery(authority: string, path: string, query: string)
    requires |query| > 0
    ensures UriText(UriParts(authority, path, query, "")) == authority + path + "?" + query
  {
  }

  /** The calls of the test that interleaves path and query calls. */
  function InterleavedCalls(): seq<UrlCall> {
    [PathCall(Some("one")), QueryCall("a", Some("1")), PathCall(Some("three")), PathCall(Some("two")), QueryCall("b", Some("2"))]
  }

  lemma InterleavedCallsSummary()
    ensures PathsValid(InterleavedCalls()) && HasPathCall(InterleavedCalls()) && HasQueryCall(InterleavedCalls())
    ensures PathsOf(InterleavedCalls()) == ["one", "three", "two"]
    ensures QueriesOf(InterleavedCalls()) == [Pair("a", "1"), Pair("b", "2")]
  {
    var c4 := [QueryCall("b", Some("2"))];
    var c3 := [PathCall(Some("two"))] + c4;
    var c2 := [PathCall(Some("three"))] + c3;
    var c1 := [QueryCall("a", Some("1"))] + c2;
    var calls := [PathCall(Some("one"))] + c1;
    assert calls == InterleavedCalls();
    assert calls[1..] == c1 && c1[1..] == c2 && c2[1..] == c3 && c3[1..] == c4 && c4[1..] == [];
    assert PathsValid(calls) by {
      assert !IsWhiteSpace("one"[0]) && !IsWhiteSpace("three"[0]) && !IsWhiteSpace("two"[0]);
      assert PathsValid(c4) && PathsValid(c3) && PathsValid(c2) && PathsValid(c1);
    }
    assert PathsOf(calls) == ["one", "three", "two"] by {
      assert PathsOf(c4) == [];
      assert PathsOf(c3) == ["two"];
      assert PathsOf(c2) == ["three", "two"];
      assert PathsOf(c1) == ["three", "two"];
    }
    assert QueriesOf(calls) == [Pair("a", "1"), Pair("b", "2")] by {
      assert !IsWhiteSpace("1"[0]) && !IsWhiteSpace("2"[0]);
      assert QueriesOf(c4) == [Pair("b", "2")];
      assert QueriesOf(c3) == [Pair("b", "2")];
      assert QueriesOf(c2) == [Pair("b", "2")];
      assert QueriesOf(c1) == [Pair("a", "1"), Pair("b", "2")];
    }
  }

  lemma InterleavedCallsState(r: HttpRequest)
    requires r.pathSegments.None? && r.queryParameters.None?
    ensures ApplyUrlCalls(r, InterleavedCalls())
         == Success(r.(pathSegments := Some(["one", "three", "two"]), queryParameters := Some([Pair("a", "1"), Pair("b", "2")])))
  {
    var calls := InterleavedCalls();
    InterleavedCallsSummary();
    ApplyUrlCallsSeparates(r, calls);
    assert Segments(r) + PathsOf(calls) == PathsOf(calls);
    assert QueryPairs(r) + QueriesOf(calls) == QueriesOf(calls);
  }

  /** Path "one", query a=1, paths "three" and "two", query b=2 come out as
      "/one/three/two?a=1&b=2" after the base. The test behind this only asks
      that the sent URI contain that text, and its base URI is set up by a test
      fixture that is not part of this model, so "https://www.google.com" here
      is a chosen base, not the test's. */
  lemma InterleavedCallsExample(p: Platform, client: Client)
    requires p.parseUri("https://www.google.com") == Some(UriParts("https://www.google.com", "/", "", ""))
    requires p.parseQuery("") == []
    requires p.serializeQuery([Pair("a", "1"), Pair("b", "2")]) == "a=1&b=2"
    requires p.uriToString(UriParts("https://www.google.com", "/one/three/two", "a=1&b=2", ""))
          == UriText(UriParts("https://www.google.com", "/one/three/two", "a=1&b=2", ""))
    ensures ApplyUrlCalls(Fresh("https://www.google.com", client), InterleavedCalls()).Success?
    ensures BuildUriAsString(p, ApplyUrlCalls(Fresh("https://www.google.com", client), InterleavedCalls()).value)
         == Success("https://www.google.com/one/three/two?a=1&b=2")
  {
    var r := Fresh("https://www.google.com", client);
    InterleavedCallsState(r);
    InterleavedUri(p, ApplyUrlCalls(r, InterleavedCalls()).value);
    InterleavedText();
  }

  lemma InterleavedUri(p: Platform, q: HttpRequest)
    requires p.parseUri("https://www.google.com") == Some(UriParts("https://www.google.com", "/", "", ""))
    requires p.parseQuery("") == []
    requires p.serializeQuery([Pair("a", "1"), Pair("b", "2")]) == "a=1&b=2"
    requires q.uri == "https://www.google.com" && q.pathSegments == Some(["one", "three", "two"])
    requires q.queryParameters == Some([Pair("a", "1"), Pair("b", "2")])
    ensures BuildUri(p, q) == Success(UriParts("https://www.google.com", "/one/three/two", "a=1&b=2", ""))
  {
    var base := p.parseUri(q.uri).value;
    assert Join("/", ["two"]) == "two";
    assert Join("/", ["three", "two"]) == "three/two";
    assert Join("/", ["one", "three", "two"]) == "one/three/two";
    assert base.path + "one/three/two" == "/one/three/two";
    assert p.parseQuery(base.query) + q.queryParameters.value == [Pair("a", "1"), Pair("b", "2")];
  }

  /** The escaped text of the interleaved URI. */
  lemma InterleavedText()
    ensures UriText(UriParts("https://www.google.com", "/one/three/two", "a=1&b=2", ""))
         == "https://www.google.com/one/three/two?a=1&b=2"
  {
    UriTextWithQuery("https://www.google.com", "/one/three/two", "a=1&b=2");
    InterleavedPrefix();
    InterleavedWhole();
  }

  lemma InterleavedPrefix()
    ensures "https://www.google.com" + "/one/three/two" + "?" == "https://www.google.com/one/three/two?"
  {
    assert "https://www.google.com" + "/one/three/two" == "https://www.google.com/one/three/two";
  }

  lemma InterleavedWhole()
    ensures "https://www.google.com/one/three/two?" + "a=1&b=2" == "https://www.google.com/one/three/two?a=1&b=2"
  {
  }
}

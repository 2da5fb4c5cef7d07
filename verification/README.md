# Fluent HTTP request builder, modelled in Dafny

This project models `Baseline.FluentHttpExtensions`, a small C# library for
describing an HTTP request step by step and then sending it:

```
"https://example.com/".AsAGetRequest().WithPathSegment("users").WithQueryParameter("page", 2)
    .WithBearerTokenAuth(token).ReadJsonResponseAsAsync<User>();
```

Alongside it, the model covers the earlier generations that are kept in the
same repository (the `Moogie.Http` request of `HttpRequest.cs` at the root,
the first `MoogieHttpRequest.cs` draft, and `lib/Moogie.Http`), and the
`FileCombiner` program that generates the single-file distribution
`BaselineFluentHttpExtensions.cs`.

The model is functional. Each part of the library maps to Dafny as follows:

- **The request (`Requests.HttpRequest`).** The mutable `HttpRequest` becomes
  an immutable datatype. Each builder returns the next request as a `Result`.
  A `Failure` stands for the exception that C# throws before the request is
  changed.
- **Null and empty.** A `null` header dictionary, segment list, query list or
  body producer is `None`. This keeps `null` apart from an empty collection,
  because `BuildUri` and `MakeRequestAsync` branch on the difference.
- **The header dictionary (`OrderedMaps`).** It is an association list with
  distinct keys. A .NET `Dictionary` that never loses an entry enumerates in
  insertion order, and overwriting a key keeps its slot.
- **.NET collaborators (`Runtime.Platform`).** Each is a function-typed field:
  - `UriBuilder` parsing;
  - `Uri.ToString()`, which shows a URI unescaped;
  - `HttpUtility` query parsing and serialising;
  - header validation by `HttpRequestHeaders.Add`;
  - media-type parsing by `StringContent`;
  - the JSON and XML serialisers;
  - `FormUrlEncodedContent`;
  - charset decoding;
  - `HttpClient.SendAsync`.

  Every property is proved for all platforms, unless its statement says which
  platform answers it assumes.
- **Concrete encodings.** UTF-8 and Base64 (section 4 of RFC 4648) are written
  out, with round-trip proofs, because `WithBasicAuth` and `WithTextBody`
  depend on them.
- **Static client slots (`Requests.ClientSlots`).** These are the global
  client of `BaselineFluentHttpExtensionsHttpClientManager` and the lazily
  created shared default client. They are passed in and returned explicitly.
- **Sending (`Sending`).** Sending records an effect trace: body producer
  invoked, request sent, body read, request message disposed, response
  disposed. The ordering and disposal promises are stated over this trace.
- **The file combiner (`Combiner`).** It is a transformation of line lists.
  Directory enumeration and file reading are parameters.

## Model

| member | source | states |
|---|---|---|
| OrderedMaps.Assign | src/Baseline.FluentHttpExtensions/HeaderExtensions.cs:26-31 | after the indexer assignment the key maps to the new value, and a key not yet present is added at the end |
| OrderedMaps.AssignOther | src/Baseline.FluentHttpExtensions/HeaderExtensions.cs:26-31 | assigning one key leaves every other key's value alone |
| OrderedMaps.AssignUnique | src/Baseline.FluentHttpExtensions/HeaderExtensions.cs:26-31 | assignment keeps the keys distinct |
| OrderedMaps.AssignKeys | src/Baseline.FluentHttpExtensions/HeaderExtensions.cs:26-31 | overwriting a key that is present keeps the key list, order included |
| Requests.SetGlobalHttpClient | src/Baseline.FluentHttpExtensions/BaselineFluentHttpExtensionsHttpClientManager.cs:18-21 | only the global slot changes, and it holds exactly the client given (`null` included) |
| Requests.GetAfterSets | src/Baseline.FluentHttpExtensions/BaselineFluentHttpExtensionsHttpClientManager.cs:26-29 | after any series of sets, the getter returns the last client set, or `null` if there were none |
| Requests.SetAllLastWins | src/Baseline.FluentHttpExtensions/BaselineFluentHttpExtensionsHttpClientManager.cs:18-29 | a series of sets leaves the last value, and never touches the shared default |
| Requests.Fresh | src/Baseline.FluentHttpExtensions/HttpRequest.cs:15-23 | a new request is a GET to the URI as given, with no headers, segments, query list or body |
| Requests.NewHttpRequest | BaselineFluentHttpExtensions.cs:42-56 | the client is the explicit one, else the global one, else the shared default; the shared default is created only when neither exists and none exists yet; the URI is not parsed |
| Requests.NewHttpRequestIgnoringGlobal | src/Baseline.FluentHttpExtensions/HttpRequest.cs:31-41 | the client is the explicit one, else the shared default; the global slot is never consulted |
| Requests.IgnoringGlobalMissesGlobalClient | src/Baseline.FluentHttpExtensions.Tests/Unit/GlobalStaticClientTests.cs:12-26 | when a global client is set, the constructor of the src snapshot hands out the shared default instead, while the corrected one hands out the global client |
| Requests.RunCallsClients | BaselineFluentHttpExtensions.cs:42-56 | over any interleaving of global-client sets and constructions, at most one default client is ever created, and every request that falls back to a default gets that one |
| Headers.WithRequestHeader | src/Baseline.FluentHttpExtensions/HeaderExtensions.cs:19-34 | a null or whitespace name fails with an argument error and no change; otherwise the header holds the value, and nothing else in the request changes |
| Headers.WithRequestHeaderFrame | src/Baseline.FluentHttpExtensions/HeaderExtensions.cs:26-31 | setting one header leaves the value of every other header as it was |
| Headers.WithRequestHeaderValid | src/Baseline.FluentHttpExtensions/HeaderExtensions.cs:26-31 | setting a header keeps the request well formed: the header dictionary keeps distinct keys |
| Headers.WithRequestHeaderOverwrites | src/Baseline.FluentHttpExtensions/HeaderExtensions.cs:26-31 | setting the same header twice keeps the second value and adds no entry |
| Headers.WithBearerTokenAuth | src/Baseline.FluentHttpExtensions/HeaderExtensions.cs:43-44 | a null token fails as a null dereference; otherwise `Authorization` is "Bearer " followed by the token, with every "Bearer " occurrence removed |
| Headers.BearerPrefixIgnored | src/Baseline.FluentHttpExtensions/HeaderExtensions.cs:43-44 | a token given with or without the "Bearer " prefix yields the same header |
| Headers.BearerPlainToken | src/Baseline.FluentHttpExtensions/HeaderExtensions.cs:43-44 | a token that does not contain "Bearer " is sent unchanged after the prefix |
| Headers.BearerRemovalIsSinglePass | src/Baseline.FluentHttpExtensions/HeaderExtensions.cs:43-44 | removal is one left-to-right pass, so "BeBearer arer x" still contains "Bearer " afterwards |
| Headers.WithBasicAuth | src/Baseline.FluentHttpExtensions/HeaderExtensions.cs:53-57 | never fails; `Authorization` is "Basic " followed by text that Base64-decodes to the UTF-8 bytes of "user:password"; nothing else changes |
| Headers.SplitAtFirstColonOf | src/Baseline.FluentHttpExtensions/HeaderExtensions.cs:53-57 | "user:password" splits back at its first colon into the user and password whenever the user contains no colon |
| Headers.BasicAuthRecoverable | src/Baseline.FluentHttpExtensions/HeaderExtensions.cs:53-57 | decoding the Basic header gives back the credentials: Base64 and UTF-8 round-trip, then the colon split |
| Headers.WithUserAgent | src/Baseline.FluentHttpExtensions/HeaderExtensions.cs:65-66 | never fails; the `User-Agent` header holds the value and nothing else changes |
| Headers.AcceptingResponseContentType | src/Baseline.FluentHttpExtensions/HeaderExtensions.cs:77-88 | never fails; `Accept` becomes "old,new" when it exists and replace is false, and the new type otherwise; nothing else changes |
| Headers.AcceptingJsonResponseContentType | src/Baseline.FluentHttpExtensions/HeaderExtensions.cs:98-99 | `Accept` is updated with "application/json", appending unless replace is set |
| Headers.AcceptingXmlResponseContentType | src/Baseline.FluentHttpExtensions/HeaderExtensions.cs:109-110 | `Accept` is updated with "application/xml", appending unless replace is set |
| Headers.AcceptingPlainResponseContentType | src/Baseline.FluentHttpExtensions/HeaderExtensions.cs:120-121 | `Accept` is updated with "text/plain", appending unless replace is set |
| Headers.AcceptingHtmlResponseContentType | src/Baseline.FluentHttpExtensions/HeaderExtensions.cs:131-132 | `Accept` is updated with "text/html", appending unless replace is set |
| Headers.AcceptAccumulates | src/Baseline.FluentHttpExtensions/HeaderExtensions.cs:83-87 | starting without `Accept`, a run of appending calls leaves the types joined by commas in call order |
| Headers.AcceptAllFrom | src/Baseline.FluentHttpExtensions/HeaderExtensions.cs:83-87 | appending calls extend an existing `Accept` list, keeping the earlier types first |
| Urls.WithPathSegment | src/Baseline.FluentHttpExtensions/UrlExtensions.cs:80-95 | a null or whitespace segment fails with an argument error; otherwise it is appended to the segment list, which is created if absent, and nothing else changes |
| Urls.WithPathSegmentNumber | src/Baseline.FluentHttpExtensions/UrlExtensions.cs:17-63 | a number is appended as its decimal text, which is never blank, so the call never fails, and nothing else changes |
| Urls.WithPathSegmentGuid | src/Baseline.FluentHttpExtensions/UrlExtensions.cs:71-72 | a Guid is appended as its 36-character "D" form, and nothing else changes |
| Urls.PathSegmentNumberInjective | src/Baseline.FluentHttpExtensions/UrlExtensions.cs:17-63 | different numbers give different segments, because the text parses back to the number |
| Urls.WithQueryParameter | src/Baseline.FluentHttpExtensions/UrlExtensions.cs:174-186 | the query list is created if absent; a pair is appended unless the value is null or whitespace, in which case the list is only created |
| Urls.WithQueryParameterNumber | src/Baseline.FluentHttpExtensions/UrlExtensions.cs:104-155 | a number always adds one pair, with its decimal text as the value, and nothing else changes |
| Urls.WithQueryParameterGuid | src/Baseline.FluentHttpExtensions/UrlExtensions.cs:164-165 | a Guid always adds one pair, with its "D" form as the value, and nothing else changes |
| Urls.PathSegmentGuidInjective | src/Baseline.FluentHttpExtensions/UrlExtensions.cs:71-72 | two different Guids never give the same request as path segments |
| Urls.QueryParameterGuidInjective | src/Baseline.FluentHttpExtensions/UrlExtensions.cs:164-165 | two different Guids never give the same request as values of one query parameter |
| Text.GuidToStringRoundTrip | src/Baseline.FluentHttpExtensions/UrlExtensions.cs:71-72 | the "D" form with its four hyphens removed is the 32 lower-case hex digits of the Guid, most significant first, and reading those digits back gives the Guid |
| Text.GuidToStringInjective | src/Baseline.FluentHttpExtensions/UrlExtensions.cs:164-165 | different Guids have different "D" forms |
| Urls.QueryParameterRepeats | src/Baseline.FluentHttpExtensions/UrlExtensions.cs:174-186 | a repeated name keeps both pairs, in call order |
| Urls.BlankQueryValueMaterialises | src/Baseline.FluentHttpExtensions/UrlExtensions.cs:176-179 | a blank value adds no pair, but a missing query list becomes an empty one, which changes what `BuildUri` does |
| Bodies.WithJsonBody | src/Baseline.FluentHttpExtensions/BodyContentExtensions.cs:24-47 | a `null` value fails with an argument error; otherwise the body becomes the value, to be serialised when sent, and nothing else changes |
| Bodies.WithTextBody | src/Baseline.FluentHttpExtensions/BodyContentExtensions.cs:57-73 | a `null` body fails first, then a null or whitespace content type; otherwise the body becomes the text under that content type and nothing else changes |
| Bodies.WithFormUrlEncodedBody | src/Baseline.FluentHttpExtensions/BodyContentExtensions.cs:82-95 | a `null` array fails with an argument error; otherwise the body becomes the pairs and nothing else changes |
| Bodies.ApplyBodyOutcome | src/Baseline.FluentHttpExtensions/BodyContentExtensions.cs:24-95 | whether a body call fails depends only on its arguments, never on the request |
| Bodies.LastBodyWins | src/Baseline.FluentHttpExtensions/BodyContentExtensions.cs:31-92 | each body call replaces the producer, so only the last one is sent |
| Actions.SetRequestMethod | src/Baseline.FluentHttpExtensions/RequestActionExtensions.cs:10-14 | only the method changes |
| Actions.AsAGetRequest | src/Baseline.FluentHttpExtensions/RequestActionExtensions.cs:21-24 | the method becomes GET and nothing else changes |
| Actions.AsAPostRequest | src/Baseline.FluentHttpExtensions/RequestActionExtensions.cs:31-34 | the method becomes POST and nothing else changes |
| Actions.AsAPutRequest | src/Baseline.FluentHttpExtensions/RequestActionExtensions.cs:41-44 | the method becomes PUT and nothing else changes |
| Actions.AsAPatchRequest | src/Baseline.FluentHttpExtensions/RequestActionExtensions.cs:51-54 | the method becomes the one named "PATCH" and nothing else changes |
| Actions.AsADeleteRequest | src/Baseline.FluentHttpExtensions/RequestActionExtensions.cs:61-64 | the method becomes DELETE and nothing else changes |
| Actions.AsATraceRequest | src/Baseline.FluentHttpExtensions/RequestActionExtensions.cs:71-74 | the method becomes TRACE and nothing else changes |
| Actions.AsAHeadRequest | src/Baseline.FluentHttpExtensions/RequestActionExtensions.cs:81-84 | the method becomes HEAD and nothing else changes |
| Actions.AsAnOptionsRequest | src/Baseline.FluentHttpExtensions/RequestActionExtensions.cs:91-94 | the method becomes OPTIONS and nothing else changes |
| Actions.LastMethodWins | src/Baseline.FluentHttpExtensions/RequestActionExtensions.cs:10-14 | of two method calls only the last one counts, and nothing but the method ever changes |
| StringEntry.StringAsRequest | src/Baseline.FluentHttpExtensions/StringToHttpRequestExtensions.cs:17-97 | a URL string becomes a request with the URL unparsed, nothing configured, the chosen method, and the client and slots that the combined file's constructor (`Requests.NewHttpRequest`) resolves |
| StringEntry.StringAsAGetRequest | src/Baseline.FluentHttpExtensions/StringToHttpRequestExtensions.cs:17-20 | the request of the combined file's constructor (`Requests.NewHttpRequest`), client resolution included, with the method GET |
| StringEntry.StringAsAPostRequest | src/Baseline.FluentHttpExtensions/StringToHttpRequestExtensions.cs:28-31 | the request of the combined file's constructor (`Requests.NewHttpRequest`), client resolution included, with the method POST |
| StringEntry.StringAsAPutRequest | src/Baseline.FluentHttpExtensions/StringToHttpRequestExtensions.cs:39-42 | the request of the combined file's constructor (`Requests.NewHttpRequest`), client resolution included, with the method PUT |
| StringEntry.StringAsAPatchRequest | src/Baseline.FluentHttpExtensions/StringToHttpRequestExtensions.cs:50-53 | the request of the combined file's constructor (`Requests.NewHttpRequest`), client resolution included, with the method PATCH |
| StringEntry.StringAsADeleteRequest | src/Baseline.FluentHttpExtensions/StringToHttpRequestExtensions.cs:61-64 | the request of the combined file's constructor (`Requests.NewHttpRequest`), client resolution included, with the method DELETE |
| StringEntry.StringAsATraceRequest | src/Baseline.FluentHttpExtensions/StringToHttpRequestExtensions.cs:72-75 | the request of the combined file's constructor (`Requests.NewHttpRequest`), client resolution included, with the method TRACE |
| StringEntry.StringAsAHeadRequest | src/Baseline.FluentHttpExtensions/StringToHttpRequestExtensions.cs:83-86 | the request of the combined file's constructor (`Requests.NewHttpRequest`), client resolution included, with the method HEAD |
| StringEntry.StringAsAnOptionsRequest | src/Baseline.FluentHttpExtensions/StringToHttpRequestExtensions.cs:94-97 | the request of the combined file's constructor (`Requests.NewHttpRequest`), client resolution included, with the method OPTIONS |
| StringEntry.EntryPointsDistinct | src/Baseline.FluentHttpExtensions/StringToHttpRequestExtensions.cs:17-97 | the eight entry points produce eight different methods on otherwise equal requests |
| Builder.BuildUri | src/Baseline.FluentHttpExtensions/BuilderExtensions.cs:18-40 | fails exactly when the base URI does not parse, with a URI format error; with a query list, the query is the serialisation of the base query's pairs followed by the added pairs; with a segment list, the path is the base path followed by the segments joined by "/"; without either list that part is the base's; scheme, authority and fragment are kept |
| Builder.BuildUriAsString | src/Baseline.FluentHttpExtensions/BuilderExtensions.cs:48-51 | fails with a URI format error exactly when the base URI does not parse; otherwise it is `Uri.ToString()` of the built URI, the platform's unescaped form, not the escaped recomposition |
| Builder.BuildUriAsStringPlain | src/Baseline.FluentHttpExtensions/BuilderExtensions.cs:48-51 | when the built URI's escaped text holds no "%", and the platform shows such a URI as written, the string is that text, and it begins with the base URI's authority and path |
| Builder.BuildUriReadsUrlStateOnly | src/Baseline.FluentHttpExtensions/BuilderExtensions.cs:18-40 | method, headers, body and client have no effect on the URI |
| Builder.BuildUriQueryOrder | src/Baseline.FluentHttpExtensions/BuilderExtensions.cs:22-32 | in the serialiser's input, the pairs already in the base URI come before the added pairs, in their order; the serialised text may group repeated names differently |
| Builder.PathWithoutSeparator | src/Baseline.FluentHttpExtensions/BuilderExtensions.cs:34-37 | the first segment is glued to the base path with no "/" between them |
| Builder.BuildUriAfterPathSegment | src/Baseline.FluentHttpExtensions/BuilderExtensions.cs:34-37 | one more segment extends the built path by "/" and the segment, or by the segment alone if it is the first |
| Builder.ApplyUrlCallsSeparates | src/Baseline.FluentHttpExtensions/UrlExtensions.cs:80-186 | any interleaving of path and query calls succeeds exactly when every segment is non-blank, and then leaves the segments in path-call order and the pairs in query-call order |
| Builder.InterleavingIrrelevant | src/Baseline.FluentHttpExtensions/BuilderExtensions.cs:18-40 | two call orders that agree on the order of the path calls and of the query calls build the same URI |
| Builder.GoogleSearchExample | src/Baseline.FluentHttpExtensions.Tests/Unit/BuilderExtensionsTests/BuildUriAsStringTests.cs:10-16 | the Google URI with segment "search" and query q builds "https://www.google.com/search?q=how+much+does+a+pug+snore", assuming the parser, the query serialiser and `Uri.ToString()` answer as .NET does for this URI; for `ToString()` that means showing this escape-free URI as written |
| Builder.InterleavedCallsExample | src/Baseline.FluentHttpExtensions.Tests/Unit/UrlExtensionsTests/WithPathSegmentTests.cs:29-40 | path "one", query a=1, paths "three" and "two", query b=2 give a URI containing "/one/three/two?a=1&b=2", which is all the test asks of `RequestUri.ToString()`; as in the search example, `Uri.ToString()` is assumed to show this escape-free URI as written; the base "https://www.google.com" is the model's choice, since the test's base comes from a fixture that is not part of this model |
| Sending.ProduceContent | src/Baseline.FluentHttpExtensions/BodyContentExtensions.cs:31-92 | a JSON body is serialised with the token and labelled "application/json", or fails as its serialiser fails; a text body fails with a format error exactly when its media type does not parse (`new StringContent` at lines 69-70, run by the producer call of `SendTriggeringExtensions.cs:38-41`), and otherwise carries the content type and UTF-8 charset, with bytes that decode back to the text; a form body is the form encoding of its pairs |
| Sending.FirstRejected | src/Baseline.FluentHttpExtensions/SendTriggeringExtensions.cs:29-35 | reports the first header, in dictionary order, that the transport's header collection refuses given the headers already added before it, and none exactly when every header is accepted in turn |
| Sending.CaseCollisionNotSent | src/Baseline.FluentHttpExtensions/SendTriggeringExtensions.cs:29-35 | "Authorization" and "authorization" are two entries of the ordinally compared request dictionary (`HeaderExtensions.cs:26-31`); when the transport's collection refuses the second one after the first, the request fails with that header, is released, and nothing is sent |
| Sending.MakeRequestAsync | src/Baseline.FluentHttpExtensions/SendTriggeringExtensions.cs:21-45 | a URI that does not parse fails before anything happens; a refused header fails before the body producer is invoked; nothing reads or disposes a response |
| Sending.MakeRequestSendsOnce | src/Baseline.FluentHttpExtensions/SendTriggeringExtensions.cs:21-45 | the transport is called exactly once when the URI builds, every header is accepted after the ones added before it, and the body is produced, and never otherwise; the message carries the built URI, the method, the headers and the content |
| Sending.ProducerBeforeSend | src/Baseline.FluentHttpExtensions/SendTriggeringExtensions.cs:38-43 | the body producer runs before the send, with the same cancellation token, and the request message is disposed after it |
| Sending.ReadPayload | src/Baseline.FluentHttpExtensions/HttpResponseMessageExtensions.cs:21-87 | nothing to read gives no payload; a stream reader carries the body bytes; text is the charset decoder's result; JSON is the deserialiser's result under the caller's options, or under case-insensitive property names when none are given (line 65); XML is the XML deserialiser's result; every failure of these is the reader's failure |
| Sending.Gate | src/Baseline.FluentHttpExtensions/SendTriggeringExtensions.cs:54-60 | a failed send propagates unchanged with its effects |
| Sending.Fetch | src/Baseline.FluentHttpExtensions/SendTriggeringExtensions.cs:69-79 | a failed `MakeRequestAsync` is the reader's result |
| Sending.EnsureSuccessStatusCodeAsync | src/Baseline.FluentHttpExtensions/SendTriggeringExtensions.cs:54-60 | after a send with a status outside 2xx it fails with that status; with a 2xx status it succeeds with no payload; it never reads the body |
| Sending.ReadResponseAsStreamAsync | src/Baseline.FluentHttpExtensions/SendTriggeringExtensions.cs:69-79 | after a send with a status outside 2xx it fails with that status; with a 2xx status the result is the response's body bytes |
| Sending.ReadResponseAsStringAsync | src/Baseline.FluentHttpExtensions/SendTriggeringExtensions.cs:88-97 | after a send with a status outside 2xx it fails with that status; with a 2xx status the result is the body decoded in the response charset, or that decoding's failure |
| Sending.ReadJsonResponseAsAsync | src/Baseline.FluentHttpExtensions/SendTriggeringExtensions.cs:108-119 | after a send with a status outside 2xx it fails with that status; with a 2xx status the result is the body deserialised with the caller's options, or case-insensitively when none are given, or that deserialisation's failure |
| Sending.ReadXmlResponseAsAsync | src/Baseline.FluentHttpExtensions/SendTriggeringExtensions.cs:128-138 | after a send with a status outside 2xx it fails with that status; with a 2xx status the result is the body deserialised as XML, or that deserialisation's failure |
| Sending.MakeRequestBeforeResponse | src/Baseline.FluentHttpExtensions/SendTriggeringExtensions.cs:21-45 | sending never reads or disposes a response |
| Sending.StatusGate | src/Baseline.FluentHttpExtensions/SendTriggeringExtensions.cs:54-60 | a status outside 2xx fails with that status, and the body is never read |
| Sending.ReadAfterSuccess | src/Baseline.FluentHttpExtensions/SendTriggeringExtensions.cs:88-97 | with a 2xx status the payload is what the reader makes of the response; the body is read unless nothing is to be read; no second send happens |
| Sending.ResponseAlwaysReleased | src/Baseline.FluentHttpExtensions/SendTriggeringExtensions.cs:69-79 | once a response exists it is disposed exactly once and last, whatever the status and reader |
| Sending.FetchSendsOnce | src/Baseline.FluentHttpExtensions/SendTriggeringExtensions.cs:54-138 | each convenience reader calls the transport exactly once when the request reaches it, and never otherwise |
| Utf8.DecodeEncode | src/Baseline.FluentHttpExtensions/BodyContentExtensions.cs:69-70 | decoding the UTF-8 encoding of any string gives the string back |
| Utf8.EncodeInjective | src/Baseline.FluentHttpExtensions/HeaderExtensions.cs:53-57 | different strings have different UTF-8 encodings |
| Base64.DecodeEncode | src/Baseline.FluentHttpExtensions/HeaderExtensions.cs:53-57 | decoding the Base64 of any byte sequence gives it back |
| Text.IntToStringRoundTrip | src/Baseline.FluentHttpExtensions/UrlExtensions.cs:104-155 | the decimal text of an integer parses back to that integer |
| MoogieHttp.StringAsRequest | HttpRequest.cs:573-637 | a URL string becomes a request with the chosen method and the explicit client or the shared default; the global slot is not read |
| MoogieHttp.InlineUriIsBuildUri | HttpRequest.cs:485-496 | the URI built inside `MakeRequest` is exactly `BuildUri` of the later generation |
| MoogieHttp.MakeRequest | HttpRequest.cs:482-510 | a URI that does not parse fails before anything happens; the request message is never disposed; no response is read |
| MoogieHttp.MakeRequestMatchesAsync | HttpRequest.cs:482-510 | gives the result of `MakeRequestAsync` with no cancellation, and the same effects except the disposal of the request message |
| MoogieHttp.EnsureSuccessStatusCode | HttpRequest.cs:518-523 | after a send with a status outside 2xx it fails with that status; with a 2xx status it succeeds with no payload; it reads no body |
| MoogieHttp.ReadResponseAsString | HttpRequest.cs:531-537 | after a send with a status outside 2xx it fails with that status; with a 2xx status the result is the body decoded in the response charset, or that decoding's failure |
| MoogieHttp.ReadJsonResponseAs | HttpRequest.cs:546-558 | after a send with a status outside 2xx it fails with that status; with a 2xx status the result is the body deserialised with case-insensitive property names and no cancellation, or that deserialisation's failure |
| MoogieHttp.ReadersGated | HttpRequest.cs:518-558 | each of the three readers fails with the status when it is outside 2xx, never reads the body, and disposes the response last |
| MoogieHttp.ReadersAgreeWithAsync | HttpRequest.cs:518-558 | the three readers return what the later asynchronous readers return with no token and no JSON options |
| MoogieEarly.New | MoogieHttpRequest.cs:25 | a new draft request has no client, GET, and no headers or query list |
| MoogieEarly.NewWithClient | MoogieHttpRequest.cs:33 | the same, with the client stored as given, `null` included |
| MoogieEarly.AsLater | MoogieHttpRequest.cs:13-19 | the draft's state maps field for field onto the later request |
| MoogieEarly.WithRequestHeader | MoogieHttpRequest.cs:55-65 | only a `null` name fails; any other name, blank included, is set or overwritten |
| MoogieEarly.BlankHeaderNameAccepted | MoogieHttpRequest.cs:55-65 | a blank name is accepted here but refused by the later generation |
| MoogieEarly.HeaderAgreesWithLater | MoogieHttpRequest.cs:55-65 | for a non-blank name both generations store the same dictionary |
| MoogieEarly.WithBearerTokenAuth | MoogieHttpRequest.cs:74-75 | `Authorization` is "Bearer " followed by the token with "Bearer " removed; a null token fails |
| MoogieEarly.WithUserAgent | MoogieHttpRequest.cs:83-84 | the `User-Agent` header holds the value and nothing else changes |
| MoogieEarly.AcceptingResponseContentType | MoogieHttpRequest.cs:95-104 | `Accept` is appended to with a comma unless replace is set |
| MoogieEarly.AcceptAgreesWithLater | MoogieHttpRequest.cs:95-104 | the draft's `Accept` call leaves the state the later one leaves |
| MoogieEarly.AcceptingJsonResponseContentType | MoogieHttpRequest.cs:114 | `Accept` gets "application/json", appended unless replace is set; nothing else changes |
| MoogieEarly.AcceptingXmlResponseContentType | MoogieHttpRequest.cs:125 | `Accept` gets "application/xml", appended unless replace is set; nothing else changes |
| MoogieEarly.AcceptingPlainResponseContentType | MoogieHttpRequest.cs:136 | `Accept` gets "text/plain", appended unless replace is set; nothing else changes |
| MoogieEarly.AcceptingHtmlResponseContentType | MoogieHttpRequest.cs:147 | `Accept` gets "text/html", appended unless replace is set; nothing else changes |
| MoogieEarly.WithQueryParameter | MoogieHttpRequest.cs:164-174 | every pair is appended, blank values included, and nothing else changes |
| MoogieEarly.BlankQueryValueKept | MoogieHttpRequest.cs:164-174 | a blank value is kept here but dropped by the later generation |
| MoogieEarly.QueryAgreesWithLater | MoogieHttpRequest.cs:164-174 | any other value is appended alike by both generations |
| MoogieEarly.AsAGet | MoogieHttpRequest.cs:193-194 | only the method changes, to GET |
| MoogieEarly.QueryUri | MoogieHttpRequest.cs:205-211 | fails exactly when the base does not parse, and otherwise changes at most the query |
| MoogieEarly.QueryUriIsBuildUri | MoogieHttpRequest.cs:205-211 | it is `BuildUri` of the later generation on a request with no segments |
| MoogieEarly.MakeRequest | MoogieHttpRequest.cs:202-222 | sends at most once, never disposes the request message, and fails before anything happens on a malformed URI |
| MoogieEarly.MethodIgnored | MoogieHttpRequest.cs:214 | the configured method never matters: the transport always sees GET |
| MoogieEarly.UnsetClientNeverSends | MoogieHttpRequest.cs:221 | without a client nothing is sent, and a request that is otherwise fine fails as a null dereference |
| MoogieEarly.GetAgreesWithLater | MoogieHttpRequest.cs:202-222 | a GET with a client does what the later generation's `MakeRequest` does |
| MoogieEarly.EnsureSuccessStatusCode | MoogieHttpRequest.cs:230-234 | throws on a status outside 2xx, never reads the body, and never disposes the response |
| MoogieEarly.EnsureSuccessMissesRelease | MoogieHttpRequest.cs:230-234 | its result is the gated reader's, and only the disposal of the response is missing |
| MoogieLib.New | lib/Moogie.Http/MoogieHttpRequest.cs:47 | the URI is parsed at once, so a malformed one fails here; every other field has its default and redirects are off |
| MoogieLib.NewWithClient | lib/Moogie.Http/MoogieHttpRequest.cs:55 | the same, then the client |
| MoogieLib.EagerParse | lib/Moogie.Http/MoogieHttpRequest.cs:47 | a URI that does not parse is refused at construction here, but only when the URI is built in the later generation |
| MoogieLib.WithUserAgent | lib/Moogie.Http/MoogieHttpRequest.cs:69-74 | the dedicated field holds the value; the headers are untouched |
| MoogieLib.ShouldAllowAutoRedirect | lib/Moogie.Http/MoogieHttpRequest.cs:83-88 | only the flag changes, to the value given |
| MoogieLib.ShouldAllowAutoRedirectByDefault | lib/Moogie.Http/MoogieHttpRequest.cs:83-88 | with no argument the flag becomes true, and nothing else changes |
| MoogieLib.AutoRedirectLifecycle | lib/Moogie.Http.Tests/Unit/GeneralExtensionsTests/ShouldAllowAutoRedirectTests.cs:8-26 | redirects start disallowed, and are allowed after `ShouldAllowAutoRedirect(true)`, as the test checks, and after the call without argument |
| MoogieLib.WithHeader | lib/Moogie.Http/MoogieHttpRequest.cs:103-113 | only a `null` name fails; otherwise the header holds the value and nothing else changes |
| MoogieLib.WithHeaderFrame | lib/Moogie.Http/MoogieHttpRequest.cs:103-113 | setting one header leaves every other header as it was |
| MoogieLib.WithContentType | lib/Moogie.Http/MoogieHttpRequest.cs:121-122 | `Content-Type` holds the value, and nothing but the headers changes |
| MoogieLib.WithPlainContentType | lib/Moogie.Http/MoogieHttpRequest.cs:129-130 | `Content-Type` is "text/plain", and nothing but the headers changes |
| MoogieLib.WithJsonContentType | lib/Moogie.Http/MoogieHttpRequest.cs:137-138 | `Content-Type` is "application/json", and nothing but the headers changes |
| MoogieLib.WithXmlContentType | lib/Moogie.Http/MoogieHttpRequest.cs:145-146 | `Content-Type` is "application/xml", and nothing but the headers changes |
| MoogieLib.LastContentTypeWins | lib/Moogie.Http/MoogieHttpRequest.cs:121-122 | the last content type wins, and the second call adds no entry |
| MoogieLib.WithQueryParameter | lib/Moogie.Http/MoogieHttpRequest.cs:162-172 | only a `null` name fails; otherwise the name maps to the value, overwriting, and nothing else changes |
| MoogieLib.RepeatedQueryNameOverwrites | lib/Moogie.Http/MoogieHttpRequest.cs:162-172 | a repeated name keeps one entry with the second value, where the later generation keeps both pairs |
| Combiner.PrecedesTotal | src/Baseline.FluentHttpExtensions.FileCombiner/Program.cs:10-11 | any two paths are comparable under key-then-ordinal order |
| Combiner.PrecedesTransitive | src/Baseline.FluentHttpExtensions.FileCombiner/Program.cs:10-11 | the order is transitive |
| Combiner.SortBy | src/Baseline.FluentHttpExtensions.FileCombiner/Program.cs:10-11 | sorting permutes its input |
| Combiner.SortBySorted | src/Baseline.FluentHttpExtensions.FileCombiner/Program.cs:10-11 | sorting yields a sorted list |
| Combiner.Sources | src/Baseline.FluentHttpExtensions.FileCombiner/Program.cs:9 | a path is kept exactly when it ends in ".cs", compared code unit by code unit |
| Combiner.FilesToCombine | src/Baseline.FluentHttpExtensions.FileCombiner/Program.cs:8-12 | the files to combine are all the ".cs" paths and only those, each as often as listed, sorted by key and then ordinally |
| Combiner.RequestFilesFirst | src/Baseline.FluentHttpExtensions.FileCombiner/Program.cs:10 | a path containing "HttpRequest.cs" is preceded only by such paths |
| Combiner.KeptLines | src/Baseline.FluentHttpExtensions.FileCombiner/Program.cs:18-35 | a line reaches the body exactly when it neither begins with "using", compared code unit by code unit, nor is blank |
| Combiner.KeptLinesAppend | src/Baseline.FluentHttpExtensions.FileCombiner/Program.cs:18-35 | filtering a concatenation filters each part, so nothing is reordered |
| Combiner.Collect | src/Baseline.FluentHttpExtensions.FileCombiner/Program.cs:20-27 | the `using` list only grows at its end, holds exactly the earlier entries and the `using` lines read, and never holds a line twice |
| Combiner.CollectAppend | src/Baseline.FluentHttpExtensions.FileCombiner/Program.cs:14-37 | collecting across files is collecting file after file |
| Combiner.StripFile | src/Baseline.FluentHttpExtensions.FileCombiner/Program.cs:16-36 | the loop over one file's lines produces its kept lines and extends the `using` list as `Collect` does |
| Combiner.StripFiles | src/Baseline.FluentHttpExtensions.FileCombiner/Program.cs:14-37 | the loop over the files gives one body per file and a duplicate-free `using` list collected in reading order |
| Combiner.UnlinesAppend | src/Baseline.FluentHttpExtensions.FileCombiner/Program.cs:39-58 | appending lines to a builder distributes over concatenation |
| Combiner.RenderLayout | src/Baseline.FluentHttpExtensions.FileCombiner/Program.cs:39-58 | the text written is the banner, a blank line, the sorted `using` lines, a blank line, then each body followed by a blank line, each line ended by a line feed |
| Combiner.Combine | src/Baseline.FluentHttpExtensions.FileCombiner/Program.cs:6-60 | the program's output is the layout of the chosen files' sorted `using` block and bodies |
| Combiner.UsingBlock | src/Baseline.FluentHttpExtensions.FileCombiner/Program.cs:48-51 | the `using` block is sorted and holds each `using` line of the files exactly once |
| Combiner.NoDuplicatesMultiset | src/Baseline.FluentHttpExtensions.FileCombiner/Program.cs:22-25 | a list has no duplicates exactly when its multiset holds nothing twice |

## Left out

- `null` header values, a `null` form-body key, a `null` request URI, `null` query values in the draft, and `null` query names in both the draft and `src/`. .NET accepts or rejects these deep inside collaborators that are not part of this model, so strings passed to them are never `null` here.
- MoogieEarly.WithRequestHeader, MoogieLib.WithHeader, MoogieLib.WithQueryParameter: in C# a `null` key throws after the dictionary has already been created on the request, and the model's `Failure` carries no request state, so that leftover empty dictionary is not modelled.
- Lone UTF-16 surrogates: the UTF-8 encoder here works on scalar values, so the replacement of unpaired surrogates by U+FFFD is not modelled.
- The charset decoder, the JSON and XML serialisers and `FormUrlEncodedContent` are abstract platform functions. Only their results and failures are used.
- The exact grammar `UriBuilder` accepts, and the normalisation `new Uri` applies to the base URI text, are inside the abstract parser. The same parser stands for `new Uri` and `UriBuilder`.
- Builder.BuildUriAsString: `Uri.ToString()` is the abstract platform function `uriToString`. Its unescaping is not modelled: a query value "café", serialised as "caf%c3%a9", shows as "café" again in .NET, and `%20` in a path shows as a space. The only fact stated about it is that a URI whose escaped text holds no "%" is shown as written (`Runtime.ShowsAsWritten`). `Builder.BuildUriAsStringPlain` assumes that fact, and the two test examples assume it at their own URI.
- Builder.BuildUri: the path it states is the raw base path followed by the joined segments. The `UriBuilder.Path` setter at `BuilderExtensions.cs:36` escapes that text ("a b" becomes "a%20b", "?" becomes "%3F", "\\" becomes "/"), and the final `Uri` removes "." and ".." segments. Neither step is modelled, so the promise holds for segments made of unreserved characters and without dot segments.
- Urls.WithQueryParameter: the source accepts and stores a `null` parameter name, since it checks only the value. Names are non-null strings here, so that case is not modelled.
- Bodies.WithJsonBody: the C# producer captures the object reference and serialises it when the request is performed, so changes made to the object after the call are sent. The model keeps the value as it was at the call.
- Bodies.WithFormUrlEncodedBody: the C# producer captures the array of pairs, so later changes to that array are sent. The model keeps the pairs as they were at the call.
- Which media types `StringContent` accepts is the abstract platform predicate `acceptsMediaType`. Only its verdict is used.
- Cancellation timing, stream position rewinding, thread safety of the static client slots, and the transport's internals. `SendAsync` is an abstract function of client, message and token.
- `HttpResponseMessageExtensions` (the stream copy, charset lookup and deserialisation helpers) is folded into `Sending.ReadPayload` rather than modelled line by line.
- Urls.WithPathSegmentNumber: a negative number is written with the ASCII "-". `ToString()` uses the current culture's negative sign, and a culture whose sign differs (U+2212, say) is not modelled.
- Urls.WithQueryParameterNumber: the same ASCII "-" is used for a negative value, for the same reason.
- StringEntry.StringAsRequest: the string entry points, and the `StringEntry.StringAsA*Request` functions built on it, resolve the client as the combined file `BaselineFluentHttpExtensions.cs` does, through `Requests.NewHttpRequest`. A build from `src/` would resolve it through `HttpRequest.cs:31-41`, which is `Requests.NewHttpRequestIgnoringGlobal` (see Findings).
- The numeric overloads of `WithPathSegment` and `WithQueryParameter` (16-, 32- and 64-bit, signed and unsigned) are collapsed into one `int` overload. Every value of those types is an `int` here, and its decimal text is the same.
- The `HttpRequest.cs` under `src/` names its body-producer property `GetBodyContent`, while the extension files use `GetBodyContentAsync`. The model has one body field.
- The combined file `BaselineFluentHttpExtensions.cs` has no `WithFormUrlEncodedBody`. The model's request is the same for both, and `Bodies.WithFormUrlEncodedBody` belongs to the `src/` build only.
- The file combiner's directory enumeration and file reading and writing are parameters: the listing is a list of paths and reading is a function. `Environment.NewLine` is written as a line feed.
- Combiner ordering: `OrderBy`/`ThenBy` on strings use the current culture's comparer in .NET. The model orders ordinally.
- Combiner.Sources: `EndsWith(".cs")` at `Program.cs:9` compares with the current culture, which ignores code points such as U+00AD or U+0000, so a path ending in ".c\u00ADs" would be kept by .NET. The model compares ordinally.
- Combiner.KeptLines: `StartsWith("using")` at `Program.cs:20` compares with the current culture in the same way. The model compares ordinally, so a line that begins with an ignorable code point before "using" is a body line here.
- Combiner.Collect: the order in which `using` lines are first seen is kept, but no property depends on it, because the output sorts them.
- The string entry points of the root `HttpRequest.cs` are one generic `MoogieHttp.StringAsRequest` taking the method, rather than eight functions.
- `lib/Moogie.Http` has no send path and no method setters, so nothing is modelled for them.

## Findings

| source | as written | input that shows it | evidently intended | confidence | as-written member | corrected member |
|---|---|---|---|---|---|---|
| src/Baseline.FluentHttpExtensions/HttpRequest.cs:31-41 | the constructor uses the explicit client, else the shared default, and never reads the global client | `SetGlobalHttpClient(c)`, then `new HttpRequest(uri)`: the request gets the shared default, not `c` | the explicit client, else the global client, else the shared default, as the client manager documents and as the combined file `BaselineFluentHttpExtensions.cs:42-56` does | not executed | Requests.NewHttpRequestIgnoringGlobal (shown by Requests.IgnoringGlobalMissesGlobalClient) | Requests.NewHttpRequest (proved by Requests.RunCallsClients) |

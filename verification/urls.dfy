/** `UrlExtensions`: path segments and query-string parameters. */
module Urls {
  import opened Core
  import opened Text
  import opened Runtime
  import opened Requests

  /** `WithPathSegment(string)`: refuses a null or blank segment before touching
      the request; otherwise appends it to the segment list, creating the list
      on first use. Nothing else changes. */
  function WithPathSegment(r: HttpRequest, pathSegment: Option<string>): (res: Result<HttpRequest>)
    ensures res.Failure? <==> IsNullOrWhiteSpace(pathSegment)
    ensures res.Failure? ==> res.error == ArgumentNull("pathSegment")
    ensures res.Success? ==>
              && res.value.pathSegments == Some(Segments(r) + [pathSegment.value])
              && res.value.(pathSegments := r.pathSegments) == r
  {
    if IsNullOrWhiteSpace(pathSegment) then Failure(ArgumentNull("pathSegment"))
    else Success(r.(pathSegments := Some(Segments(r) + [pathSegment.value])))
  }

  /** The `short`, `ushort`, `int`, `uint`, `long` and `ulong` overloads: the
      decimal text of the number, which is never blank, so they never fail. */
  function WithPathSegmentNumber(r: HttpRequest, pathSegment: int): (res: HttpRequest)
    ensures res.(pathSegments := r.pathSegments) == r
    ensures res.pathSegments == Some(Segments(r) + [IntToString(pathSegment)])
  {
    WithPathSegment(r, Some(IntToString(pathSegment))).value
  }

  /** The `Guid` overload: the 36-character "D" form of the GUID. */
  function WithPathSegmentGuid(r: HttpRequest, pathSegment: Guid): (res: HttpRequest)
    ensures res.(pathSegments := r.pathSegments) == r
    ensures res.pathSegments == Some(Segments(r) + [GuidToString(pathSegment)])
  {
    WithPathSegment(r, Some(GuidToString(pathSegment))).value
  }

  /** Different numbers give different segments. */
  lemma PathSegmentNumberInjective(r: HttpRequest, a: int, b: int)
    requires WithPathSegmentNumber(r, a) == WithPathSegmentNumber(r, b)
    ensures a == b
  {
    assert IntToString(a) == Segments(WithPathSegmentNumber(r, a))[|Segments(r)|];
    IntToStringRoundTrip(a);
    IntToStringRoundTrip(b);
  }

  /** `WithQueryParameter(name, value)`: creates the query list on first use
      even when nothing is added; appends the pair unless the value is null or
      blank. The name is not checked, and a repeated name is appended again. */
  function WithQueryParameter(r: HttpRequest, parameterName: string, value: Option<string>): (res: HttpRequest)
    ensures res.queryParameters.Some?
    ensures !IsNullOrWhiteSpace(value) ==> res.queryParameters.value == QueryPairs(r) + [Pair(parameterName, value.value)]
    ensures IsNullOrWhiteSpace(value) ==> res.queryParameters.value == QueryPairs(r)
    ensures res.(queryParameters := r.queryParameters) == r
  {
    var pairs := QueryPairs(r);
    if IsNullOrWhiteSpace(value) then r.(queryParameters := Some(pairs))
    else r.(queryParameters := Some(pairs + [Pair(parameterName, value.value)]))
  }

  /** The integer overloads of `WithQueryParameter`: always exactly one pair more. */
  function WithQueryParameterNumber(r: HttpRequest, parameterName: string, value: int): (res: HttpRequest)
    ensures res.queryParameters == Some(QueryPairs(r) + [Pair(parameterName, IntToString(value))])
    ensures res.(queryParameters := r.queryParameters) == r
  {
    WithQueryParameter(r, parameterName, Some(IntToString(value)))
  }

  /** The `Guid` overload of `WithQueryParameter`. */
  function WithQueryParameterGuid(r: HttpRequest, parameterName: string, value: Guid): (res: HttpRequest)
    ensures res.queryParameters == Some(QueryPairs(r) + [Pair(parameterName, GuidToString(value))])
    ensures res.(queryParameters := r.queryParameters) == r
  {
    WithQueryParameter(r, parameterName, Some(GuidToString(value)))
  }

  /** Different GUIDs give different segments: the "D" form reads back to the
      GUID. */
  lemma PathSegmentGuidInjective(r: HttpRequest, a: Guid, b: Guid)
    ensures a != b ==> WithPathSegmentGuid(r, a) != WithPathSegmentGuid(r, b)
  {
    if WithPathSegmentGuid(r, a) == WithPathSegmentGuid(r, b) {
      assert GuidToString(a) == Segments(WithPathSegmentGuid(r, a))[|Segments(r)|];
      GuidToStringInjective(a, b);
    }
  }

  /** Different GUIDs give different query values. */
  lemma QueryParameterGuidInjective(r: HttpRequest, name: string, a: Guid, b: Guid)
    ensures a != b ==> WithQueryParameterGuid(r, name, a) != WithQueryParameterGuid(r, name, b)
  {
    if WithQueryParameterGuid(r, name, a) == WithQueryParameterGuid(r, name, b) {
      assert Pair(name, GuidToString(a)) == QueryPairs(WithQueryParameterGuid(r, name, a))[|QueryPairs(r)|];
      GuidToStringInjective(a, b);
    }
  }

  /** The same name twice keeps both pairs, in call order. */
  lemma QueryParameterRepeats(r: HttpRequest, name: string, first: string, second: string)
    requires !IsBlank(first) && !IsBlank(second)
    ensures QueryPairs(WithQueryParameter(WithQueryParameter(r, name, Some(first)), name, Some(second)))
         == QueryPairs(r) + [Pair(name, first), Pair(name, second)]
  {
  }

  /** A blank value adds nothing, but the list exists afterwards. */
  lemma BlankQueryValueMaterialises(r: HttpRequest, name: string, value: Option<string>)
    requires IsNullOrWhiteSpace(value) && r.queryParameters.None?
    ensures WithQueryParameter(r, name, value).queryParameters == Some([])
  {
  }
}

/** Vocabulary shared by every module of the model: optional values (the C# `null`
    kept distinct from an empty value), results of calls that may throw, the
    exceptions the library raises or lets through, and bytes. */
module Core {

  /** A value that may be absent; `None` stands for a C# `null` reference. */
  datatype Option<+T> = None | Some(value: T) {
    function GetOr(default: T): T {
      match this
      case Some(v) => v
      case None => default
    }
  }

  /** The exceptions that the modelled code throws, or lets through from the
      .NET collaborators it calls. */
  datatype Error =
    | ArgumentNull(paramName: string)  // ArgumentNullException(nameof(...))
    | NullReference                    // a member access on a null reference
    | UriFormat                        // UriFormatException from parsing the base URI
    | InvalidHeader(name: string)      // a header the transport-level collection refuses
    | MediaTypeFormat(mediaType: string) // FormatException from a media type StringContent cannot parse
    | HttpRequestFailed(statusCode: int) // HttpRequestException from EnsureSuccessStatusCode
    | Serialization                    // JSON or XML (de)serialisation failure
    | Cancelled                        // the cancellation token fired
    | TransportFailure                 // DNS, connection or timeout failure of the transport

  /** The outcome of a call that either returns a value or throws. */
  datatype Result<+T> = Success(value: T) | Failure(error: Error) {
    predicate IsFailure() {
      Failure?
    }

    function PropagateFailure<U>(): Result<U>
      requires Failure?
    {
      Failure(error)
    }

    function Extract(): T
      requires Success?
    {
      value
    }
  }

  /** An octet, as carried by `byte[]` and streams in the source. */
  type byte = x: int | 0 <= x < 256
}

/**
 * The values that flow through one stage of the request pipeline: the
 * request the caller hands in, the HTTP response a downstream stage
 * produces, and the errors a stage can surface.
 */
module Messages {

  datatype Option<+T> = None | Some(value: T)

  datatype Result<+R, +E> = Success(value: R) | Failure(error: E)

  /**
   * The HTTP method of a request: one of the well-known methods, or any other
   * method token. Method tokens compare without regard to ASCII case, so a
   * token spelled "get" in any case is the GET method.
   */
  datatype Method = Get | Head | Post | Put | Patch | Delete | Options | Trace | Other(token: string) {

    /** The method is GET, the only cacheable one. */
    predicate IsGet() {
      Get? || (Other? && EqualsIgnoringCase(token, "GET"))
    }
  }

  /** The upper-case form of an ASCII letter; every other character is its own. */
  function UpperAscii(c: char): (u: char)
    ensures 'a' <= c <= 'z' ==> 'A' <= u <= 'Z'
    ensures !('a' <= c <= 'z') ==> u == c
  {
    if 'a' <= c <= 'z' then (c as int - 32) as char else c
  }

  /** Two strings are equal once ASCII letters are compared without regard to case. */
  predicate EqualsIgnoringCase(a: string, b: string) {
    |a| == |b| && forall i :: 0 <= i < |a| ==> UpperAscii(a[i]) == UpperAscii(b[i])
  }

  /**
   * A request travelling down the pipeline: its HTTP method, its request URI
   * (absent when the caller never set one), already in its string form, and the
   * logical name that selects the caching configuration.
   */
  datatype Request = Request(httpMethod: Method, uri: Option<string>, name: string)

  /** A downstream HTTP response: a numeric status code and an opaque body. */
  datatype Response = Response(status: int, body: seq<int>) {

    /** A response is a success when its status code is in the 2xx range. */
    predicate IsSuccessStatusCode() {
      200 <= status <= 299
    }
  }

  /**
   * What a stage can surface instead of a response: a request it refuses to
   * handle, a fault raised by a later stage (including cancellation), or an
   * argument the memory cache rejects.
   */
  datatype Error =
    | InvalidRequest(message: string)
    | DownstreamFault(message: string)
    | ArgumentOutOfRange(paramName: string, message: string)

  /** The message of the error raised for a request without a URI. */
  const UriRequiredMessage: string := "Request uri is not allowed to be empty"
}

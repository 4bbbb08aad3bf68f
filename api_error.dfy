/**
 * `ApiError`: the error thrown for a response whose status is not a success. It
 * keeps the response, its status and status text, and a message built from them;
 * being a datatype value, none of its fields can change after construction.
 */
module RestError {
  import opened Text
  import opened SwapiModel

  datatype ApiError = ApiError(response: Response, status: int, statusText: string, message: string) {

    /** The derived `isNotFound` getter. */
    predicate IsNotFound() {
      status == 404
    }
  }

  const MessagePrefix: string := "API Error with status "

  /** `new ApiError(response)`. */
  function NewApiError(response: Response): (e: ApiError)
    ensures e.response == response
    ensures e.status == response.status && e.statusText == response.statusText
    ensures e.IsNotFound() <==> response.status == 404
    ensures e.message == MessagePrefix + IntToString(response.status) + ": " + response.statusText
  {
    ApiError(response, response.status, response.statusText,
             MessagePrefix + IntToString(response.status) + ": " + response.statusText)
  }

  /** What a page fetch can throw: an `ApiError`, or any other `Error` (network, body). */
  datatype Failure = ApiFailure(error: ApiError) | OtherFailure(message: string)

  /** The failure the loader takes as the end of the stream: an `ApiError` that is a 404. */
  predicate IsEndOfStream(f: Failure) {
    f.ApiFailure? && f.error.IsNotFound()
  }

  lemma {:induction false} IntToStringInjective(a: int, b: int)
    requires IntToString(a) == IntToString(b)
    ensures a == b
  {
    if a < 0 {
      assert IntToString(a)[1..] == NatToString(-a);
      NatToStringInjective(-a, -b);
    } else {
      NatToStringInjective(a, b);
    }
  }

  /**
   * The message determines the status: two errors for responses with the same
   * status text and the same message have the same status.
   */
  lemma MessageDeterminesStatus(r1: Response, r2: Response)
    requires r1.statusText == r2.statusText
    requires NewApiError(r1).message == NewApiError(r2).message
    ensures r1.status == r2.status
  {
    var t1, t2 := IntToString(r1.status), IntToString(r2.status);
    var m := NewApiError(r1).message;
    var n := |MessagePrefix|;
    assert m == MessagePrefix + t1 + ": " + r1.statusText;
    assert m == MessagePrefix + t2 + ": " + r1.statusText;
    assert |t1| == |t2|;
    assert m[n..n + |t1|] == t1;
    assert m[n..n + |t2|] == t2;
    IntToStringInjective(r1.status, r2.status);
  }
}

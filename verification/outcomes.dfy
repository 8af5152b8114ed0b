/**
 Optional values and the outcome of an HTTP request made through the shared
 axios client. The network is not modelled: every request site takes an
 `Outcome` parameter that says how the request ended.
 */
module Outcomes {

  /** `null`/`undefined` versus a present value. */
  datatype Option<+T> = None | Some(value: T)

  /** What a `catch (error)` block can read: `error.response?.data?.message`
      (absent when the server sent none) and `error.message`. */
  datatype RequestError = RequestError(serverMessage: Option<string>, message: Option<string>)

  /** How one awaited request ended: resolved with a payload, or rejected. */
  datatype Outcome<+T> = Success(value: T) | Failure(error: RequestError)

  /** A string operand of `||`: present and non-empty. */
  predicate Truthy(o: Option<string>) {
    o.Some? && o.value != ""
  }

  /** `c[0] || c[1] || ... || fallback` over optional strings. */
  function FirstTruthy(c: seq<Option<string>>, fallback: string): (r: string)
    ensures (forall i :: 0 <= i < |c| ==> !Truthy(c[i])) ==> r == fallback
    ensures forall i :: 0 <= i < |c| && Truthy(c[i]) && (forall j :: 0 <= j < i ==> !Truthy(c[j]))
                        ==> r == c[i].value
  {
    if |c| == 0 then fallback
    else if Truthy(c[0]) then c[0].value
    else FirstTruthy(c[1..], fallback)
  }
}

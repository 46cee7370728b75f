/**
 * The check each response handler makes before reading the body
 * (script.js:50-58 for the profile, script.js:75-83 for the repositories).
 */
module Responses {

  /**
   * The `X-RateLimit-Remaining` header after `parseInt`: missing (`null`),
   * present but not a number (`NaN`, which is never `< 1`), or a number.
   */
  datatype RateHeader = Absent | Unparsable | Remaining(count: int)

  /** The two requests a search starts. */
  datatype Request = ProfileRequest | ReposRequest

  /** The two error kinds: the rate-limit error and the per-request fetch error. */
  datatype FetchError = RateLimitExceeded | FetchFailed(request: Request)

  /** Either the body is read, or the handler throws the error. */
  datatype Verdict = Proceed | Failed(error: FetchError)

  predicate RateLimited(header: RateHeader) {
    header.Remaining? && header.count < 1
  }

  /**
   * The rate-limit check comes first, so an exhausted quota wins over a
   * not-OK status; the fetch error names the request it came from.
   */
  function Classify(request: Request, header: RateHeader, ok: bool): (v: Verdict)
    ensures v == Failed(RateLimitExceeded) <==> RateLimited(header)
    ensures v == Failed(FetchFailed(request)) <==> !RateLimited(header) && !ok
    ensures v == Proceed <==> !RateLimited(header) && ok
  {
    if RateLimited(header) then Failed(RateLimitExceeded)
    else if !ok then Failed(FetchFailed(request))
    else Proceed
  }
}

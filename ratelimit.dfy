/** Per-user admission control in front of grading, my-app/src/lib/ratelimit.ts.
    The sliding-window counter itself belongs to the rate-limit backend; here
    its answer to one `limit(userId)` call is a parameter. */
module RateLimit {
  import opened Outcomes
  import opened Text

  /** The configured policy: 5 requests per sliding window of one hour. */
  const MaxRequests: nat := 5
  const WindowMs: nat := 60 * 60 * 1000

  /** What a disabled limiter reports as the remaining quota. */
  const FailOpenRemaining: int := 999

  datatype Policy = SlidingWindow(tokens: nat, windowMs: nat)

  /** `gradeRatelimit`: `null` (disabled) or a limiter over a backend client. */
  datatype Limiter = Disabled | Enabled(url: string, token: string, policy: Policy)

  /** What the backend answers for one `limit(userId)` call. */
  datatype LimitResponse = LimitResponse(success: bool, limit: int, remaining: int, reset: int)

  /** `RateLimitResult`. */
  datatype RateLimitResult = RateLimitResult(success: bool, remaining: int, reset: int)

  /** The credentials are usable: both present and non-empty, and the URL
      is an `https://` URL. */
  predicate Configured(url: Option<string>, token: Option<string>) {
    url.Some? && url.value != "" && token.Some? && token.value != ""
    && StartsWith(url.value, "https://")
  }

  /** `createRatelimit`, run once when the module is loaded. The environment
      values are parameters; `constructorThrows` says whether building the
      backend client threw. */
  function CreateRatelimit(url: Option<string>, token: Option<string>, constructorThrows: bool): (l: Limiter)
    ensures l.Enabled? <==> Configured(url, token) && !constructorThrows
    ensures l.Enabled? ==> l.url == url.value && l.token == token.value
    ensures l.Enabled? ==> l.policy == SlidingWindow(MaxRequests, WindowMs)
  {
    if url.None? || url.value == "" || token.None? || token.value == ""
       || !StartsWith(url.value, "https://") then Disabled
    else if constructorThrows then Disabled
    else Enabled(url.value, token.value, SlidingWindow(5, 3600000))
  }

  /** A URL that is not an `https://` URL never enables the limiter, whatever
      the token. */
  lemma PlainHttpDisables(url: string, token: Option<string>, constructorThrows: bool)
    requires !StartsWith(url, "https://")
    ensures CreateRatelimit(Some(url), token, constructorThrows) == Disabled
  {
  }

  /** `checkRateLimit(userId)`. `now` is `Date.now()`; `limit` is the
      backend's answer per user id at the moment of the call. */
  function CheckRateLimit(limiter: Limiter, userId: string, now: int,
                          limit: string -> Completion<LimitResponse>): (r: Completion<RateLimitResult>)
    ensures limiter.Disabled? ==> r == Normal(RateLimitResult(true, FailOpenRemaining, now))
    ensures limiter.Enabled? ==> (r.Throw? <==> limit(userId).Throw?)
    ensures limiter.Enabled? && r.Normal? ==>
      r.value.success == limit(userId).value.success
      && r.value.remaining == limit(userId).value.remaining
      && r.value.reset == limit(userId).value.reset
  {
    if limiter.Disabled? then Normal(RateLimitResult(true, 999, now))
    else
      match limit(userId)
      case Throw => Throw
      case Normal(result) => Normal(RateLimitResult(result.success, result.remaining, result.reset))
  }

  /** Failing open: a disabled limiter admits every call, for every user and
      whatever the backend would have said. */
  lemma {:induction false} FailOpenForEveryCall(userIds: seq<string>, nows: seq<int>,
                                                limits: seq<string -> Completion<LimitResponse>>)
    requires |userIds| == |nows| == |limits|
    ensures forall i :: 0 <= i < |userIds| ==>
      CheckRateLimit(Disabled, userIds[i], nows[i], limits[i]).Normal?
      && CheckRateLimit(Disabled, userIds[i], nows[i], limits[i]).value.success
  {
  }

  /** An enabled limiter's answer depends only on the backend's answer for
      that one user id. */
  lemma EnabledCopiesBackend(limiter: Limiter, userId: string, now: int, now': int,
                             limit: string -> Completion<LimitResponse>,
                             limit': string -> Completion<LimitResponse>)
    requires limiter.Enabled? && limit(userId) == limit'(userId)
    ensures CheckRateLimit(limiter, userId, now, limit) == CheckRateLimit(limiter, userId, now', limit')
  {
  }
}

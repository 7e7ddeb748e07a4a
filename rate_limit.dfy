/**
 * The per-IP rate limiter middleware (backend/index.js:12-38). A map from IP to
 * a window `{count, resetTime}` is consulted and updated on every request; the
 * clock reading `now` (milliseconds) is a parameter.
 */
module RateLimit {
  import opened Common

  /** The limit the application installs: 30 requests per minute. */
  const APP_MAX_REQUESTS: int := 30
  const APP_WINDOW_MS: int := 60000

  /** One IP's entry: requests counted in the current window and the time the window ends. */
  datatype Window = Window(count: int, resetTime: int)

  /** Whether the request passes (`next()`) or gets 429, and the IP's entry afterwards. */
  datatype Decision = Decision(allowed: bool, next: Window)

  /** What the middleware does with a request from an IP whose entry is `w` at time `now`. */
  function Admit(w: Option<Window>, now: int, maxRequests: int, windowMs: int): (d: Decision)
    // A request passes unless the IP's current, unexpired window is full.
    ensures d.allowed <==> (w.None? || now > w.value.resetTime || w.value.count < maxRequests)
    // A new or expired window restarts at one request, ending windowMs from now.
    ensures (w.None? || now > w.value.resetTime) ==> d.next == Window(1, now + windowMs)
    // Inside a live window a passed request is counted and a refused one changes nothing.
    ensures w.Some? && now <= w.value.resetTime ==>
      d.next == (if d.allowed then w.value.(count := w.value.count + 1) else w.value)
  {
    if w.None? then
      Decision(true, Window(1, now + windowMs))
    else if now > w.value.resetTime then
      Decision(true, Window(1, now + windowMs))
    else if w.value.count >= maxRequests then
      Decision(false, w.value)
    else
      Decision(true, w.value.(count := w.value.count + 1))
  }

  /** An entry the limiter can hold: at least one request, and no more than the limit unless it is the first. */
  predicate Bounded(w: Window, maxRequests: int)
  {
    1 <= w.count && (w.count <= maxRequests || w.count == 1)
  }

  /** Every decision keeps the entry bounded; with a limit of at least one the count never exceeds it. */
  lemma AdmitKeepsBound(w: Option<Window>, now: int, maxRequests: int, windowMs: int)
    requires w.Some? ==> Bounded(w.value, maxRequests)
    ensures Bounded(Admit(w, now, maxRequests, windowMs).next, maxRequests)
    ensures maxRequests >= 1 ==> Admit(w, now, maxRequests, windowMs).next.count <= maxRequests
  {
  }

  /** How many of the requests at `times`, made in order by one IP, pass. */
  function AllowedCount(w: Option<Window>, times: seq<int>, maxRequests: int, windowMs: int): nat
    decreases |times|
  {
    if times == [] then 0
    else
      var d := Admit(w, times[0], maxRequests, windowMs);
      (if d.allowed then 1 else 0) + AllowedCount(Some(d.next), times[1..], maxRequests, windowMs)
  }

  /** While a window is live, it admits only what is left of its allowance. */
  lemma {:induction false} LiveWindowAllowance(w: Window, times: seq<int>, maxRequests: int, windowMs: int)
    requires Bounded(w, maxRequests)
    requires forall k :: 0 <= k < |times| ==> times[k] <= w.resetTime
    ensures w.count + AllowedCount(Some(w), times, maxRequests, windowMs) <= Max(maxRequests, w.count)
    decreases |times|
  {
    if times != [] {
      var d := Admit(Some(w), times[0], maxRequests, windowMs);
      assert d.next.resetTime == w.resetTime;
      LiveWindowAllowance(d.next, times[1..], maxRequests, windowMs);
    }
  }

  /**
   * The promise of the middleware: an IP with no entry gets at most `maxRequests`
   * requests through (at least the first) while its clock stays within
   * `windowMs` of the first request.
   */
  lemma AtMostMaxPerWindow(times: seq<int>, maxRequests: int, windowMs: int)
    requires times != []
    requires forall k :: 0 <= k < |times| ==> times[k] <= times[0] + windowMs
    ensures 1 <= AllowedCount(None, times, maxRequests, windowMs) <= Max(maxRequests, 1)
  {
    var first := Window(1, times[0] + windowMs);
    LiveWindowAllowance(first, times[1..], maxRequests, windowMs);
  }

  /** The installed limiter lets at most 30 requests from a fresh IP through within a minute of its first. */
  lemma AppLimiterAllowsThirtyPerMinute(times: seq<int>)
    requires times != []
    requires forall k :: 0 <= k < |times| ==> times[k] <= times[0] + APP_WINDOW_MS
    ensures AllowedCount(None, times, APP_MAX_REQUESTS, APP_WINDOW_MS) <= 30
  {
    AtMostMaxPerWindow(times, APP_MAX_REQUESTS, APP_WINDOW_MS);
  }

  /** The middleware's state: the process-wide `rateLimitMap` and the limiter's two parameters. */
  class RateLimiter {
    const maxRequests: int
    const windowMs: int
    var windows: map<string, Window>

    ghost predicate Valid()
      reads this
    {
      forall ip :: ip in windows ==> Bounded(windows[ip], maxRequests)
    }

    /** `rateLimit(maxRequests, windowMs)` over an empty map. */
    constructor (maxRequests: int, windowMs: int)
      ensures Valid()
      ensures this.maxRequests == maxRequests && this.windowMs == windowMs
      ensures windows == map[]
    {
      this.maxRequests := maxRequests;
      this.windowMs := windowMs;
      windows := map[];
    }

    /** Handles one request from `ip` at time `now`; `allowed` is false for the 429 answer. */
    method Request(ip: string, now: int) returns (allowed: bool)
      requires Valid()
      modifies this
      ensures Valid()
      ensures var d := Admit(if ip in old(windows) then Some(old(windows)[ip]) else None, now, maxRequests, windowMs);
        allowed == d.allowed && windows == old(windows)[ip := d.next]
      ensures !allowed ==> windows == old(windows)
      ensures forall other :: other != ip ==> (other in windows <==> other in old(windows))
      ensures forall other :: other != ip && other in windows ==> windows[other] == old(windows)[other]
      ensures maxRequests >= 1 ==> windows[ip].count <= maxRequests
    {
      if ip !in windows {
        windows := windows[ip := Window(1, now + windowMs)];
        return true;
      }
      var entry := windows[ip];
      if now > entry.resetTime {
        windows := windows[ip := Window(1, now + windowMs)];
        return true;
      }
      if entry.count >= maxRequests {
        return false;
      }
      windows := windows[ip := entry.(count := entry.count + 1)];
      allowed := true;
    }
  }
}

/**
 * The edge middleware: a per-client fixed-window counter (100 requests per 15 minutes) kept in a
 * process-wide map, security headers on pass-through responses, and a user-agent block list.
 * The counter repeats the logic of `RateLimiter.isAllowed`; `SameAsRateLimiter` relates the two.
 */
module EdgeMiddleware {
  import opened Wrappers
  import opened JsString
  import Security

  const WindowMs := 15 * 60 * 1000
  const MaxRequests := 100

  /** The request headers the middleware reads; `None` is a header that is not sent. */
  datatype Request = Request(forwardedFor: Option<string>, realIp: Option<string>, userAgent: Option<string>)

  datatype Response = Next(headers: seq<(string, string)>) | TooManyRequests | Forbidden

  const SecurityHeaders: seq<(string, string)> := [
    ("X-DNS-Prefetch-Control", "off"),
    ("X-Download-Options", "noopen"),
    ("X-Permitted-Cross-Domain-Policies", "none")
  ]

  const SuspiciousPatterns: seq<string> := ["bot", "crawler", "spider", "scraper", "curl", "wget"]

  /** `a || b`: a header value that is missing or empty falls through to `b`. */
  function OrElse(h: Option<string>, b: string): (r: string)
    ensures h.Some? && h.value != "" ==> r == h.value
    ensures (h.None? || h.value == "") ==> r == b
  {
    if h.Some? && h.value != "" then h.value else b
  }

  /** `x-forwarded-for || x-real-ip || 'unknown'`. */
  function ClientKey(req: Request): (k: string)
    ensures k != ""
  {
    OrElse(req.forwardedFor, OrElse(req.realIp, "unknown"))
  }

  /**
   * Some pattern of the block list matches the user agent. Without the `u` flag, `/i` folds only
   * ASCII letters onto the all-ASCII patterns, so lowering ASCII letters decides a match.
   */
  predicate IsSuspicious(userAgent: string) {
    exists p | p in SuspiciousPatterns :: Includes(Lower(userAgent), p)
  }

  /** The counter step for one request from `key`: whether it is admitted, and the store afterwards. */
  function Throttle(store: map<string, Security.Window>, key: string, now: int): (r: (bool, map<string, Security.Window>))
    ensures r.1.Keys == store.Keys + {key}
    ensures forall k :: k in store && k != key ==> r.1[k] == store[k]
  {
    if key in store && now < store[key].resetTime then
      if store[key].count >= MaxRequests then (false, store)
      else (true, store[key := store[key].(count := store[key].count + 1)])
    else (true, store[key := Security.Window(1, now + WindowMs)])
  }

  /** The response and the new store for one request at time `now`. */
  function Respond(store: map<string, Security.Window>, req: Request, now: int): (r: (Response, map<string, Security.Window>))
    ensures r.1 == Throttle(store, ClientKey(req), now).1
    ensures r.0 == TooManyRequests <==> !Throttle(store, ClientKey(req), now).0
    ensures r.0 == Forbidden <==>
      Throttle(store, ClientKey(req), now).0 && IsSuspicious(OrElse(req.userAgent, ""))
    ensures r.0.Next? ==> r.0.headers == SecurityHeaders
  {
    var (ok, store') := Throttle(store, ClientKey(req), now);
    if !ok then (TooManyRequests, store')
    else if IsSuspicious(OrElse(req.userAgent, "")) then (Forbidden, store')
    else (Next(SecurityHeaders), store')
  }

  /** The counter is the rate limiter's `isAllowed` with 100 requests per 15 minutes. */
  lemma SameAsRateLimiter(store: map<string, Security.Window>, key: string, now: int)
    ensures Throttle(store, key, now).0 == Security.Allowed(store, key, MaxRequests, now)
    ensures Throttle(store, key, now).1 == Security.AfterRequest(store, key, MaxRequests, WindowMs, now)
  {
  }

  /** An absent or expired record is replaced by a fresh window of 15 minutes holding one request. */
  lemma FreshWindow(store: map<string, Security.Window>, req: Request, now: int)
    requires !Security.Live(store, ClientKey(req), now)
    ensures Respond(store, req, now).1[ClientKey(req)] == Security.Window(1, now + 900000)
    ensures Respond(store, req, now).0 != TooManyRequests
  {
  }

  /**
   * Within a live window the 101st and later requests get 429 and leave the store as it was,
   * even when the user agent would be blocked.
   */
  lemma OverLimit(store: map<string, Security.Window>, req: Request, now: int)
    requires Security.Live(store, ClientKey(req), now) && store[ClientKey(req)].count >= 100
    ensures Respond(store, req, now) == (TooManyRequests, store)
  {
  }

  /** A blocked user agent below the limit is refused with 403 but still uses up one request. */
  lemma BlockedAgentConsumesQuota(store: map<string, Security.Window>, req: Request, now: int)
    requires IsSuspicious(OrElse(req.userAgent, ""))
    requires !Security.Live(store, ClientKey(req), now) || store[ClientKey(req)].count < 100
    ensures Respond(store, req, now).0 == Forbidden
    ensures Respond(store, req, now).1[ClientKey(req)].count ==
      if Security.Live(store, ClientKey(req), now) then store[ClientKey(req)].count + 1 else 1
  {
  }

  /** The block list: a user agent is refused exactly when it contains one of the six words, in any case. */
  lemma {:induction false} SuspiciousIff(userAgent: string)
    ensures IsSuspicious(userAgent) <==>
      exists i, p :: p in SuspiciousPatterns && OccursAt(Lower(userAgent), p, i)
  {
    if IsSuspicious(userAgent) {
      var p :| p in SuspiciousPatterns && Includes(Lower(userAgent), p);
      var i :| OccursAt(Lower(userAgent), p, i);
    }
  }

  /** A missing user agent is checked as the empty string, which no pattern matches. */
  lemma MissingAgentPasses()
    ensures !IsSuspicious(OrElse(None, ""))
  {
    forall p | p in SuspiciousPatterns ensures !Includes(Lower(""), p) {
      assert forall i :: !OccursAt("", p, i);
    }
  }

  /** Matching ignores ASCII case. */
  lemma MixedCaseBlocked()
    ensures IsSuspicious("CURL/8.0")
  {
    var b := Lower("CURL/8.0");
    assert b[0..4] == "curl";
    assert OccursAt(b, "curl", 0);
    assert Includes(b, SuspiciousPatterns[4]);
  }

  /** Under a limit of 100, no stored count exceeds 100 and every count is at least 1. */
  lemma RespondBounded(store: map<string, Security.Window>, req: Request, now: int)
    requires Security.Bounded(store, MaxRequests)
    ensures Security.Bounded(Respond(store, req, now).1, MaxRequests)
  {
    SameAsRateLimiter(store, ClientKey(req), now);
    Security.AfterRequestBounded(store, ClientKey(req), MaxRequests, WindowMs, now);
  }

  /** The module-level `rateLimitStore` and the request handler that updates it. */
  class Middleware {
    var store: map<string, Security.Window>

    constructor ()
      ensures store == map[]
    {
      store := map[];
    }

    /** `middleware(request)`, with `Date.now()` passed in as `now`. */
    method Handle(req: Request, now: int) returns (resp: Response)
      modifies this
      ensures (resp, store) == Respond(old(store), req, now)
      ensures forall k :: k in old(store) && k != ClientKey(req) ==> k in store && store[k] == old(store)[k]
      ensures Security.Bounded(old(store), MaxRequests) ==> Security.Bounded(store, MaxRequests)
    {
      if Security.Bounded(store, MaxRequests) {
        RespondBounded(store, req, now);
      }
      var key := ClientKey(req);
      if key in store && now < store[key].resetTime {
        if store[key].count >= MaxRequests {
          return TooManyRequests;
        }
        store := store[key := store[key].(count := store[key].count + 1)];
      } else {
        store := store[key := Security.Window(1, now + WindowMs)];
      }
      var ua := OrElse(req.userAgent, "");
      if IsSuspicious(ua) {
        return Forbidden;
      }
      return Next(SecurityHeaders);
    }
  }
}

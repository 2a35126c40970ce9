/**
 * The edge middleware (`middleware.ts`): for every request, resolve the
 * client IP, refuse a client the abuse tracker has blocked, record a
 * suspicious request, then charge exactly one rate-limit check under the
 * profile the request selects.
 */
module Admission {
  import opened Wrappers
  import ClientIP
  import opened RateLimiting
  import opened RateLimitResponses
  import opened Monitoring

  /** The request metadata the middleware reads. */
  datatype Request = Request(httpMethod: string, path: string, headers: ClientIP.Headers)

  /** `request.headers.get('user-agent') || ''`. */
  function UserAgent(h: ClientIP.Headers): string {
    ClientIP.Header(h, "user-agent").GetOr("")
  }

  /** `isSuspiciousRequest`, with its two regex lists given as predicates on
    * the user agent and on the path. A request without a user agent is
    * always suspicious; otherwise only the pattern lists decide. */
  function IsSuspiciousRequest(req: Request, uaPatterns: string -> bool, pathPatterns: string -> bool): (b: bool)
    ensures UserAgent(req.headers) == [] ==> b
    ensures UserAgent(req.headers) != [] ==> (b <==> uaPatterns(UserAgent(req.headers)) || pathPatterns(req.path))
  {
    var userAgent := UserAgent(req.headers);
    uaPatterns(userAgent) || pathPatterns(req.path) || userAgent == []
  }

  /** Only `POST /api/submit` is charged to the form profile. */
  function ProfileFor(req: Request): (p: Profile)
    ensures p == Form <==> req.path == "/api/submit" && req.httpMethod == "POST"
  {
    if req.path == "/api/submit" && req.httpMethod == "POST" then Form else General
  }

  const SuspiciousRequest := "suspicious_request"
  const RateLimitExceeded := "rate_limit_exceeded"

  /** What the middleware answers: 403 "Access denied", a 429 rate-limit
    * response, or `NextResponse.next()` (with the security headers). */
  datatype Outcome = AccessDenied | RateLimited(response: RateLimitResponse) | Next

  /** The monitor after the optional suspicious-request record. */
  function AfterScreening(m: Monitor, ip: string, suspicious: bool): Monitor {
    if suspicious then Track(m, ip, SuspiciousRequest) else m
  }

  /** `middleware(request)` at time `now`. */
  method Middleware(monitor: SecurityMonitor, limiter: RateLimiter, req: Request, now: nat,
                    uaPatterns: string -> bool, pathPatterns: string -> bool)
    returns (out: Outcome)
    requires limiter.Valid()
    modifies monitor, limiter
    ensures limiter.Valid()
    // a standing abuse block is answered first, and touches neither registry
    ensures ClientIP.GetClientIP(req.headers) in old(monitor.blockedIPs) ==>
              && out == AccessDenied
              && monitor.State() == old(monitor.State())
              && limiter.State() == old(limiter.State())
    // otherwise: record a suspicious request, then exactly one check
    ensures ClientIP.GetClientIP(req.headers) !in old(monitor.blockedIPs) ==>
              var ip := ClientIP.GetClientIP(req.headers);
              var screened := AfterScreening(old(monitor.State()), ip, IsSuspiciousRequest(req, uaPatterns, pathPatterns));
              var (checked, d) := Check(old(limiter.State()), ip, ProfileFor(req), now);
              && limiter.State() == checked
              && (d == Allow ==> out == Next && monitor.State() == screened)
              && (d != Allow ==>
                    && out == RateLimited(CreateRateLimitResponse(d.message, Some(d.retryAfter)))
                    && monitor.State() == if ProfileFor(req) == Form then Track(screened, ip, RateLimitExceeded)
                                          else screened)
  {
    var ip := ClientIP.GetClientIP(req.headers);

    var blocked := monitor.IsBlocked(ip);
    if blocked {
      return AccessDenied;
    }

    if IsSuspiciousRequest(req, uaPatterns, pathPatterns) {
      monitor.TrackSuspiciousActivity(ip, SuspiciousRequest);
    }

    if req.path == "/api/submit" && req.httpMethod == "POST" {
      var rateCheck := limiter.CheckRateLimit(req.headers, Form, now);
      if !rateCheck.Allow? {
        monitor.TrackSuspiciousActivity(ip, RateLimitExceeded);
        return RateLimited(CreateRateLimitResponse(rateCheck.message, Some(rateCheck.retryAfter)));
      }
    } else {
      var rateCheck := limiter.CheckRateLimit(req.headers, General, now);
      if !rateCheck.Allow? {
        return RateLimited(CreateRateLimitResponse(rateCheck.message, Some(rateCheck.retryAfter)));
      }
    }
    return Next;
  }
}

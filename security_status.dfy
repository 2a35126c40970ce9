/**
 * The administrative endpoint of `src/app/api/security-status/route.ts`:
 * bearer-token authorisation, a read-only report of both registries (GET),
 * and unblock, block and cleanup actions (POST).
 */
module SecurityStatus {
  import opened Wrappers
  import opened Text
  import ClientIP
  import RateLimiting
  import Monitoring
  import RateLimitProperties

  const BearerPrefix := "Bearer "

  /** Replies of the endpoint. */
  datatype Reply =
    | Unauthorized                 // 401, no usable bearer header
    | InvalidToken                 // 401, token missing on the server or different
    | Report(rateLimiter: RateLimiting.LimiterStats, securityMonitor: Monitoring.MonitorStats)
    | Unblocked(ip: string)
    | Blocked(ip: string)
    | CleanedUp
    | InvalidAction                // 400
    | InternalError                // 500, the body could not be read

  /** The HTTP status of each reply. */
  function StatusOf(r: Reply): (status: nat)
    ensures r == Unauthorized || r == InvalidToken <==> status == 401
    ensures r == InvalidAction <==> status == 400
    ensures r == InternalError <==> status == 500
    ensures r.Report? || r.Unblocked? || r.Blocked? || r == CleanedUp <==> status == 200
  {
    match r
    case Unauthorized => 401
    case InvalidToken => 401
    case InvalidAction => 400
    case InternalError => 500
    case _ => 200
  }

  /** The `authorization` header is present, non-empty and starts with `Bearer `. */
  predicate HasBearerHeader(headers: ClientIP.Headers) {
    "authorization" in headers && headers["authorization"] != [] && StartsWith(headers["authorization"], BearerPrefix)
  }

  /** The authorisation shared by both handlers: `None` when the request may
    * proceed, otherwise the 401 reply. `expected` is the configured token. */
  function Authorize(headers: ClientIP.Headers, expected: Option<string>): (r: Option<Reply>)
    ensures !HasBearerHeader(headers) ==> r == Some(Unauthorized)
    ensures HasBearerHeader(headers) ==>
              var token := headers["authorization"][|BearerPrefix|..];
              && (expected.None? || expected.value == [] || token != expected.value ==> r == Some(InvalidToken))
              && (expected.Some? && expected.value != [] && token == expected.value ==> r.None?)
    ensures r.Some? ==> StatusOf(r.value) == 401
  {
    var auth := ClientIP.Header(headers, "authorization");
    if !(auth.Some? && auth.value != [] && StartsWith(auth.value, BearerPrefix)) then Some(Unauthorized)
    else
      var token := auth.value[|BearerPrefix|..];
      if expected.None? || expected.value == [] || token != expected.value then Some(InvalidToken)
      else None
  }

  /** A request is let through exactly when a token is configured and the
    * header is `Bearer ` followed by that token. */
  lemma AuthorizedExactly(headers: ClientIP.Headers, expected: Option<string>)
    ensures Authorize(headers, expected).None? <==>
      && expected.Some? && expected.value != []
      && "authorization" in headers && headers["authorization"] == BearerPrefix + expected.value
  {
    if "authorization" in headers && expected.Some? {
      var auth := headers["authorization"];
      if StartsWith(auth, BearerPrefix) {
        assert auth == auth[..|BearerPrefix|] + auth[|BearerPrefix|..];
      }
      if auth == BearerPrefix + expected.value {
        assert auth[..|BearerPrefix|] == BearerPrefix;
        assert auth[|BearerPrefix|..] == expected.value;
      }
    }
  }

  /** With no token configured nothing is authorised. */
  lemma UnconfiguredLocksOut(headers: ClientIP.Headers)
    ensures Authorize(headers, None).Some? && Authorize(headers, Some("")).Some?
  {
  }

  /** `GET(request)`: both registries' statistics, changing nothing. */
  method Get(limiter: RateLimiting.RateLimiter, monitor: Monitoring.SecurityMonitor,
             headers: ClientIP.Headers, expected: Option<string>)
    returns (r: Reply)
    ensures Authorize(headers, expected).Some? ==> r == Authorize(headers, expected).value && StatusOf(r) == 401
    ensures Authorize(headers, expected).None? ==>
      r == Report(RateLimiting.LimiterStats(|limiter.requests|, |limiter.blockedIPs|, limiter.blockedIPs),
                  Monitoring.MonitorStats(|monitor.suspiciousActivity|, |monitor.blockedIPs|, monitor.blockedIPs))
  {
    var denied := Authorize(headers, expected);
    if denied.Some? {
      return denied.value;
    }
    var rateLimiterStats := limiter.GetStats();
    var securityMonitorStats := monitor.GetStats();
    return Report(rateLimiterStats, securityMonitorStats);
  }

  /** The fields `action` and `ip` of the JSON body, when they are strings. */
  datatype AdminBody = AdminBody(action: Option<string>, ip: Option<string>)

  /** What a body asks for. */
  datatype Action = DoUnblock(ip: string) | DoBlock(ip: string) | DoCleanup | NoAction

  /** `ip` is truthy: present and non-empty. */
  predicate IpGiven(b: AdminBody) {
    b.ip.Some? && b.ip.value != []
  }

  /** The dispatch of `POST`: `unblock` and `block` need an address, `cleanup`
    * needs none, and anything else is no action. */
  function ActionOf(b: AdminBody): (a: Action)
    ensures a.DoUnblock? || a.DoBlock? ==> b.ip == Some(a.ip) && a.ip != []
    ensures a.DoUnblock? <==> b.action == Some("unblock") && IpGiven(b)
    ensures a.DoBlock? <==> b.action == Some("block") && IpGiven(b)
    ensures a.DoCleanup? <==> b.action == Some("cleanup")
  {
    if b.action == Some("unblock") && IpGiven(b) then DoUnblock(b.ip.value)
    else if b.action == Some("block") && IpGiven(b) then DoBlock(b.ip.value)
    else if b.action == Some("cleanup") then DoCleanup
    else NoAction
  }

  /** `POST(request)` at time `now`; `body` is `None` when it cannot be
    * parsed. A manual block lasts the default day. */
  method Post(limiter: RateLimiting.RateLimiter, monitor: Monitoring.SecurityMonitor,
              headers: ClientIP.Headers, expected: Option<string>, body: Option<AdminBody>, now: nat)
    returns (r: Reply)
    requires limiter.Valid()
    modifies limiter, monitor
    ensures limiter.Valid()
    ensures Authorize(headers, expected).Some? || body.None? || ActionOf(body.value) == NoAction ==>
      && r == (if Authorize(headers, expected).Some? then Authorize(headers, expected).value
               else if body.None? then InternalError else InvalidAction)
      && StatusOf(r) == (if Authorize(headers, expected).Some? then 401 else if body.None? then 500 else 400)
      && limiter.State() == old(limiter.State()) && monitor.State() == old(monitor.State())
    ensures Authorize(headers, expected).None? && body.Some? ==>
      match ActionOf(body.value)
      case DoUnblock(ip) =>
        && r == Unblocked(ip)
        && limiter.State() == RateLimiting.Unblock(old(limiter.State()), ip)
        && monitor.State() == Monitoring.Unblock(old(monitor.State()), ip)
      case DoBlock(ip) =>
        && r == Blocked(ip)
        && limiter.State() == RateLimiting.Block(old(limiter.State()), ip, RateLimiting.DefaultManualBlockMs, now)
        && monitor.State() == old(monitor.State())
      case DoCleanup =>
        && r == CleanedUp
        && limiter.State() == RateLimiting.Sweep(old(limiter.State()), now)
        && monitor.State() == old(monitor.State())
      case NoAction => true
  {
    var denied := Authorize(headers, expected);
    if denied.Some? {
      return denied.value;
    }
    if body.None? {
      return InternalError;
    }
    var action, ip := body.value.action, body.value.ip;
    if action == Some("unblock") && ip.Some? && ip.value != [] {
      limiter.UnblockIP(ip.value);
      monitor.UnblockIP(ip.value);
      return Unblocked(ip.value);
    }
    if action == Some("block") && ip.Some? && ip.value != [] {
      limiter.ManuallyBlockIP(ip.value, RateLimiting.DefaultManualBlockMs, now);
      return Blocked(ip.value);
    }
    if action == Some("cleanup") {
      limiter.Cleanup(now);
      return CleanedUp;
    }
    return InvalidAction;
  }

  /** A manual block denies the address on both profiles for the next day,
    * even after a cleanup. */
  lemma ManualBlockHolds(s: RateLimiting.Limiter, ip: string, now: nat, sweepAt: nat, later: nat,
                         p: RateLimiting.Profile)
    requires now <= sweepAt <= later < now + RateLimiting.DefaultManualBlockMs
    ensures var blocked := RateLimiting.Block(s, ip, RateLimiting.DefaultManualBlockMs, now);
      var d := RateLimiting.Check(RateLimiting.Sweep(blocked, sweepAt), ip, p, later).1;
      d.Deny? && d.message == RateLimiting.BlockedMessage
  {
    var blocked := RateLimiting.Block(s, ip, RateLimiting.DefaultManualBlockMs, now);
    var swept := RateLimiting.Sweep(blocked, sweepAt);
    RateLimitProperties.SweepRemovesExactlyStale(blocked, sweepAt);
    assert swept.requests[ip] == blocked.requests[ip];
    RateLimitProperties.ActiveBlockDenies(swept, ip, p, later);
  }
}

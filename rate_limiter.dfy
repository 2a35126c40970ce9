/**
 * The fixed-window rate limiter (`src/middleware/rateLimiter.ts`).
 *
 * One `Entry` per client IP, shared by both traffic profiles. A client that
 * exceeds its quota is blocked until `blockExpiry` and put into `blockedIPs`;
 * an expired block is cleared lazily by the next check, while a timer
 * scheduled at blocking time removes the IP from `blockedIPs`. Until that
 * timer fires, the client is still denied (with the fallback retry hint).
 *
 * The pure functions below are the reference definition of each operation on
 * a `Limiter` value; the class `RateLimiter` performs the same operations in
 * place and its methods are proved to agree with them.
 */
module RateLimiting {
  import opened Wrappers
  import ClientIP

  /** `RateLimitEntry`; `blockExpiry` is `undefined` when `None`. */
  datatype Entry = Entry(count: nat, resetTime: nat, blocked: bool, blockExpiry: Option<nat>)

  /** The two traffic classes, `'form'` and `'general'`. */
  datatype Profile = Form | General

  /** `RateLimitConfig`; all durations in milliseconds. */
  datatype Config = Config(windowMs: nat, maxRequests: nat, blockDuration: nat, message: string)

  const FormMessage := "Too many form submissions. Please try again later."
  const GeneralMessage := "Rate limit exceeded. Please slow down."
  const BlockedMessage := "IP temporarily blocked due to excessive requests"
  /** Retry hint, in seconds, for a client still listed after its block expired. */
  const FallbackRetryAfter := 300
  /** Default duration of an administrative block: 24 hours. */
  const DefaultManualBlockMs: nat := 24 * 60 * 60 * 1000

  function ConfigOf(p: Profile): (c: Config)
    ensures c.windowMs > 0 && c.maxRequests > 0 && c.blockDuration > 0
    ensures p == Form ==> c == Config(15 * 60 * 1000, 3, 60 * 60 * 1000, FormMessage)
    ensures p == General ==> c == Config(60 * 1000, 30, 5 * 60 * 1000, GeneralMessage)
  {
    match p
    case Form => Config(15 * 60 * 1000, 3, 60 * 60 * 1000, FormMessage)
    case General => Config(60 * 1000, 30, 5 * 60 * 1000, GeneralMessage)
  }

  /** A pending `setTimeout` that will remove `ip` from `blockedIPs` at `fireAt`. */
  datatype Timer = Timer(ip: string, fireAt: nat)

  /** The limiter's whole state: the `requests` map, the `blockedIPs` set and
    * the timers scheduled by `blockIP` that have not fired yet. */
  datatype Limiter = Limiter(requests: map<string, Entry>, blockedIPs: set<string>, timers: multiset<Timer>)

  /** The outcome of `checkRateLimit`: `{allowed: true}` or
    * `{allowed: false, message, retryAfter}`. */
  datatype Decision = Allow | Deny(message: string, retryAfter: int)

  /** JavaScript truthiness of an optional timestamp (`undefined` and `0` are falsy). */
  predicate Truthy(t: Option<nat>) {
    t.Some? && t.value != 0
  }

  /** `Math.ceil(x / 1000)` for an integer number of milliseconds `x`. */
  function CeilDiv1000(x: int): (r: int)
    ensures (r - 1) * 1000 < x <= r * 1000
  {
    -((-x) / 1000)
  }

  /** What the code keeps true of the state: an entry carries an expiry exactly
    * when it is blocked, and every listed IP has a timer pending that will
    * eventually unlist it. */
  ghost predicate Consistent(s: Limiter) {
    && (forall ip :: ip in s.requests ==> (s.requests[ip].blocked <==> s.requests[ip].blockExpiry.Some?))
    && (forall ip :: ip in s.blockedIPs ==> exists t :: t in s.timers && t.ip == ip)
  }

  /** The entry of `ip` is blocked and its expiry still lies ahead. */
  predicate ActiveBlock(s: Limiter, ip: string, now: nat) {
    ip in s.requests && s.requests[ip].blocked && Truthy(s.requests[ip].blockExpiry)
    && now < s.requests[ip].blockExpiry.value
  }

  /** The entry of `ip` is blocked but its expiry has passed. */
  predicate LapsedBlock(s: Limiter, ip: string, now: nat) {
    ip in s.requests && s.requests[ip].blocked && Truthy(s.requests[ip].blockExpiry)
    && now >= s.requests[ip].blockExpiry.value
  }

  /** `isIPBlocked`: the new state (a lapsed block is reset) and the answer. */
  function BlockQuery(s: Limiter, ip: string, now: nat): (Limiter, bool) {
    if ActiveBlock(s, ip, now) then (s, true)
    else if LapsedBlock(s, ip, now) then
      var e := s.requests[ip];
      (s.(requests := s.requests[ip := e.(blocked := false, blockExpiry := None, count := 0)]), ip in s.blockedIPs)
    else (s, ip in s.blockedIPs)
  }

  /** `blockIP`: block `ip` until `now + duration`, creating an empty entry
    * when there is none, list it, and schedule its timer. */
  function Block(s: Limiter, ip: string, duration: nat, now: nat): Limiter {
    var e := if ip in s.requests then s.requests[ip] else Entry(0, now, false, None);
    Limiter(s.requests[ip := e.(blocked := true, blockExpiry := Some(now + duration))],
            s.blockedIPs + {ip},
            s.timers + multiset{Timer(ip, now + duration)})
  }

  /** The retry hint of a denied blocked client: seconds until the stored
    * expiry, or the fallback when there is none. */
  function BlockedRetryAfter(s: Limiter, ip: string, now: nat): int {
    if ip in s.requests && Truthy(s.requests[ip].blockExpiry)
    then CeilDiv1000(s.requests[ip].blockExpiry.value - now)
    else FallbackRetryAfter
  }

  /** `checkRateLimit` for the client `ip` under profile `p` at time `now`. */
  function Check(s: Limiter, ip: string, p: Profile, now: nat): (Limiter, Decision) {
    var config := ConfigOf(p);
    var (s1, blocked) := BlockQuery(s, ip, now);
    if blocked then
      (s1, Deny(BlockedMessage, BlockedRetryAfter(s1, ip, now)))
    else if ip !in s1.requests || now > s1.requests[ip].resetTime then
      (s1.(requests := s1.requests[ip := Entry(1, now + config.windowMs, false, None)]), Allow)
    else
      var e := s1.requests[ip];
      var s2 := s1.(requests := s1.requests[ip := e.(count := e.count + 1)]);
      if e.count + 1 > config.maxRequests then
        (Block(s2, ip, config.blockDuration, now), Deny(config.message, CeilDiv1000(config.blockDuration)))
      else
        (s2, Allow)
  }

  /** `unblockIP`: unlist `ip` and clear the block on its entry, if any. */
  function Unblock(s: Limiter, ip: string): Limiter {
    var requests :=
      if ip in s.requests then s.requests[ip := s.requests[ip].(blocked := false, blockExpiry := None)]
      else s.requests;
    s.(requests := requests, blockedIPs := s.blockedIPs - {ip})
  }

  /** The entries `cleanup` deletes: window elapsed and not blocked. */
  predicate Stale(e: Entry, now: nat) {
    now > e.resetTime && !e.blocked
  }

  /** `cleanup`: the state without its stale entries. */
  function Sweep(s: Limiter, now: nat): Limiter {
    s.(requests := map ip | ip in s.requests && !Stale(s.requests[ip], now) :: s.requests[ip])
  }

  /** The timer `t` fires: `blockedIPs.delete(t.ip)`. */
  function Fire(s: Limiter, t: Timer): Limiter
    requires t in s.timers
  {
    s.(blockedIPs := s.blockedIPs - {t.ip}, timers := s.timers - multiset{t})
  }

  /** `getStats`: tracked entries, listed IPs, and the listed IPs themselves. */
  datatype LimiterStats = LimiterStats(activeConnections: nat, blockedIPs: nat, blockedIPsList: set<string>)

  /** The rate limiter object, updated in place. */
  class RateLimiter {
    var requests: map<string, Entry>
    var blockedIPs: set<string>
    var timers: multiset<Timer>

    function State(): Limiter
      reads this
    {
      Limiter(requests, blockedIPs, timers)
    }

    ghost predicate Valid()
      reads this
    {
      Consistent(State())
    }

    constructor ()
      ensures Valid()
      ensures requests == map[] && blockedIPs == {} && timers == multiset{}
    {
      requests := map[];
      blockedIPs := {};
      timers := multiset{};
    }

    /** `isIPBlocked`: true during an active block; otherwise clears a lapsed
      * block and answers whether the IP is still listed. */
    method IsIPBlocked(ip: string, now: nat) returns (blocked: bool)
      requires Valid()
      modifies this
      ensures Valid()
      ensures (State(), blocked) == BlockQuery(old(State()), ip, now)
    {
      if ip in requests {
        var entry := requests[ip];
        if entry.blocked && Truthy(entry.blockExpiry) && now < entry.blockExpiry.value {
          return true;
        }
        if entry.blocked && Truthy(entry.blockExpiry) && now >= entry.blockExpiry.value {
          requests := requests[ip := entry.(blocked := false, blockExpiry := None, count := 0)];
        }
      }
      blocked := ip in blockedIPs;
    }

    /** `blockIP` (and the timer it schedules). */
    method BlockIP(ip: string, duration: nat, now: nat)
      requires Valid()
      modifies this
      ensures Valid()
      ensures State() == Block(old(State()), ip, duration, now)
      ensures ip in blockedIPs && requests[ip].blocked && requests[ip].blockExpiry == Some(now + duration)
    {
      var entry := if ip in requests then requests[ip] else Entry(0, now, false, None);
      entry := entry.(blocked := true, blockExpiry := Some(now + duration));
      requests := requests[ip := entry];
      blockedIPs := blockedIPs + {ip};
      timers := timers + multiset{Timer(ip, now + duration)};
    }

    /** `checkRateLimit(request, profile)` at time `now`. */
    method CheckRateLimit(headers: ClientIP.Headers, profile: Profile, now: nat) returns (d: Decision)
      requires Valid()
      modifies this
      ensures Valid()
      ensures (State(), d) == Check(old(State()), ClientIP.GetClientIP(headers), profile, now)
    {
      var ip := ClientIP.GetClientIP(headers);
      var config := ConfigOf(profile);

      var blocked := IsIPBlocked(ip, now);
      if blocked {
        var retryAfter := if ip in requests && Truthy(requests[ip].blockExpiry)
                          then CeilDiv1000(requests[ip].blockExpiry.value - now)
                          else FallbackRetryAfter;
        return Deny(BlockedMessage, retryAfter);
      }

      if ip !in requests || now > requests[ip].resetTime {
        requests := requests[ip := Entry(1, now + config.windowMs, false, None)];
        return Allow;
      }

      var entry := requests[ip];
      entry := entry.(count := entry.count + 1);
      requests := requests[ip := entry];

      if entry.count > config.maxRequests {
        BlockIP(ip, config.blockDuration, now);
        return Deny(config.message, CeilDiv1000(config.blockDuration));
      }
      return Allow;
    }

    /** `manuallyBlockIP(ip, duration)`; the administrative endpoint passes
      * `DefaultManualBlockMs`. */
    method ManuallyBlockIP(ip: string, duration: nat, now: nat)
      requires Valid()
      modifies this
      ensures Valid()
      ensures State() == Block(old(State()), ip, duration, now)
    {
      BlockIP(ip, duration, now);
    }

    /** `unblockIP`. */
    method UnblockIP(ip: string)
      requires Valid()
      modifies this
      ensures Valid()
      ensures State() == Unblock(old(State()), ip)
    {
      blockedIPs := blockedIPs - {ip};
      if ip in requests {
        var entry := requests[ip];
        requests := requests[ip := entry.(blocked := false, blockExpiry := None)];
      }
    }

    /** `getStats`: reads the two sizes and the listed IPs. */
    method GetStats() returns (stats: LimiterStats)
      ensures stats.activeConnections == |requests| && stats.blockedIPs == |blockedIPs|
      ensures stats.blockedIPsList == blockedIPs
    {
      stats := LimiterStats(|requests|, |blockedIPs|, blockedIPs);
    }

    /** `cleanup`: walks the map and deletes every stale entry. */
    method Cleanup(now: nat)
      requires Valid()
      modifies this
      ensures Valid()
      ensures State() == Sweep(old(State()), now)
    {
      var pending := requests.Keys;
      while pending != {}
        invariant pending <= old(requests).Keys
        invariant requests == map ip | ip in old(requests) && (ip in pending || !Stale(old(requests)[ip], now))
                                     :: old(requests)[ip]
        invariant blockedIPs == old(blockedIPs) && timers == old(timers)
        decreases pending
      {
        var ip :| ip in pending;
        var entry := requests[ip];
        if now > entry.resetTime && !entry.blocked {
          requests := requests - {ip};
        }
        pending := pending - {ip};
      }
    }

    /** The timer scheduled by `blockIP` fires (it is due at `now`). */
    method TimerExpire(t: Timer, now: nat)
      requires Valid()
      requires t in timers && t.fireAt <= now
      modifies this
      ensures Valid()
      ensures State() == Fire(old(State()), t)
    {
      blockedIPs := blockedIPs - {t.ip};
      timers := timers - multiset{t};
    }
  }
}

/** `createRateLimitResponse`: the HTTP 429 answer to a denied check. */
module RateLimitResponses {
  import opened Wrappers
  import opened Text

  /** Status, JSON `error` and `retryAfter` fields, and the `Retry-After` header. */
  datatype RateLimitResponse = RateLimitResponse(status: nat, error: string, retryAfter: Option<int>, retryAfterHeader: string)

  /** The header is `retryAfter.toString()`, or `"60"` when there is no hint;
    * a hint of zero is kept, since its text `"0"` is not falsy. */
  function CreateRateLimitResponse(message: string, retryAfter: Option<int>): (r: RateLimitResponse)
    ensures r.status == 429 && r.error == message && r.retryAfter == retryAfter
    ensures r.retryAfterHeader != []
    ensures retryAfter.Some? ==> r.retryAfterHeader == IntToString(retryAfter.value)
    ensures retryAfter.None? ==> r.retryAfterHeader == "60"
  {
    var header := if retryAfter.Some? then IntToString(retryAfter.value) else [];
    RateLimitResponse(429, message, retryAfter, if header != [] then header else "60")
  }
}

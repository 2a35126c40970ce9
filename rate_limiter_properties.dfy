/**
 * What the rate limiter promises, stated about the reference functions of
 * module `RateLimiting` (and so, through their `ensures`, about the methods
 * of `RateLimiter`).
 */
module RateLimitProperties {
  import opened Wrappers
  import opened RateLimiting

  lemma BlockQueryKeepsConsistent(s: Limiter, ip: string, now: nat)
    requires Consistent(s)
    ensures Consistent(BlockQuery(s, ip, now).0)
  {
  }

  lemma BlockKeepsConsistent(s: Limiter, ip: string, duration: nat, now: nat)
    requires Consistent(s)
    ensures Consistent(Block(s, ip, duration, now))
  {
    var s' := Block(s, ip, duration, now);
    forall x | x in s'.blockedIPs
      ensures exists u :: u in s'.timers && u.ip == x
    {
      if x == ip {
        assert Timer(ip, now + duration) in s'.timers;
      } else {
        var u :| u in s.timers && u.ip == x;
        assert u in s'.timers;
      }
    }
  }

  /** Every check keeps the state consistent. */
  lemma CheckKeepsConsistent(s: Limiter, ip: string, p: Profile, now: nat)
    requires Consistent(s)
    ensures Consistent(Check(s, ip, p, now).0)
  {
    var q := BlockQuery(s, ip, now);
    var s1 := q.0;
    BlockQueryKeepsConsistent(s, ip, now);
    var config := ConfigOf(p);
    if q.1 {
      assert Check(s, ip, p, now).0 == s1;
    } else if ip !in s1.requests || now > s1.requests[ip].resetTime {
      var s2 := s1.(requests := s1.requests[ip := Entry(1, now + config.windowMs, false, None)]);
      assert Check(s, ip, p, now).0 == s2;
      assert Consistent(s2);
    } else {
      var e := s1.requests[ip];
      var s2 := s1.(requests := s1.requests[ip := e.(count := e.count + 1)]);
      assert Consistent(s2);
      if e.count + 1 > config.maxRequests {
        assert Check(s, ip, p, now).0 == Block(s2, ip, config.blockDuration, now);
        BlockKeepsConsistent(s2, ip, config.blockDuration, now);
      } else {
        assert Check(s, ip, p, now).0 == s2;
      }
    }
  }

  /** A first request, or one after the window elapsed, opens a new window
    * holding one request and is admitted; nothing else changes. */
  lemma FreshWindowAdmits(s: Limiter, ip: string, p: Profile, now: nat)
    requires !ActiveBlock(s, ip, now) && ip !in s.blockedIPs
    requires ip !in s.requests || now > s.requests[ip].resetTime
    ensures Check(s, ip, p, now).1 == Allow
    ensures Check(s, ip, p, now).0 ==
            s.(requests := s.requests[ip := Entry(1, now + ConfigOf(p).windowMs, false, None)])
  {
  }

  /** Inside a window, a request of an unblocked client raises its count by
    * exactly one and is admitted iff the new count is within the quota; the
    * request that exceeds it blocks the client for the profile's duration. */
  lemma InWindowCounts(s: Limiter, ip: string, p: Profile, now: nat)
    requires ip in s.requests && !s.requests[ip].blocked && ip !in s.blockedIPs
    requires now <= s.requests[ip].resetTime
    ensures var (s', d) := Check(s, ip, p, now);
            var e, e' := s.requests[ip], s'.requests[ip];
            && e'.count == e.count + 1 && e'.resetTime == e.resetTime
            && (d == Allow <==> e.count + 1 <= ConfigOf(p).maxRequests)
            && (d == Allow ==> s' == s.(requests := s.requests[ip := e.(count := e.count + 1)]))
            && (d != Allow ==>
                  && d == Deny(ConfigOf(p).message, CeilDiv1000(ConfigOf(p).blockDuration))
                  && e'.blocked && e'.blockExpiry == Some(now + ConfigOf(p).blockDuration)
                  && ip in s'.blockedIPs)
  {
  }

  /** `checkRateLimit` applied to consecutive requests of one client. */
  function CheckAll(s: Limiter, ip: string, p: Profile, times: seq<nat>): (r: (Limiter, seq<Decision>))
    ensures |r.1| == |times|
    decreases |times|
  {
    if times == [] then (s, [])
    else
      var (s1, d) := Check(s, ip, p, times[0]);
      var (s2, ds) := CheckAll(s1, ip, p, times[1..]);
      (s2, [d] + ds)
  }

  /** From a window already holding `k` requests, the requests that keep the
    * count within the quota are admitted and the first one beyond it is
    * denied with the profile's message. */
  lemma {:induction false} InWindowRun(s: Limiter, ip: string, p: Profile, times: seq<nat>, k: nat, reset: nat)
    requires ip in s.requests && s.requests[ip] == Entry(k, reset, false, None) && ip !in s.blockedIPs
    requires k <= ConfigOf(p).maxRequests
    requires forall i :: 0 <= i < |times| ==> times[i] <= reset
    ensures var (s', ds) := CheckAll(s, ip, p, times);
            var max := ConfigOf(p).maxRequests;
            && (forall i :: 0 <= i < |times| && k + i < max ==> ds[i] == Allow)
            && (k + |times| > max ==> ds[max - k] == Deny(ConfigOf(p).message, CeilDiv1000(ConfigOf(p).blockDuration)))
            && (k + |times| <= max ==> ip in s'.requests && s'.requests[ip] == Entry(k + |times|, reset, false, None)
                                       && ip !in s'.blockedIPs)
    decreases |times|
  {
    if times != [] {
      var (s1, d) := Check(s, ip, p, times[0]);
      InWindowCounts(s, ip, p, times[0]);
      if k + 1 <= ConfigOf(p).maxRequests {
        assert s1.requests[ip] == Entry(k + 1, reset, false, None);
        InWindowRun(s1, ip, p, times[1..], k + 1, reset);
        var ds := CheckAll(s1, ip, p, times[1..]).1;
        assert CheckAll(s, ip, p, times).1 == [d] + ds;
      }
    }
  }

  /** The quota: when a client starts a new window at `times[0]` and keeps
    * sending within it, the first `maxRequests` requests are admitted and the
    * next one is denied with the profile's message and block duration. */
  lemma WindowQuota(s: Limiter, ip: string, p: Profile, times: seq<nat>)
    requires times != []
    requires !ActiveBlock(s, ip, times[0]) && ip !in s.blockedIPs
    requires ip !in s.requests || times[0] > s.requests[ip].resetTime
    requires forall i :: 0 <= i < |times| ==> times[i] <= times[0] + ConfigOf(p).windowMs
    ensures var ds := CheckAll(s, ip, p, times).1;
            var max := ConfigOf(p).maxRequests;
            && (forall i :: 0 <= i < |times| && i < max ==> ds[i] == Allow)
            && (|times| > max ==> ds[max] == Deny(ConfigOf(p).message, CeilDiv1000(ConfigOf(p).blockDuration)))
  {
    var reset := times[0] + ConfigOf(p).windowMs;
    FreshWindowAdmits(s, ip, p, times[0]);
    var s1 := Check(s, ip, p, times[0]).0;
    InWindowRun(s1, ip, p, times[1..], 1, reset);
    assert CheckAll(s, ip, p, times).1 == [Allow] + CheckAll(s1, ip, p, times[1..]).1;
  }

  /** Both profiles count on the one entry of the IP: after three general
    * requests that opened a window, a form submission inside that window is
    * the fourth request on the counter and is refused with an hour's block. */
  lemma GeneralTrafficSpendsFormQuota(s: Limiter, ip: string, times: seq<nat>, t: nat)
    requires 3 <= |times| <= 30
    requires !ActiveBlock(s, ip, times[0]) && ip !in s.blockedIPs
    requires ip !in s.requests || times[0] > s.requests[ip].resetTime
    requires forall i :: 0 <= i < |times| ==> times[i] <= times[0] + 60 * 1000
    requires t <= times[0] + 60 * 1000
    ensures var s' := CheckAll(s, ip, General, times).0;
            && (forall i :: 0 <= i < |times| ==> CheckAll(s, ip, General, times).1[i] == Allow)
            && Check(s', ip, Form, t).1 == Deny(FormMessage, 3600)
            && ip in Check(s', ip, Form, t).0.blockedIPs
  {
    var reset := times[0] + 60 * 1000;
    FreshWindowAdmits(s, ip, General, times[0]);
    var s1 := Check(s, ip, General, times[0]).0;
    InWindowRun(s1, ip, General, times[1..], 1, reset);
    assert CheckAll(s, ip, General, times).1 == [Allow] + CheckAll(s1, ip, General, times[1..]).1;
    assert CheckAll(s, ip, General, times).0 == CheckAll(s1, ip, General, times[1..]).0;
    InWindowCounts(CheckAll(s, ip, General, times).0, ip, Form, t);
  }

  /** During an active block every check is denied with the block message and
    * the seconds left until expiry (at least one); the state is untouched. */
  lemma ActiveBlockDenies(s: Limiter, ip: string, p: Profile, now: nat)
    requires ActiveBlock(s, ip, now)
    ensures var (s', d) := Check(s, ip, p, now);
            && s' == s
            && d == Deny(BlockedMessage, CeilDiv1000(s.requests[ip].blockExpiry.value - now))
            && d.retryAfter >= 1
  {
  }

  /** Once the block has lapsed, the next check resets the entry (count 0, no
    * block, same window) but still denies, with the 300-second fallback, for
    * as long as the IP is listed. */
  lemma LapsedBlockStillListedDenies(s: Limiter, ip: string, p: Profile, now: nat)
    requires LapsedBlock(s, ip, now) && ip in s.blockedIPs
    ensures var (s', d) := Check(s, ip, p, now);
            var e := s.requests[ip];
            && d == Deny(BlockedMessage, FallbackRetryAfter)
            && s' == s.(requests := s.requests[ip := Entry(0, e.resetTime, false, None)])
  {
  }

  /** Any listed IP without an active block is denied with the fallback hint. */
  lemma ListedDenied(s: Limiter, ip: string, p: Profile, now: nat)
    requires Consistent(s)
    requires !ActiveBlock(s, ip, now) && ip in s.blockedIPs
    ensures Check(s, ip, p, now).1 == Deny(BlockedMessage, FallbackRetryAfter)
  {
    var s1 := BlockQuery(s, ip, now).0;
    assert !(ip in s1.requests && Truthy(s1.requests[ip].blockExpiry));
  }

  /** Once the block has lapsed and its timer has unlisted the IP, the next
    * request is admitted with a count of one: in a fresh window if the old
    * window has ended, otherwise in the old window, whose end is kept. */
  lemma LapsedBlockUnlistedAdmits(s: Limiter, ip: string, p: Profile, now: nat)
    requires LapsedBlock(s, ip, now) && ip !in s.blockedIPs
    ensures var (s', d) := Check(s, ip, p, now);
            && d == Allow && s'.requests[ip].count == 1 && !s'.requests[ip].blocked
            && (now > s.requests[ip].resetTime ==> s'.requests[ip].resetTime == now + ConfigOf(p).windowMs)
            && (now <= s.requests[ip].resetTime ==> s'.requests[ip].resetTime == s.requests[ip].resetTime)
  {
  }

  /** The only denials that do not come from the quota are the block denials:
    * a client is refused with the block message iff it is actively blocked or
    * still listed. */
  lemma BlockDenialExactly(s: Limiter, ip: string, p: Profile, now: nat)
    ensures Check(s, ip, p, now).1.Deny? && Check(s, ip, p, now).1.message == BlockedMessage
            <==> ActiveBlock(s, ip, now) || ip in s.blockedIPs
  {
    var cfg := ConfigOf(p);
    assert cfg.message != BlockedMessage;
  }

  /** Unblocking unlists the IP and clears its block but keeps its count and
    * window; an unknown IP gains no entry. */
  lemma UnblockKeepsWindow(s: Limiter, ip: string)
    ensures var s' := Unblock(s, ip);
            && ip !in s'.blockedIPs
            && s'.blockedIPs == s.blockedIPs - {ip}
            && s'.requests.Keys == s.requests.Keys
            && (ip in s.requests ==>
                  s'.requests[ip] == Entry(s.requests[ip].count, s.requests[ip].resetTime, false, None))
            && (forall other :: other in s.requests && other != ip ==> s'.requests[other] == s.requests[other])
  {
  }

  /** Because unblocking keeps the count, a client that was blocked for
    * exceeding its quota and is unblocked inside the same window is refused
    * and re-blocked on its very next request. */
  lemma UnblockMidWindowReblocks(s: Limiter, ip: string, p: Profile, now: nat)
    requires ip in s.requests && s.requests[ip].count > ConfigOf(p).maxRequests
    requires now <= s.requests[ip].resetTime
    ensures var (s', d) := Check(Unblock(s, ip), ip, p, now);
            d == Deny(ConfigOf(p).message, CeilDiv1000(ConfigOf(p).blockDuration)) && ip in s'.blockedIPs
  {
    InWindowCounts(Unblock(s, ip), ip, p, now);
  }

  /** `cleanup` deletes exactly the stale entries and never an active block,
    * and leaves `blockedIPs` and the timers alone. */
  lemma SweepRemovesExactlyStale(s: Limiter, now: nat)
    ensures var s' := Sweep(s, now);
            && s'.blockedIPs == s.blockedIPs && s'.timers == s.timers
            && (forall ip :: ip in s.requests ==>
                  (ip in s'.requests <==> !Stale(s.requests[ip], now)))
            && (forall ip :: ip in s'.requests ==> ip in s.requests && s'.requests[ip] == s.requests[ip])
            && (forall ip :: ip in s.requests && s.requests[ip].blocked ==> ip in s'.requests)
  {
  }

  /** `cleanup` is memory hygiene only: for any later check, the decision is
    * the one the uncleaned state would have given. */
  lemma SweepUnobservable(s: Limiter, now: nat, ip: string, p: Profile, later: nat)
    requires Consistent(s)
    requires now <= later
    ensures Check(Sweep(s, now), ip, p, later).1 == Check(s, ip, p, later).1
  {
    var c := Sweep(s, now);
    if ip in s.requests && ip !in c.requests {
      var e := s.requests[ip];
      assert Stale(e, now) && e.blockExpiry == None;
      assert !ActiveBlock(s, ip, later) && !LapsedBlock(s, ip, later);
    }
  }

  /** A firing timer unlists its IP and keeps the state consistent. */
  lemma FireUnlists(s: Limiter, t: Timer)
    requires Consistent(s) && t in s.timers
    ensures t.ip !in Fire(s, t).blockedIPs
    ensures Consistent(Fire(s, t))
  {
    var s' := Fire(s, t);
    forall ip | ip in s'.blockedIPs
      ensures exists u :: u in s'.timers && u.ip == ip
    {
      var u :| u in s.timers && u.ip == ip;
      assert u != t;
      assert u in s'.timers;
    }
  }
}

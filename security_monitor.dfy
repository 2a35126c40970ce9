/**
 * The abuse tracker `SecurityMonitor` (`src/middleware/security.ts`).
 *
 * It counts flagged events under the string key `ip + ":" + type` and puts
 * the IP into a block set, with no expiry, when an event arrives whose key had
 * already been counted more than five times: the seventh event of one type.
 * An administrative unblock removes the IP and every activity key that
 * begins with the IP text.
 */
module Monitoring {
  import opened Text

  /** An event is blocking when its key already counted more than this. */
  const BlockThreshold := 5

  /** The activity key of an event of type `kind` from `ip`. */
  function ActivityKey(ip: string, kind: string): string {
    ip + ":" + kind
  }

  /** The monitor's state: the `suspiciousActivity` counts and the `blockedIPs` set. */
  datatype Monitor = Monitor(activity: map<string, nat>, blocked: set<string>)

  /** `suspiciousActivity.get(key) || 0`. */
  function CountOf(activity: map<string, nat>, key: string): nat {
    if key in activity then activity[key] else 0
  }

  /** `trackSuspiciousActivity(ip, kind)`. */
  function Track(s: Monitor, ip: string, kind: string): Monitor {
    var key := ActivityKey(ip, kind);
    var count := CountOf(s.activity, key);
    Monitor(s.activity[key := count + 1],
            if count > BlockThreshold then s.blocked + {ip} else s.blocked)
  }

  /** The keys `unblockIP(ip)` deletes: all that start with the IP text. */
  predicate Wiped(key: string, ip: string) {
    StartsWith(key, ip)
  }

  /** `unblockIP(ip)`. */
  function Unblock(s: Monitor, ip: string): Monitor {
    Monitor(map k | k in s.activity && !Wiped(k, ip) :: s.activity[k], s.blocked - {ip})
  }

  /** `getStats`. */
  datatype MonitorStats = MonitorStats(suspiciousActivities: nat, blockedIPs: nat, blockedIPsList: set<string>)

  /** The process-wide monitor, as an explicitly owned object. */
  class SecurityMonitor {
    var suspiciousActivity: map<string, nat>
    var blockedIPs: set<string>

    function State(): Monitor
      reads this
    {
      Monitor(suspiciousActivity, blockedIPs)
    }

    constructor ()
      ensures suspiciousActivity == map[] && blockedIPs == {}
    {
      suspiciousActivity := map[];
      blockedIPs := {};
    }

    /** `trackSuspiciousActivity`: count one event and block on the seventh of a type. */
    method TrackSuspiciousActivity(ip: string, kind: string)
      modifies this
      ensures State() == Track(old(State()), ip, kind)
    {
      var key := ip + ":" + kind;
      var count := if key in suspiciousActivity then suspiciousActivity[key] else 0;
      suspiciousActivity := suspiciousActivity[key := count + 1];
      if count > BlockThreshold {
        blockedIPs := blockedIPs + {ip};
      }
    }

    /** `isBlocked`: membership, with no expiry. */
    method IsBlocked(ip: string) returns (b: bool)
      ensures b <==> ip in blockedIPs
    {
      b := ip in blockedIPs;
    }

    /** `unblockIP`: unlist the IP, then delete the collected keys one by one. */
    method UnblockIP(ip: string)
      modifies this
      ensures State() == Unblock(old(State()), ip)
    {
      blockedIPs := blockedIPs - {ip};
      var keysToDelete := set k | k in suspiciousActivity && StartsWith(k, ip);
      while keysToDelete != {}
        invariant keysToDelete <= old(suspiciousActivity).Keys
        invariant suspiciousActivity ==
                    map k | k in old(suspiciousActivity) && (!Wiped(k, ip) || k in keysToDelete)
                          :: old(suspiciousActivity)[k]
        invariant blockedIPs == old(blockedIPs) - {ip}
        decreases keysToDelete
      {
        var key :| key in keysToDelete;
        suspiciousActivity := suspiciousActivity - {key};
        keysToDelete := keysToDelete - {key};
      }
    }

    /** `getStats`. */
    method GetStats() returns (stats: MonitorStats)
      ensures stats.suspiciousActivities == |suspiciousActivity| && stats.blockedIPs == |blockedIPs|
      ensures stats.blockedIPsList == blockedIPs
    {
      stats := MonitorStats(|suspiciousActivity|, |blockedIPs|, blockedIPs);
    }
  }
}

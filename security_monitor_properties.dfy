/**
 * What the abuse tracker promises, stated about the reference functions of
 * module `Monitoring`.
 */
module MonitorProperties {
  import opened Text
  import opened Monitoring

  /** One event raises the count of its own key by exactly one and changes no
    * other key; the IP becomes blocked iff it already was or the key had
    * counted more than five; no other IP changes block status. */
  lemma TrackOneStep(s: Monitor, ip: string, kind: string)
    ensures var s' := Track(s, ip, kind);
            var key := ActivityKey(ip, kind);
            && CountOf(s'.activity, key) == CountOf(s.activity, key) + 1
            && s'.activity.Keys == s.activity.Keys + {key}
            && (forall k :: k != key ==> CountOf(s'.activity, k) == CountOf(s.activity, k))
            && (ip in s'.blocked <==> ip in s.blocked || CountOf(s.activity, key) > BlockThreshold)
            && (forall other :: other != ip ==> (other in s'.blocked <==> other in s.blocked))
  {
  }

  /** `n` events of one type from one IP. */
  function TrackN(s: Monitor, ip: string, kind: string, n: nat): Monitor
    decreases n
  {
    if n == 0 then s else TrackN(Track(s, ip, kind), ip, kind, n - 1)
  }

  /** After `n` more events of one type, the key has counted `n` more, and an
    * IP that was not blocked is blocked iff the pre-increment count of some
    * event exceeded five, i.e. iff the key reached seven. */
  lemma {:induction false} TrackNCounts(s: Monitor, ip: string, kind: string, n: nat)
    ensures var s' := TrackN(s, ip, kind, n);
            var key := ActivityKey(ip, kind);
            && CountOf(s'.activity, key) == CountOf(s.activity, key) + n
            && (ip in s'.blocked <==>
                  ip in s.blocked || (n > 0 && CountOf(s.activity, key) + n - 1 > BlockThreshold))
    decreases n
  {
    if n > 0 {
      TrackOneStep(s, ip, kind);
      TrackNCounts(Track(s, ip, kind), ip, kind, n - 1);
    }
  }

  /** Starting from no events of a type, six events never block and the
    * seventh always does, however they are spaced in time. */
  lemma SeventhEventBlocks(s: Monitor, ip: string, kind: string, n: nat)
    requires ip !in s.blocked && ActivityKey(ip, kind) !in s.activity
    ensures ip in TrackN(s, ip, kind, n).blocked <==> n >= 7
  {
    TrackNCounts(s, ip, kind, n);
  }

  /** Events of one IP under a sequence of types. */
  function TrackAll(s: Monitor, ip: string, kinds: seq<string>): Monitor
    decreases |kinds|
  {
    if kinds == [] then s else TrackAll(Track(s, ip, kinds[0]), ip, kinds[1..])
  }

  /** Different types never combine: as long as no single type of the IP
    * reaches seven, the IP stays unblocked, whatever the interleaving. */
  lemma {:induction false} TypesDoNotCombine(s: Monitor, ip: string, kinds: seq<string>)
    requires ip !in s.blocked
    requires forall k :: CountOf(s.activity, ActivityKey(ip, k)) + multiset(kinds)[k] <= BlockThreshold + 1
    ensures ip !in TrackAll(s, ip, kinds).blocked
    decreases |kinds|
  {
    if kinds != [] {
      var k0 := kinds[0];
      assert kinds == [k0] + kinds[1..];
      assert multiset(kinds) == multiset{k0} + multiset(kinds[1..]);
      var s1 := Track(s, ip, k0);
      TrackOneStep(s, ip, k0);
      forall k
        ensures CountOf(s1.activity, ActivityKey(ip, k)) + multiset(kinds[1..])[k] <= BlockThreshold + 1
      {
        assert ActivityKey(ip, k)[|ip| + 1..] == k;
        assert ActivityKey(ip, k0)[|ip| + 1..] == k0;
      }
      TypesDoNotCombine(s1, ip, kinds[1..]);
    }
  }

  /** The text after the last colon of `s` (all of `s` when it has none). */
  function AfterLastColon(s: string): string
    decreases |s|
  {
    if s == [] then []
    else if s[|s| - 1] == ':' then []
    else AfterLastColon(s[..|s| - 1]) + [s[|s| - 1]]
  }

  lemma {:induction false} AfterLastColonOfKey(ip: string, kind: string)
    requires ':' !in kind
    ensures AfterLastColon(ActivityKey(ip, kind)) == kind
    decreases |kind|
  {
    var key := ActivityKey(ip, kind);
    if kind != [] {
      assert key[..|key| - 1] == ActivityKey(ip, kind[..|kind| - 1]);
      AfterLastColonOfKey(ip, kind[..|kind| - 1]);
      assert kind == kind[..|kind| - 1] + [kind[|kind| - 1]];
    }
  }

  /** With colon-free event types (all the types the code records are), an
    * activity key names one IP and one type, even for IPv6 addresses. */
  lemma KeyInjective(ip1: string, k1: string, ip2: string, k2: string)
    requires ':' !in k1 && ':' !in k2
    requires ActivityKey(ip1, k1) == ActivityKey(ip2, k2)
    ensures ip1 == ip2 && k1 == k2
  {
    var key := ActivityKey(ip1, k1);
    AfterLastColonOfKey(ip1, k1);
    AfterLastColonOfKey(ip2, k2);
    assert ip1 == key[..|ip1|] == ip2;
  }

  /** Events of another IP never touch this IP's counts or block status. */
  lemma TrackIsolation(s: Monitor, ip: string, kind: string, other: string, otherKind: string)
    requires other != ip && ':' !in kind && ':' !in otherKind
    ensures CountOf(Track(s, other, otherKind).activity, ActivityKey(ip, kind)) == CountOf(s.activity, ActivityKey(ip, kind))
    ensures ip in Track(s, other, otherKind).blocked <==> ip in s.blocked
  {
    if ActivityKey(ip, kind) == ActivityKey(other, otherKind) {
      KeyInjective(ip, kind, other, otherKind);
    }
  }

  /** Unblocking removes only this IP from the block set and deletes exactly
    * the keys that begin with its text, keeping the others' counts. */
  lemma UnblockEffect(s: Monitor, ip: string)
    ensures var s' := Unblock(s, ip);
            && s'.blocked == s.blocked - {ip}
            && (forall k :: k in s'.activity <==> k in s.activity && !StartsWith(k, ip))
            && (forall k :: k in s'.activity ==> s'.activity[k] == s.activity[k])
  {
  }

  /** After an unblock the IP starts from a clean slate: it takes seven
    * further events of one type to block it again. */
  lemma ReblockAfterUnblock(s: Monitor, ip: string, kind: string, n: nat)
    ensures ip in TrackN(Unblock(s, ip), ip, kind, n).blocked <==> n >= 7
  {
    var u := Unblock(s, ip);
    assert StartsWith(ActivityKey(ip, kind), ip) by {
      assert ActivityKey(ip, kind)[..|ip|] == ip;
    }
    SeventhEventBlocks(u, ip, kind, n);
  }

  /** The prefix test reaches further than the IP itself: unblocking `ip`
    * also wipes every count of a longer address that extends it (such as
    * `1.2.3.45` for `1.2.3.4`), while that address stays blocked if it was. */
  lemma UnblockWipesLongerAddresses(s: Monitor, ip: string, longer: string, kind: string)
    requires StartsWith(longer, ip) && longer != ip
    ensures CountOf(Unblock(s, ip).activity, ActivityKey(longer, kind)) == 0
    ensures longer in Unblock(s, ip).blocked <==> longer in s.blocked
  {
    var key := ActivityKey(longer, kind);
    assert key[..|ip|] == longer[..|ip|] == ip;
    assert Wiped(key, ip);
  }
}

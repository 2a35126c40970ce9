/**
 * Resolution of the client identifier from proxy headers. The same chain is
 * written three times in the source (the edge middleware, the rate limiter and
 * the submit handler); all three are this one function, so the key under which
 * the abuse tracker counts a client is always the key the rate limiter uses.
 */
module ClientIP {
  import opened Wrappers
  import opened Text

  /** Request headers by lower-case name (the Fetch API's `Headers` is case-insensitive). */
  type Headers = map<string, string>

  const XForwardedFor := "x-forwarded-for"
  const XRealIP := "x-real-ip"
  const CfConnectingIP := "cf-connecting-ip"
  const Unknown := "unknown"

  /** `headers.get(name)`: `null` when the header is absent. */
  function Header(h: Headers, name: string): Option<string> {
    if name in h then Some(h[name]) else None
  }

  /** The header is present and non-empty, i.e. truthy in JavaScript. */
  predicate HasValue(h: Headers, name: string) {
    name in h && h[name] != ""
  }

  /** `getClientIP`: the trimmed first hop of a non-empty `x-forwarded-for`,
    * else a non-empty `x-real-ip`, else a non-empty `cf-connecting-ip`,
    * else the shared bucket `"unknown"`. */
  function GetClientIP(h: Headers): (ip: string)
    ensures HasValue(h, XForwardedFor) ==> ip == Trim(TakeUntil(h[XForwardedFor], ','))
    ensures HasValue(h, XForwardedFor) ==> ',' !in ip
    ensures !HasValue(h, XForwardedFor) && HasValue(h, XRealIP) ==> ip == h[XRealIP]
    ensures !HasValue(h, XForwardedFor) && !HasValue(h, XRealIP) && HasValue(h, CfConnectingIP) ==>
              ip == h[CfConnectingIP]
    ensures !HasValue(h, XForwardedFor) && !HasValue(h, XRealIP) && !HasValue(h, CfConnectingIP) ==>
              ip == Unknown
  {
    if HasValue(h, XForwardedFor) then
      var first := TakeUntil(h[XForwardedFor], ',');
      var r := Trim(first);
      assert forall c :: c in r ==> c in first;
      r
    else if HasValue(h, XRealIP) then h[XRealIP]
    else if HasValue(h, CfConnectingIP) then h[CfConnectingIP]
    else Unknown
  }

  /** Only the three proxy headers influence the identifier. */
  lemma OnlyProxyHeadersMatter(h1: Headers, h2: Headers)
    requires Header(h1, XForwardedFor) == Header(h2, XForwardedFor)
    requires Header(h1, XRealIP) == Header(h2, XRealIP)
    requires Header(h1, CfConnectingIP) == Header(h2, CfConnectingIP)
    ensures GetClientIP(h1) == GetClientIP(h2)
  {
  }

  lemma {:induction false} TakeUntilAbsent(s: string, c: char)
    requires c !in s
    ensures TakeUntil(s, c) == s
  {
    if s != [] {
      TakeUntilAbsent(s[1..], c);
    }
  }

  lemma TrimOfTrimmed(s: string)
    requires s != [] && !IsJsWhitespace(s[0]) && !IsJsWhitespace(s[|s| - 1])
    ensures Trim(s) == s
  {
    assert LeadingWhitespace(s) == 0;
    assert TrailingWhitespace(s) == 0;
  }

  /** The identifier is not validated: a client that sends `x-forwarded-for: k`
    * for any comma-free, non-blank `k` without surrounding whitespace is
    * bucketed under exactly `k`. */
  lemma ClientChoosesIdentifier(h: Headers, k: string)
    requires k != [] && ',' !in k && !IsJsWhitespace(k[0]) && !IsJsWhitespace(k[|k| - 1])
    requires Header(h, XForwardedFor) == Some(k)
    ensures GetClientIP(h) == k
  {
    TakeUntilAbsent(k, ',');
    TrimOfTrimmed(k);
  }
}

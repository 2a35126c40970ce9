/**
 * The few JavaScript string operations the admission layer relies on:
 * `trim`, `split(',')[0]`, `startsWith`, `includes` and number-to-string.
 * A JavaScript string is a sequence of UTF-16 code units; here a string is a
 * sequence of Dafny `char`s, which are Unicode scalar values, so a lone
 * surrogate cannot occur and an astral character counts as one `char`.
 */
module Text {

  /** The characters JavaScript's `trim` strips and its regex class `\s` matches
    * (WhiteSpace and LineTerminator of the ECMAScript grammar). */
  predicate IsJsWhitespace(c: char) {
    c == '\t' || c == '\n' || c == '\U{B}' || c == '\U{C}' || c == '\r' || c == ' ' ||
    c == '\U{A0}' || c == '\U{1680}' || ('\U{2000}' <= c <= '\U{200A}') ||
    c == '\U{2028}' || c == '\U{2029}' || c == '\U{202F}' || c == '\U{205F}' ||
    c == '\U{3000}' || c == '\U{FEFF}'
  }

  predicate AllWhitespace(s: string) {
    forall i :: 0 <= i < |s| ==> IsJsWhitespace(s[i])
  }

  predicate NoWhitespace(s: string) {
    forall i :: 0 <= i < |s| ==> !IsJsWhitespace(s[i])
  }

  /** Number of whitespace characters at the start of `s`. */
  function LeadingWhitespace(s: string): (k: nat)
    ensures k <= |s|
    ensures AllWhitespace(s[..k])
    ensures k < |s| ==> !IsJsWhitespace(s[k])
  {
    if s == [] || !IsJsWhitespace(s[0]) then 0
    else
      var k := 1 + LeadingWhitespace(s[1..]);
      assert s[..k] == [s[0]] + s[1..][..k - 1];
      k
  }

  /** Number of whitespace characters at the end of `s`. */
  function TrailingWhitespace(s: string): (k: nat)
    ensures k <= |s|
    ensures AllWhitespace(s[|s| - k..])
    ensures k < |s| ==> !IsJsWhitespace(s[|s| - 1 - k])
  {
    if s == [] || !IsJsWhitespace(s[|s| - 1]) then 0
    else
      var init := s[..|s| - 1];
      var j := TrailingWhitespace(init);
      var tail := init[|init| - j..];
      assert s[|s| - (j + 1)..] == tail + [s[|s| - 1]];
      assert forall i :: 0 <= i < |tail| ==> (tail + [s[|s| - 1]])[i] == tail[i];
      assert j + 1 < |s| ==> s[|s| - 1 - (j + 1)] == init[|init| - 1 - j];
      j + 1
  }

  /** `s.trim()`: the slice of `s` left once leading and trailing whitespace
    * is removed; empty exactly when `s` is all whitespace. */
  function Trim(s: string): (r: string)
    ensures |r| <= |s|
    ensures r == [] <==> AllWhitespace(s)
    ensures r != [] ==> !IsJsWhitespace(r[0]) && !IsJsWhitespace(r[|r| - 1])
    ensures r != [] ==> exists i :: 0 <= i <= |s| - |r| && r == s[i..i + |r|]
                                    && AllWhitespace(s[..i]) && AllWhitespace(s[i + |r|..])
    ensures forall c :: c in r ==> c in s
  {
    var lead := LeadingWhitespace(s);
    if lead == |s| then
      assert s[..lead] == s;
      []
    else
      var trail := TrailingWhitespace(s);
      assert lead + trail < |s| by {
        forall i | |s| - trail <= i < |s| ensures IsJsWhitespace(s[i]) {
          assert s[|s| - trail..][i - (|s| - trail)] == s[i];
        }
      }
      var r := s[lead..|s| - trail];
      assert r == s[lead..lead + |r|] && s[lead + |r|..] == s[|s| - trail..];
      assert r[0] == s[lead];
      assert r[|r| - 1] == s[|s| - 1 - trail];
      r
  }

  /** `s.split(c)[0]`: the text before the first `c`, or all of `s`. */
  function TakeUntil(s: string, c: char): (r: string)
    ensures |r| <= |s| && r == s[..|r|]
    ensures c !in r
    ensures |r| < |s| ==> s[|r|] == c
  {
    if s == [] || s[0] == c then []
    else [s[0]] + TakeUntil(s[1..], c)
  }

  /** `s.startsWith(p)`. */
  predicate StartsWith(s: string, p: string) {
    |p| <= |s| && s[..|p|] == p
  }

  /** `s.includes(sub)`. */
  predicate Contains(s: string, sub: string)
    decreases |s|
  {
    StartsWith(s, sub) || (s != [] && Contains(s[1..], sub))
  }

  predicate IsDigit(c: char) {
    '0' <= c <= '9'
  }

  predicate AllDigits(s: string) {
    forall i :: 0 <= i < |s| ==> IsDigit(s[i])
  }

  function DigitValue(c: char): nat
    requires IsDigit(c)
  {
    c as int - '0' as int
  }

  /** The number a run of decimal digits denotes. */
  function DecimalValue(s: string): nat
    requires AllDigits(s)
  {
    if s == [] then 0
    else DecimalValue(s[..|s| - 1]) * 10 + DigitValue(s[|s| - 1])
  }

  /** Decimal text of a natural number, without leading zeros. */
  function NatToString(n: nat): (r: string)
    ensures r != [] && AllDigits(r)
    ensures DecimalValue(r) == n
    ensures r[0] == '0' ==> n == 0
  {
    var d := ['0', '1', '2', '3', '4', '5', '6', '7', '8', '9'];
    if n < 10 then [d[n]]
    else
      var high := NatToString(n / 10);
      var r := high + [d[n % 10]];
      assert r[..|r| - 1] == high;
      r
  }

  /** `n.toString()` for an integer `n`. */
  function IntToString(n: int): (r: string)
    ensures r != []
    ensures AllDigits(r) <==> n >= 0
    ensures n >= 0 ==> DecimalValue(r) == n
    ensures n < 0 ==> r[0] == '-' && AllDigits(r[1..]) && DecimalValue(r[1..]) == -n
  {
    if n < 0 then
      var r := "-" + NatToString(-n);
      assert r[1..] == NatToString(-n);
      assert !IsDigit(r[0]);
      r
    else NatToString(n)
  }
}

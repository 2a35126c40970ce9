/**
 * `validateInput` (`src/middleware/security.ts`): trim, bound the length,
 * reject what the dangerous-pattern blacklist matches, HTML-escape five
 * characters, then check the email or number shape.
 *
 * The blacklist is a JavaScript regex list; here it is the parameter
 * `dangerous`, an arbitrary predicate on the trimmed text.
 */
module InputValidation {
  import opened Wrappers
  import opened Text

  /** The `type` argument: `'text' | 'email' | 'number'`. */
  datatype InputType = TextInput | EmailInput | NumberInput

  const MaxInputLength := 10000

  /** `{ valid, sanitized, error? }`. */
  datatype Validation = Validation(valid: bool, sanitized: string, error: Option<string>)

  // ---------------------------------------------------------------------------
  // HTML escaping

  /** `s.replace(/c/g, rep)` for a one-character pattern. */
  function ReplaceAll(s: string, c: char, rep: string): string
    decreases |s|
  {
    if s == [] then []
    else (if s[0] == c then rep else [s[0]]) + ReplaceAll(s[1..], c, rep)
  }

  /** The chain of five replacements the code applies, in its order. */
  function EscapeHtml(s: string): string {
    var a := ReplaceAll(s, '<', "&lt;");
    var b := ReplaceAll(a, '>', "&gt;");
    var c := ReplaceAll(b, '"', "&quot;");
    var d := ReplaceAll(c, '\'', "&#x27;");
    ReplaceAll(d, '/', "&#x2F;")
  }

  /** The five characters the escaping removes. */
  predicate IsSpecial(c: char) {
    c == '<' || c == '>' || c == '"' || c == '\'' || c == '/'
  }

  /** The entity that stands for one character (`&` stays as it is). */
  function EscapeChar(c: char): (r: string)
    ensures IsSpecial(c) ==> |r| >= 4 && r[0] == '&' && r[|r| - 1] == ';' && ';' !in r[..|r| - 1] && r[1] != ';'
    ensures !IsSpecial(c) ==> r == [c]
    ensures forall x :: x in r ==> !IsSpecial(x)
  {
    match c
    case '<' => "&lt;"
    case '>' => "&gt;"
    case '"' => "&quot;"
    case '\'' => "&#x27;"
    case '/' => "&#x2F;"
    case _ => [c]
  }

  /** Reference definition: escape every character on its own. */
  function EscapeEach(s: string): string
    decreases |s|
  {
    if s == [] then [] else EscapeChar(s[0]) + EscapeEach(s[1..])
  }

  predicate NoRawSpecials(s: string) {
    forall i :: 0 <= i < |s| ==> !IsSpecial(s[i])
  }

  /** Reverses the five entities; any other text is kept. */
  function Unescape(t: string): string
    decreases |t|
  {
    if t == [] then []
    else if StartsWith(t, "&lt;") then "<" + Unescape(t[4..])
    else if StartsWith(t, "&gt;") then ">" + Unescape(t[4..])
    else if StartsWith(t, "&quot;") then "\"" + Unescape(t[6..])
    else if StartsWith(t, "&#x27;") then "'" + Unescape(t[6..])
    else if StartsWith(t, "&#x2F;") then "/" + Unescape(t[6..])
    else [t[0]] + Unescape(t[1..])
  }

  lemma {:induction false} ReplaceAllConcat(a: string, b: string, c: char, rep: string)
    ensures ReplaceAll(a + b, c, rep) == ReplaceAll(a, c, rep) + ReplaceAll(b, c, rep)
    decreases |a|
  {
    if a == [] {
      assert a + b == b;
    } else {
      assert (a + b)[0] == a[0] && (a + b)[1..] == a[1..] + b;
      ReplaceAllConcat(a[1..], b, c, rep);
    }
  }

  lemma ReplaceAllOne(x: char, c: char, rep: string)
    ensures ReplaceAll([x], c, rep) == if x == c then rep else [x]
  {
    assert [x][1..] == [];
  }

  lemma {:induction false} ReplaceAllAbsent(s: string, c: char, rep: string)
    requires c !in s
    ensures ReplaceAll(s, c, rep) == s
    decreases |s|
  {
    if s != [] {
      ReplaceAllAbsent(s[1..], c, rep);
    }
  }

  /** The five replacements applied to `t`, one result per stage. */
  lemma ChainOn(t: string, a: string, b: string, c: string, d: string, e: string)
    requires a == ReplaceAll(t, '<', "&lt;") && b == ReplaceAll(a, '>', "&gt;")
    requires c == ReplaceAll(b, '"', "&quot;") && d == ReplaceAll(c, '\'', "&#x27;")
    requires e == ReplaceAll(d, '/', "&#x2F;")
    ensures EscapeHtml(t) == e
  {
  }

  lemma EscapeHtmlOneChar(x: char)
    ensures EscapeHtml([x]) == EscapeChar(x)
  {
    var e := EscapeChar(x);
    ReplaceAllOne(x, '<', "&lt;");
    ReplaceAllOne(x, '>', "&gt;");
    ReplaceAllOne(x, '"', "&quot;");
    ReplaceAllOne(x, '\'', "&#x27;");
    ReplaceAllOne(x, '/', "&#x2F;");
    if x == '<' {
      ReplaceAllAbsent(e, '>', "&gt;"); ReplaceAllAbsent(e, '"', "&quot;");
      ReplaceAllAbsent(e, '\'', "&#x27;"); ReplaceAllAbsent(e, '/', "&#x2F;");
      ChainOn([x], e, e, e, e, e);
    } else if x == '>' {
      ReplaceAllAbsent(e, '"', "&quot;"); ReplaceAllAbsent(e, '\'', "&#x27;"); ReplaceAllAbsent(e, '/', "&#x2F;");
      ChainOn([x], [x], e, e, e, e);
    } else if x == '"' {
      ReplaceAllAbsent(e, '\'', "&#x27;"); ReplaceAllAbsent(e, '/', "&#x2F;");
      ChainOn([x], [x], [x], e, e, e);
    } else if x == '\'' {
      ReplaceAllAbsent(e, '/', "&#x2F;");
      ChainOn([x], [x], [x], [x], e, e);
    } else if x == '/' {
      ChainOn([x], [x], [x], [x], [x], e);
    } else {
      ChainOn([x], [x], [x], [x], [x], [x]);
    }
  }

  lemma EscapeHtmlConcat(a: string, b: string)
    ensures EscapeHtml(a + b) == EscapeHtml(a) + EscapeHtml(b)
  {
    var a1, b1 := ReplaceAll(a, '<', "&lt;"), ReplaceAll(b, '<', "&lt;");
    ReplaceAllConcat(a, b, '<', "&lt;");
    var a2, b2 := ReplaceAll(a1, '>', "&gt;"), ReplaceAll(b1, '>', "&gt;");
    ReplaceAllConcat(a1, b1, '>', "&gt;");
    var a3, b3 := ReplaceAll(a2, '"', "&quot;"), ReplaceAll(b2, '"', "&quot;");
    ReplaceAllConcat(a2, b2, '"', "&quot;");
    var a4, b4 := ReplaceAll(a3, '\'', "&#x27;"), ReplaceAll(b3, '\'', "&#x27;");
    ReplaceAllConcat(a3, b3, '\'', "&#x27;");
    ReplaceAllConcat(a4, b4, '/', "&#x2F;");
  }

  /** The chain of replacements escapes each character independently: no
    * later replacement rewrites the entity an earlier one produced. */
  lemma {:induction false} EscapeHtmlIsPerCharacter(s: string)
    ensures EscapeHtml(s) == EscapeEach(s)
    decreases |s|
  {
    if s == [] {
      assert EscapeHtml(s) == [];
    } else {
      assert s == [s[0]] + s[1..];
      EscapeHtmlConcat([s[0]], s[1..]);
      EscapeHtmlOneChar(s[0]);
      EscapeHtmlIsPerCharacter(s[1..]);
    }
  }

  /** Escaped text contains none of `< > " ' /`. */
  lemma {:induction false} EscapedHasNoSpecials(s: string)
    ensures NoRawSpecials(EscapeEach(s))
    decreases |s|
  {
    if s != [] {
      EscapedHasNoSpecials(s[1..]);
      var h, t := EscapeChar(s[0]), EscapeEach(s[1..]);
      forall i | 0 <= i < |h + t| ensures !IsSpecial((h + t)[i]) {
        if i < |h| { assert (h + t)[i] == h[i] && h[i] in h; } else { assert (h + t)[i] == t[i - |h|]; }
      }
    }
  }

  lemma UnescapeNotEntity(c: char, rest: string)
    requires c != '&'
    ensures Unescape([c] + rest) == [c] + Unescape(rest)
  {
    var t := [c] + rest;
    assert t[0] == c && t[1..] == rest;
    assert !StartsWith(t, "&lt;") && !StartsWith(t, "&gt;") && !StartsWith(t, "&quot;");
    assert !StartsWith(t, "&#x27;") && !StartsWith(t, "&#x2F;");
  }

  /** An entity produced by the escaping is read back as its character: the
    * entities differ in their second or fifth character, so no earlier branch
    * of `Unescape` applies. */
  lemma UnescapeOneEntity(c: char, rest: string)
    requires c != '&'
    ensures Unescape(EscapeChar(c) + rest) == [c] + Unescape(rest)
  {
    if IsSpecial(c) {
      var e := EscapeChar(c);
      var t := e + rest;
      assert t[..|e|] == e && t[|e|..] == rest;
      assert t[1] == e[1];
      assert |e| > 4 ==> t[4] == e[4];
    } else {
      UnescapeNotEntity(c, rest);
    }
  }

  /** `Unescape` inverts the escaping on text without `&`. */
  lemma {:induction false} UnescapeEscaped(s: string)
    requires '&' !in s
    ensures Unescape(EscapeEach(s)) == s
    decreases |s|
  {
    if s != [] {
      UnescapeOneEntity(s[0], EscapeEach(s[1..]));
      UnescapeEscaped(s[1..]);
    }
  }

  /** `&` is not escaped, so the inverse cannot exist for all text: a literal
    * `&lt;` and a `<` escape to the same string. */
  lemma AmpersandMakesEscapingLossy()
    ensures EscapeEach("&lt;") == EscapeEach("<")
  {
    assert EscapeEach("&lt;") == "&" + EscapeEach("lt;");
  }

  // ---------------------------------------------------------------------------
  // Shape checks

  /** Length of the match of `/&[^;]+;/` at the start of `s`, if any. */
  function EntityMatch(s: string): (n: Option<nat>)
    ensures n.Some? ==> 3 <= n.value <= |s| && s[0] == '&' && s[n.value - 1] == ';'
                        && ';' !in s[1..n.value - 1]
    ensures n.None? ==> forall k :: 2 <= k < |s| && s[0] == '&' && s[k] == ';' ==> ';' in s[1..k]
  {
    if |s| < 2 || s[0] != '&' || s[1] == ';' then None
    else
      var j := |TakeUntil(s[1..], ';')|;
      if j < |s[1..]| then Some(j + 2) else None
  }

  /** `s.replace(/&[^;]+;/g, '')`: delete, left to right, every `&` followed
    * by at least one non-`;` character and a `;`. */
  function StripEntities(s: string): string
    decreases |s|
  {
    if s == [] then []
    else match EntityMatch(s)
      case Some(n) => StripEntities(s[n..])
      case None => [s[0]] + StripEntities(s[1..])
  }

  /** `/^[^\s@]+@[^\s@]+\.[^\s@]+$/`: no whitespace, one `@` after a
    * non-empty local part, and a `.` in the domain with text on both sides. */
  predicate EmailRegex(t: string) {
    && NoWhitespace(t)
    && exists at, dot :: 0 < at && at + 1 < dot < |t| - 1 && t[at] == '@' && t[dot] == '.'
                         && (forall i :: 0 <= i < |t| && i != at ==> t[i] != '@')
  }

  /** `/^[0-9]+$/`. */
  predicate NumberRegex(t: string) {
    t != [] && AllDigits(t)
  }

  /** `validateInput(input, type)`. A rejection always carries an empty
    * `sanitized`; an acceptance carries the escaped trimmed text. */
  function ValidateInput(input: string, kind: InputType, dangerous: string -> bool): (r: Validation)
    ensures !r.valid ==> r.sanitized == [] && r.error.Some?
    ensures AllWhitespace(input) ==> !r.valid
    // each rejection, in the order the checks run, with its message
    ensures input == [] ==> r == Validation(false, [], Some("Input is required"))
    ensures input != [] && AllWhitespace(input) ==> r == Validation(false, [], Some("Input cannot be empty"))
    ensures |Trim(input)| > MaxInputLength ==> r == Validation(false, [], Some("Input too long"))
    ensures !AllWhitespace(input) && |Trim(input)| <= MaxInputLength && dangerous(Trim(input)) ==>
              r == Validation(false, [], Some("Invalid characters detected"))
    ensures !AllWhitespace(input) && |Trim(input)| <= MaxInputLength && !dangerous(Trim(input)) ==>
              var sanitized := EscapeEach(Trim(input));
              && (kind == EmailInput && !EmailRegex(StripEntities(sanitized)) ==>
                    r == Validation(false, [], Some("Invalid email format")))
              && (kind == NumberInput && !NumberRegex(sanitized) ==>
                    r == Validation(false, [], Some("Invalid number format")))
              && (|| kind == TextInput
                  || (kind == EmailInput && EmailRegex(StripEntities(sanitized)))
                  || (kind == NumberInput && NumberRegex(sanitized)) ==>
                    r == Validation(true, sanitized, None))
    ensures r.valid ==> && r.error.None?
                        && 0 < |Trim(input)| <= MaxInputLength
                        && !dangerous(Trim(input))
                        && r.sanitized == EscapeEach(Trim(input))
                        && NoRawSpecials(r.sanitized)
    ensures r.valid && '&' !in input ==> Unescape(r.sanitized) == Trim(input)
    ensures r.valid && kind == EmailInput ==> EmailRegex(StripEntities(r.sanitized))
    ensures r.valid && kind == NumberInput ==> NumberRegex(r.sanitized)
  {
    if input == [] then Validation(false, [], Some("Input is required"))
    else
      var trimmed := Trim(input);
      if |trimmed| == 0 then Validation(false, [], Some("Input cannot be empty"))
      else if |trimmed| > MaxInputLength then Validation(false, [], Some("Input too long"))
      else if dangerous(trimmed) then Validation(false, [], Some("Invalid characters detected"))
      else
        var sanitized := EscapeHtml(trimmed);
        EscapeHtmlIsPerCharacter(trimmed);
        EscapedHasNoSpecials(trimmed);
        if '&' !in input then
          assert forall c :: c in trimmed ==> c in input;
          UnescapeEscaped(trimmed);
          ShapeChecks(input, kind, trimmed, sanitized)
        else
          ShapeChecks(input, kind, trimmed, sanitized)
  }

  /** The email and number checks on the escaped text. */
  function ShapeChecks(input: string, kind: InputType, trimmed: string, sanitized: string): (r: Validation)
    ensures !r.valid ==> r.sanitized == [] && r.error.Some?
    ensures r.valid ==> r == Validation(true, sanitized, None)
    ensures kind == EmailInput && !EmailRegex(StripEntities(sanitized)) ==>
              r == Validation(false, [], Some("Invalid email format"))
    ensures kind == NumberInput && !NumberRegex(sanitized) ==>
              r == Validation(false, [], Some("Invalid number format"))
    ensures r.valid <==> && (kind == EmailInput ==> EmailRegex(StripEntities(sanitized)))
                         && (kind == NumberInput ==> NumberRegex(sanitized))
    ensures r.valid && kind == EmailInput ==> EmailRegex(StripEntities(sanitized))
    ensures r.valid && kind == NumberInput ==> NumberRegex(sanitized)
  {
    if kind == EmailInput && !EmailRegex(StripEntities(sanitized)) then
      Validation(false, [], Some("Invalid email format"))
    else if kind == NumberInput && !NumberRegex(sanitized) then
      Validation(false, [], Some("Invalid number format"))
    else Validation(true, sanitized, None)
  }
}

/** Consequences of `validateInput`'s definition for its three input types. */
module InputValidationProperties {
  import opened Wrappers
  import opened Text
  import opened InputValidation

  /** Escaped text is all digits only when nothing was escaped. */
  lemma {:induction false} DigitsWereNotEscaped(s: string)
    requires AllDigits(EscapeEach(s))
    ensures EscapeEach(s) == s
    decreases |s|
  {
    if s != [] {
      var h, t := EscapeChar(s[0]), EscapeEach(s[1..]);
      assert (h + t)[0] == h[0];
      assert AllDigits(t) by {
        forall i | 0 <= i < |t| ensures IsDigit(t[i]) { assert (h + t)[|h| + i] == t[i]; }
      }
      DigitsWereNotEscaped(s[1..]);
    }
  }

  /** A number is accepted only as a non-empty run of ASCII digits, which is
    * then passed on exactly as trimmed. */
  lemma NumberAcceptedAsIs(input: string, dangerous: string -> bool)
    requires ValidateInput(input, NumberInput, dangerous).valid
    ensures var r := ValidateInput(input, NumberInput, dangerous);
            r.sanitized == Trim(input) && NumberRegex(Trim(input))
  {
    DigitsWereNotEscaped(Trim(input));
  }

  /** Text without any of the five special characters escapes to itself. */
  lemma {:induction false} PlainTextUnescaped(s: string)
    requires NoRawSpecials(s)
    ensures EscapeEach(s) == s
    decreases |s|
  {
    if s != [] {
      PlainTextUnescaped(s[1..]);
    }
  }

  /** A number is accepted exactly when it is non-blank, within the length
    * bound, not matched by the blacklist, and its trimmed text is a
    * non-empty run of ASCII digits. */
  lemma NumberAcceptance(input: string, dangerous: string -> bool)
    ensures ValidateInput(input, NumberInput, dangerous).valid <==>
              && !AllWhitespace(input)
              && |Trim(input)| <= MaxInputLength
              && !dangerous(Trim(input))
              && NumberRegex(Trim(input))
  {
    var t := Trim(input);
    if ValidateInput(input, NumberInput, dangerous).valid {
      NumberAcceptedAsIs(input, dangerous);
    }
    if NumberRegex(t) {
      PlainTextUnescaped(t);
      EscapeHtmlIsPerCharacter(t);
    }
  }

  /** Plain text is accepted exactly when it is non-blank, within the length
    * bound and not matched by the blacklist. */
  lemma TextAcceptance(input: string, dangerous: string -> bool)
    ensures ValidateInput(input, TextInput, dangerous).valid <==>
              && !AllWhitespace(input)
              && |Trim(input)| <= MaxInputLength
              && !dangerous(Trim(input))
  {
  }

  /** The text minus the five escaped characters. */
  function DropSpecials(s: string): string
    decreases |s|
  {
    if s == [] then [] else (if IsSpecial(s[0]) then [] else [s[0]]) + DropSpecials(s[1..])
  }

  lemma {:induction false} TakeUntilFirst(a: string, c: char, b: string)
    requires c !in a
    ensures TakeUntil(a + [c] + b, c) == a
    decreases |a|
  {
    if a == [] {
      assert (a + [c] + b)[0] == c;
    } else {
      assert (a + [c] + b)[1..] == a[1..] + [c] + b;
      TakeUntilFirst(a[1..], c, b);
    }
  }

  lemma StripAfterEntity(c: char, rest: string)
    requires IsSpecial(c)
    ensures StripEntities(EscapeChar(c) + rest) == StripEntities(rest)
  {
    var e := EscapeChar(c);
    var t := e + rest;
    var inner := e[1..|e| - 1];
    assert e[|e| - 1] == ';';
    assert e == [e[0]] + inner + [e[|e| - 1]];
    assert t[1..] == inner + [';'] + rest;
    TakeUntilFirst(inner, ';', rest);
    assert EntityMatch(t) == Some(|e|);
    assert t[|e|..] == rest;
  }

  /** On text without `&` or `;`, removing the entities from the escaped text
    * gives the text with the five special characters deleted. */
  lemma {:induction false} StripEscaped(s: string)
    requires '&' !in s && ';' !in s
    ensures StripEntities(EscapeEach(s)) == DropSpecials(s)
    decreases |s|
  {
    if s != [] {
      var rest := EscapeEach(s[1..]);
      if IsSpecial(s[0]) {
        StripAfterEntity(s[0], rest);
      } else {
        var t := [s[0]] + rest;
        assert EntityMatch(t) == None;
        assert t[1..] == rest;
      }
      StripEscaped(s[1..]);
    }
  }

  /** So the email check tests the trimmed input with `< > " ' /` deleted: an
    * input without `&` or `;` is accepted as an email iff that text matches
    * the email pattern (and the input passes the earlier checks). */
  lemma EmailCheckIgnoresSpecials(input: string, dangerous: string -> bool)
    requires '&' !in input && ';' !in input
    requires !AllWhitespace(input) && |Trim(input)| <= MaxInputLength && !dangerous(Trim(input))
    ensures ValidateInput(input, EmailInput, dangerous).valid <==> EmailRegex(DropSpecials(Trim(input)))
  {
    var t := Trim(input);
    assert forall c :: c in t ==> c in input;
    EscapeHtmlIsPerCharacter(t);
    StripEscaped(t);
  }
}

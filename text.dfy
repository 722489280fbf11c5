/** String helpers with the semantics of the Java and JavaScript library
    calls the modelled code relies on: decimal formatting (`%d`,
    `Long.toString`), decimal parsing (`Integer.parseInt`, `Long.valueOf`)
    of ASCII digits, `startsWith`, `contains`, Java `trim`, JavaScript
    `trim` and Java `equalsIgnoreCase` against a lower-case ASCII word.
 */
module Text {
  import opened Wrappers

  /** The text of a possibly-null string when it is concatenated or
      substituted: Java's `String.valueOf`, `%s` and JavaScript's `'' + x`
      all give "null" for a null reference. */
  function StringOf(s: Option<string>): (r: string)
    ensures s.Some? ==> r == s.value
    ensures s.None? ==> r == "null"
  {
    match s
    case Some(v) => v
    case None => "null"
  }

  predicate IsDigit(c: char) { '0' <= c <= '9' }

  function DigitChar(d: nat): (c: char)
    requires d < 10
    ensures IsDigit(c) && c as int - '0' as int == d
  {
    ('0' as int + d) as char
  }

  function DigitValue(c: char): (d: nat)
    requires IsDigit(c)
    ensures d < 10 && DigitChar(d) == c
  {
    c as int - '0' as int
  }

  predicate AllDigits(s: string) { forall i :: 0 <= i < |s| ==> IsDigit(s[i]) }

  /** Decimal digits of `n`, most significant first, without leading zeros. */
  function NatToString(n: nat): (s: string)
    ensures |s| > 0 && AllDigits(s)
    ensures s[0] == '0' ==> n == 0 && s == "0"
    decreases n
  {
    if n < 10 then [DigitChar(n)] else NatToString(n / 10) + [DigitChar(n % 10)]
  }

  /** Java's `Long.toString` / `String.format("%d")` for a Java locale with ASCII digits. */
  function IntToString(i: int): (s: string)
    ensures |s| > 0
    ensures forall k :: 0 <= k < |s| ==> IsDigit(s[k]) || s[k] == '-'
  {
    if i < 0 then "-" + NatToString(-i) else NatToString(i)
  }

  /** Value of a non-empty run of decimal digits (leading zeros allowed). */
  function DigitsValue(s: string): nat
    requires AllDigits(s)
    decreases |s|
  {
    if s == [] then 0 else DigitsValue(s[..|s| - 1]) * 10 + DigitValue(s[|s| - 1])
  }

  lemma {:induction false} DigitsValueOfNatToString(n: nat)
    ensures DigitsValue(NatToString(n)) == n
    decreases n
  {
    var s := NatToString(n);
    if n >= 10 {
      DigitsValueOfNatToString(n / 10);
      assert s[..|s| - 1] == NatToString(n / 10);
    }
  }

  /** Decimal parsing as `Long.parseLong`/`Integer.parseInt` do it for ASCII
      text, without the range check: an optional sign, then at least one
      ASCII digit, nothing else. Java also accepts the other Unicode decimal
      digits; those are refused here. */
  function ParseInteger(s: string): (r: Option<int>)
    ensures r.Some? <==> (|s| > 0 && ((s[0] == '-' || s[0] == '+') ==> |s| > 1) &&
                          (AllDigits(s) || ((s[0] == '-' || s[0] == '+') && AllDigits(s[1..]))))
  {
    if |s| == 0 then None
    else if (s[0] == '-' || s[0] == '+') && |s| > 1 && AllDigits(s[1..]) then
      var v: int := DigitsValue(s[1..]);
      Some(if s[0] == '-' then -v else v)
    else if AllDigits(s) then Some(DigitsValue(s))
    else None
  }

  const INT_MIN: int := -0x8000_0000
  const INT_MAX: int := 0x7FFF_FFFF
  const LONG_MIN: int := -0x8000_0000_0000_0000
  const LONG_MAX: int := 0x7FFF_FFFF_FFFF_FFFF

  /** `Integer.parseInt`: fails (NumberFormatException) outside the 32-bit range. */
  function ParseJavaInt(s: string): (r: Option<int>)
    ensures r.Some? ==> INT_MIN <= r.value <= INT_MAX && ParseInteger(s) == r
  {
    match ParseInteger(s)
    case Some(v) => if INT_MIN <= v <= INT_MAX then Some(v) else None
    case None => None
  }

  /** `Long.valueOf(String)`: fails outside the 64-bit range. */
  function ParseJavaLong(s: string): (r: Option<int>)
    ensures r.Some? ==> LONG_MIN <= r.value <= LONG_MAX && ParseInteger(s) == r
  {
    match ParseInteger(s)
    case Some(v) => if LONG_MIN <= v <= LONG_MAX then Some(v) else None
    case None => None
  }

  /** Printing an integer and parsing it back gives the integer. */
  lemma IntToStringRoundTrip(i: int)
    ensures ParseInteger(IntToString(i)) == Some(i)
  {
    DigitsValueOfNatToString(if i < 0 then -i else i);
    if i < 0 {
      assert IntToString(i)[1..] == NatToString(-i);
    }
  }

  /** `IntToString` is injective, so ids printed into keys never collide. */
  lemma IntToStringInjective(a: int, b: int)
    requires IntToString(a) == IntToString(b)
    ensures a == b
  {
    IntToStringRoundTrip(a);
    IntToStringRoundTrip(b);
  }

  /** `s.startsWith(p)`. */
  predicate StartsWith(s: string, p: string) { |p| <= |s| && s[..|p|] == p }

  /** `s.contains(sub)`: `sub` occurs in `s` at some position. */
  predicate Contains(s: string, sub: string)
    decreases |s|
  {
    StartsWith(s, sub) || (|s| > 0 && Contains(s[1..], sub))
  }

  lemma {:induction false} ContainsAt(s: string, sub: string, i: nat)
    requires i + |sub| <= |s| && s[i..i + |sub|] == sub
    ensures Contains(s, sub)
    decreases i
  {
    if i > 0 {
      assert s[1..][i - 1..i - 1 + |sub|] == s[i..i + |sub|];
      ContainsAt(s[1..], sub, i - 1);
    }
  }

  lemma {:induction false} ContainsWitness(s: string, sub: string) returns (i: nat)
    requires Contains(s, sub)
    ensures i + |sub| <= |s| && s[i..i + |sub|] == sub
    decreases |s|
  {
    if StartsWith(s, sub) {
      i := 0;
    } else {
      var j := ContainsWitness(s[1..], sub);
      assert s[1..][j..j + |sub|] == s[j + 1..j + 1 + |sub|];
      i := j + 1;
    }
  }

  /** The empty string occurs in every string; every string occurs in itself. */
  lemma ContainsTrivia(s: string)
    ensures Contains(s, "") && Contains(s, s)
  {
    assert StartsWith(s, "");
    assert StartsWith(s, s);
  }

  // ---- Java String.trim(): drops leading and trailing characters <= U+0020 ----

  predicate JavaTrimmable(c: char) { c <= ' ' }

  function JavaTrimStart(s: string): (r: string)
    ensures |r| <= |s| && r == s[|s| - |r|..]
    ensures |r| > 0 ==> !JavaTrimmable(r[0])
    ensures forall i :: 0 <= i < |s| - |r| ==> JavaTrimmable(s[i])
    decreases |s|
  {
    if |s| > 0 && JavaTrimmable(s[0]) then JavaTrimStart(s[1..]) else s
  }

  function JavaTrimEnd(s: string): (r: string)
    ensures |r| <= |s| && r == s[..|r|]
    ensures |r| > 0 ==> !JavaTrimmable(r[|r| - 1])
    ensures forall i :: |r| <= i < |s| ==> JavaTrimmable(s[i])
    decreases |s|
  {
    if |s| > 0 && JavaTrimmable(s[|s| - 1]) then JavaTrimEnd(s[..|s| - 1]) else s
  }

  function JavaTrim(s: string): string { JavaTrimEnd(JavaTrimStart(s)) }

  /** `s.trim().isEmpty()` holds exactly when every character is <= U+0020. */
  lemma JavaTrimEmpty(s: string)
    ensures JavaTrim(s) == "" <==> forall i :: 0 <= i < |s| ==> JavaTrimmable(s[i])
  {
    var t := JavaTrimStart(s);
    if |t| > 0 {
      assert t[0] == s[|s| - |t|];
    }
  }

  // ---- JavaScript String.prototype.trim(): WhiteSpace and LineTerminator ----

  predicate JsWhitespace(c: char) {
    c == '\t' || c == '\n' || c == '\U{B}' || c == '\U{C}' || c == '\r' || c == ' ' ||
    c == '\U{A0}' || c == '\U{1680}' || ('\U{2000}' <= c <= '\U{200A}') ||
    c == '\U{2028}' || c == '\U{2029}' || c == '\U{202F}' || c == '\U{205F}' ||
    c == '\U{3000}' || c == '\U{FEFF}'
  }

  /** `!s.trim()` in JavaScript: the trimmed string is empty (falsy). */
  predicate JsBlank(s: string) { forall i :: 0 <= i < |s| ==> JsWhitespace(s[i]) }

  // ---- Java String.equalsIgnoreCase against a lower-case ASCII word ----

  predicate IsLowerAscii(c: char) { 'a' <= c <= 'z' }

  function UpperAscii(c: char): char
    requires IsLowerAscii(c)
  {
    (c as int - 32) as char
  }

  /** Java compares characters after `toUpperCase` and then `toLowerCase`. Besides the
      two ASCII cases, four non-ASCII characters fold onto an ASCII letter:
      U+0130 and U+0131 onto i, U+017F onto s and U+212A onto k. */
  predicate CharMatchesIgnoreCase(c: char, t: char)
    requires IsLowerAscii(t)
  {
    c == t || c == UpperAscii(t) ||
    (t == 'i' && (c == '\U{130}' || c == '\U{131}')) ||
    (t == 's' && c == '\U{17F}') ||
    (t == 'k' && c == '\U{212A}')
  }

  predicate LowerWord(w: string) { forall i :: 0 <= i < |w| ==> IsLowerAscii(w[i]) }

  /** `w.equalsIgnoreCase(s)` for a lower-case ASCII word `w` and a non-null `s`. */
  predicate EqualsIgnoreCase(s: string, w: string)
    requires LowerWord(w)
  {
    |s| == |w| && forall i :: 0 <= i < |s| ==> CharMatchesIgnoreCase(s[i], w[i])
  }

  lemma EqualsIgnoreCaseReflexive(w: string)
    requires LowerWord(w)
    ensures EqualsIgnoreCase(w, w)
  {
  }
}

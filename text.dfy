/**
 * The few string primitives of Java and JavaScript that the modelled code relies on:
 * Java's `trim().isEmpty()`, JavaScript's `String.prototype.trim`, the regular-expression
 * classes it uses, and the decimal rendering of an id.
 */
module Text {

  /** Java's `s.trim().isEmpty()`: `String.trim` strips every char at or below U+0020. */
  predicate IsJavaBlank(s: string)
  {
    forall i :: 0 <= i < |s| ==> s[i] <= ' '
  }

  /** JavaScript LineTerminator: what the regular-expression `.` does not match. */
  predicate IsLineTerminator(c: char)
  {
    c == '\n' || c == '\r' || c == '\U{2028}' || c == '\U{2029}'
  }

  /** JavaScript WhiteSpace or LineTerminator: what `String.prototype.trim` strips. */
  predicate IsJsWhitespace(c: char)
  {
    || IsLineTerminator(c)
    || c == '\t' || c == '\U{000B}' || c == '\U{000C}' || c == ' '
    || c == '\U{00A0}' || c == '\U{1680}' || ('\U{2000}' <= c <= '\U{200A}')
    || c == '\U{202F}' || c == '\U{205F}' || c == '\U{3000}' || c == '\U{FEFF}'
  }

  /** Drops leading JavaScript whitespace. */
  function TrimStart(s: string): (r: string)
    ensures |r| <= |s| && r == s[|s| - |r|..]
    ensures forall i :: 0 <= i < |s| - |r| ==> IsJsWhitespace(s[i])
    ensures r == [] || !IsJsWhitespace(r[0])
  {
    if s != [] && IsJsWhitespace(s[0]) then TrimStart(s[1..]) else s
  }

  /** Drops trailing JavaScript whitespace. */
  function TrimEnd(s: string): (r: string)
    ensures |r| <= |s| && r == s[..|r|]
    ensures forall i :: |r| <= i < |s| ==> IsJsWhitespace(s[i])
    ensures r == [] || !IsJsWhitespace(r[|r| - 1])
  {
    if s != [] && IsJsWhitespace(s[|s| - 1]) then TrimEnd(s[..|s| - 1]) else s
  }

  /** JavaScript's `s.trim()`. */
  function JsTrim(s: string): string
  {
    TrimEnd(TrimStart(s))
  }

  /** How many chars `s.trim()` removes from the front of `s`. */
  function LeadingWhitespace(s: string): nat
  {
    |s| - |TrimStart(s)|
  }

  /**
   * `s.trim()` is the slice of `s` left after removing the whitespace at both ends:
   * it starts and ends with a non-whitespace char, and only whitespace was removed.
   */
  lemma JsTrimIsCore(s: string)
    ensures var t, lo := JsTrim(s), LeadingWhitespace(s);
      && lo + |t| <= |s| && t == s[lo..lo + |t|]
      && (t == [] || (!IsJsWhitespace(t[0]) && !IsJsWhitespace(t[|t| - 1])))
      && (forall i :: 0 <= i < lo ==> IsJsWhitespace(s[i]))
      && (forall i :: lo + |t| <= i < |s| ==> IsJsWhitespace(s[i]))
  {
    var u := TrimStart(s);
    var t := TrimEnd(u);
    var lo := |s| - |u|;
    assert u == s[lo..];
    assert t == u[..|t|];
    assert t == s[lo..lo + |t|];
    if t != [] {
      assert t[0] == u[0];
    }
    forall i | lo + |t| <= i < |s|
      ensures IsJsWhitespace(s[i])
    {
      assert s[i] == u[i - lo];
    }
  }

  /** `s.trim()` is empty exactly when every char of `s` is JavaScript whitespace. */
  lemma JsTrimEmptyIffAllWhitespace(s: string)
    ensures JsTrim(s) == [] <==> forall i :: 0 <= i < |s| ==> IsJsWhitespace(s[i])
  {
  }

  /** A string with no whitespace at either end is its own trim. */
  lemma {:induction false} JsTrimOfTrimmed(s: string)
    requires s == [] || (!IsJsWhitespace(s[0]) && !IsJsWhitespace(s[|s| - 1]))
    ensures JsTrim(s) == s
  {
  }

  /** The digit char for `d`. */
  function DigitChar(d: nat): char
    requires d < 10
  {
    ('0' as int + d) as char
  }

  /** Decimal rendering of a non-negative integer, as Java's `Long.toString` and JavaScript's template literals produce it. */
  function DecimalString(n: nat): (r: string)
    ensures |r| >= 1 && (n >= 10 <==> |r| >= 2)
    ensures forall i :: 0 <= i < |r| ==> '0' <= r[i] <= '9'
  {
    if n < 10 then [DigitChar(n)] else DecimalString(n / 10) + [DigitChar(n % 10)]
  }

  /** Distinct numbers render to distinct strings. */
  lemma {:induction false} DecimalStringInjective(a: nat, b: nat)
    requires DecimalString(a) == DecimalString(b)
    ensures a == b
  {
    var s := DecimalString(a);
    if a >= 10 {
      assert b >= 10;
      assert DigitChar(a % 10) == s[|s| - 1] == DigitChar(b % 10);
      assert DecimalString(a / 10) == s[..|s| - 1] == DecimalString(b / 10);
      DecimalStringInjective(a / 10, b / 10);
    } else {
      assert b < 10;
      assert DigitChar(a) == DigitChar(b);
    }
  }
}

/** When JavaScript's `parseFloat` yields `NaN`.

    `parseFloat(s)` skips leading white space and then reads the longest prefix that is a
    decimal literal: an optional sign followed by `Infinity`, by a digit, or by a point
    and a digit. It is `NaN` exactly when no such prefix exists. The numeric VALUE it
    reads is not modelled here (it is part of the calculator's abstract arithmetic). */
module NumberParsing {
  import opened Text

  /** A `StrWhiteSpaceChar`: white space (tab, vertical tab, form feed, the byte order mark and
      every space separator) or a line terminator. */
  predicate IsStrWhiteSpace(c: char) {
    || c == '\t' || c == '\U{000B}' || c == '\U{000C}' || c == '\U{FEFF}'
    || c == ' ' || c == '\U{00A0}' || c == '\U{1680}' || ('\U{2000}' <= c <= '\U{200A}')
    || c == '\U{202F}' || c == '\U{205F}' || c == '\U{3000}'
    || c == '\n' || c == '\r' || c == '\U{2028}' || c == '\U{2029}'
  }

  predicate IsDecimalDigit(c: char) {
    '0' <= c <= '9'
  }

  /** The string with its leading white space removed. */
  function TrimStart(s: string): (r: string)
    ensures |r| <= |s| && r == s[|s| - |r|..]
    ensures r == [] || !IsStrWhiteSpace(r[0])
    ensures forall i :: 0 <= i < |s| - |r| ==> IsStrWhiteSpace(s[i])
  {
    if s != [] && IsStrWhiteSpace(s[0]) then TrimStart(s[1..]) else s
  }

  /** Some non-empty prefix of `t` is an unsigned decimal literal. */
  predicate StartsUnsignedLiteral(t: string) {
    || "Infinity" <= t
    || (|t| > 0 && IsDecimalDigit(t[0]))
    || (|t| > 1 && t[0] == '.' && IsDecimalDigit(t[1]))
  }

  /** `!isNaN(parseFloat(s))`. Text that is empty or all white space never parses, and
      text that parses starts, after its white space, with a sign, a digit, a point or the
      `I` of `Infinity`. */
  predicate ParsesAsNumber(s: string): (ok: bool)
    ensures ok ==> var t := TrimStart(s); t != "" && (t[0] in "+-.I" || IsDecimalDigit(t[0]))
  {
    var t := TrimStart(s);
    if |t| > 0 && (t[0] == '+' || t[0] == '-') then StartsUnsignedLiteral(t[1..])
    else StartsUnsignedLiteral(t)
  }

  predicate StartsWithDigit(s: string) {
    s != "" && IsDecimalDigit(s[0])
  }

  /** Text that starts with a digit parses. */
  lemma LeadingDigitParses(s: string)
    requires StartsWithDigit(s)
    ensures ParsesAsNumber(s)
  {
  }

  /** A character the calculator's keypad can type into an operand. */
  predicate IsKeypadChar(c: char) {
    IsDecimalDigit(c) || c == '.'
  }

  /** An operand typed on the keypad: digits and at most one decimal point. */
  predicate IsKeypadOperand(s: string) {
    && (forall i :: 0 <= i < |s| ==> IsKeypadChar(s[i]))
    && AtMostOnePoint(s)
  }

  /** A keypad operand parses exactly when it is neither empty nor a lone point. */
  lemma KeypadOperandParses(s: string)
    requires IsKeypadOperand(s)
    ensures ParsesAsNumber(s) <==> s != "" && s != "."
  {
    if s == [] {
      assert TrimStart(s) == s;
    } else {
      assert !IsStrWhiteSpace(s[0]);
      assert TrimStart(s) == s;
      assert s[0] != '+' && s[0] != '-';
      assert s[0] != 'I';
      if s[0] == '.' && |s| > 1 {
        assert s == [s[0], s[1]] + s[2..];
        assert s[1] == '.' ==> multiset(s)['.'] >= 2;
        assert IsDecimalDigit(s[1]);
      }
    }
  }
}

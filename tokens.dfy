/**
 * The lexical token rules of grammar.js as languages: each predicate holds
 * exactly for the strings the rule's regular expression matches as a whole.
 * Where a rule puts two parts one after the other, the predicate names the
 * split point `k` between `s[..k]` and `s[k..]`; an optional part is either
 * empty or an instance of that part.
 */
module Tokens {
  import opened Chars

  // ---------------------------------------------------------------------
  // number
  // ---------------------------------------------------------------------

  /** Any number of decimal digits and underscores. */
  predicate DigitsOrUnderscores(s: string) {
    forall i :: 0 <= i < |s| ==> IsDigit(s[i]) || s[i] == '_'
  }

  /** Any number of hexadecimal digits and underscores. */
  predicate HexDigitsOrUnderscores(s: string) {
    forall i :: 0 <= i < |s| ==> IsHexDigit(s[i]) || s[i] == '_'
  }

  /** Any number of binary digits and underscores. */
  predicate BinDigitsOrUnderscores(s: string) {
    forall i :: 0 <= i < |s| ==> IsBinDigit(s[i]) || s[i] == '_'
  }

  /** A decimal integer: a digit, then digits and underscores. */
  predicate IsDecimal(s: string) {
    |s| >= 1 && IsDigit(s[0]) && DigitsOrUnderscores(s[1..])
  }

  /** A hexadecimal integer: `0x` or `0X`, a hex digit, then hex digits and underscores. */
  predicate IsHex(s: string) {
    |s| >= 3 && s[0] == '0' && (s[1] == 'x' || s[1] == 'X') && IsHexDigit(s[2]) && HexDigitsOrUnderscores(s[3..])
  }

  /** A binary integer: `0b` or `0B`, a binary digit, then binary digits and underscores. */
  predicate IsBin(s: string) {
    |s| >= 3 && s[0] == '0' && (s[1] == 'b' || s[1] == 'B') && IsBinDigit(s[2]) && BinDigitsOrUnderscores(s[3..])
  }

  /** The integer part of a number: decimal, hexadecimal or binary. */
  predicate IsIntegerPart(s: string) {
    IsDecimal(s) || IsHex(s) || IsBin(s)
  }

  predicate IsUnsignedMark(c: char) { c == 'u' || c == 'U' }

  predicate IsLongMark(c: char) { c == 'l' || c == 'L' }

  /** An integer suffix: nothing, an unsigned mark, a long mark, or an unsigned mark then a long mark. */
  predicate IsIntegerSuffix(s: string) {
    || |s| == 0
    || (|s| == 1 && (IsUnsignedMark(s[0]) || IsLongMark(s[0])))
    || (|s| == 2 && IsUnsignedMark(s[0]) && IsLongMark(s[1]))
  }

  /** The integer part ends at `k` and the suffix is the rest. */
  predicate NumberSplit(s: string, k: nat) {
    k <= |s| && IsIntegerPart(s[..k]) && IsIntegerSuffix(s[k..])
  }

  /** The `number` token. */
  predicate IsNumberToken(s: string) {
    exists k :: 0 <= k <= |s| && NumberSplit(s, k)
  }

  /**
   * The length of the suffix read off the end of `s`: the longest tail of
   * `s` that has the shape of a suffix.
   */
  function SuffixLength(s: string): (n: nat)
    ensures n <= |s| && IsIntegerSuffix(s[|s| - n..])
  {
    if |s| >= 2 && IsUnsignedMark(s[|s| - 2]) && IsLongMark(s[|s| - 1]) then 2
    else if |s| >= 1 && (IsUnsignedMark(s[|s| - 1]) || IsLongMark(s[|s| - 1])) then 1
    else 0
  }

  // ---------------------------------------------------------------------
  // float
  // ---------------------------------------------------------------------

  /** Nothing, or a decimal integer. */
  predicate IsOptDecimal(s: string) {
    s == "" || IsDecimal(s)
  }

  /** An exponent: `e` or `E`, an optional sign, then a decimal integer. */
  predicate IsExponent(s: string) {
    && |s| >= 2
    && (s[0] == 'e' || s[0] == 'E')
    && (IsDecimal(s[1..]) || ((s[1] == '+' || s[1] == '-') && IsDecimal(s[2..])))
  }

  /** Nothing, or an exponent. */
  predicate IsOptExponent(s: string) {
    s == "" || IsExponent(s)
  }

  /** `decimal` ends at `j` of `t` and an optional exponent follows. */
  predicate DecimalOptExponentSplit(t: string, j: nat) {
    1 <= j <= |t| && IsDecimal(t[..j]) && IsOptExponent(t[j..])
  }

  /** A decimal integer followed by an optional exponent. */
  predicate IsDecimalOptExponent(t: string) {
    exists j :: 0 <= j <= |t| && DecimalOptExponentSplit(t, j)
  }

  /** The point form of a float, with its point at `i`. */
  predicate PointSplit(s: string, i: nat) {
    i < |s| && s[i] == '.' && IsOptDecimal(s[..i]) && IsDecimalOptExponent(s[i + 1..])
  }

  /** The point form: an optional decimal, a point, a decimal, and an optional exponent. */
  predicate IsPointForm(s: string) {
    exists i :: 0 <= i < |s| && PointSplit(s, i)
  }

  /** The exponent form of a float, with its exponent starting at `j`. */
  predicate ExponentSplit(s: string, j: nat) {
    1 <= j < |s| && IsDecimal(s[..j]) && IsExponent(s[j..])
  }

  /** The exponent form: a decimal followed by an exponent. */
  predicate IsExponentForm(s: string) {
    exists j :: 0 <= j < |s| && ExponentSplit(s, j)
  }

  /** The two forms a float takes before its optional `f`. */
  predicate IsFloatBody(s: string) {
    IsPointForm(s) || IsExponentForm(s)
  }

  predicate IsFloatMark(c: char) { c == 'f' || c == 'F' }

  /**
   * The `float` token: a float body with an optional `f`, or a decimal with
   * a mandatory `f`.
   */
  predicate IsFloatToken(s: string) {
    || IsFloatBody(s)
    || (|s| >= 1 && IsFloatMark(s[|s| - 1]) && (IsFloatBody(s[..|s| - 1]) || IsDecimal(s[..|s| - 1])))
  }

  // ---------------------------------------------------------------------
  // identifier
  // ---------------------------------------------------------------------

  predicate IsIdentifierStart(c: char) { IsAlpha(c) || c == '_' }

  predicate IsIdentifierPart(c: char) { IsAlpha(c) || IsDigit(c) || c == '_' }

  /** The plain form: a letter or underscore, then letters, digits and underscores. */
  predicate IsPlainIdentifier(s: string) {
    |s| >= 1 && IsIdentifierStart(s[0]) && forall i :: 1 <= i < |s| ==> IsIdentifierPart(s[i])
  }

  /** A backtick-quoted name: a non-empty run with no backtick, carriage return or line feed, between backticks. */
  predicate IsQuotedIdentifier(s: string) {
    && |s| >= 3 && s[0] == '`' && s[|s| - 1] == '`'
    && forall i :: 1 <= i < |s| - 1 ==> s[i] != '`' && s[i] != '\r' && s[i] != '\n'
  }

  /** The `identifier` token. */
  predicate IsIdentifier(s: string) {
    IsPlainIdentifier(s) || IsQuotedIdentifier(s)
  }

  // ---------------------------------------------------------------------
  // escape_sequence and _escape_sequence
  // ---------------------------------------------------------------------

  predicate AllOctDigits(s: string) {
    forall i :: 0 <= i < |s| ==> IsOctDigit(s[i])
  }

  predicate AllHexDigits(s: string) {
    forall i :: 0 <= i < |s| ==> IsHexDigit(s[i])
  }

  /** What may follow the backslash of an `escape_sequence`: the six alternatives of the rule. */
  predicate IsEscapeBody(t: string) {
    || (|t| == 1 && t[0] != 'x' && t[0] != 'u' && !IsOctDigit(t[0]))
    || (1 <= |t| <= 3 && AllOctDigits(t))
    || (|t| == 3 && t[0] == 'x' && AllHexDigits(t[1..]))
    || (|t| == 5 && t[0] == 'u' && AllHexDigits(t[1..]))
    || (|t| >= 4 && t[0] == 'u' && t[1] == '{' && t[|t| - 1] == '}' && AllHexDigits(t[2..|t| - 1]))
    || (|t| == 9 && t[0] == 'U' && AllHexDigits(t[1..]))
  }

  /** The `escape_sequence` token. */
  predicate IsEscapeSequence(s: string) {
    |s| >= 1 && s[0] == '\\' && IsEscapeBody(s[1..])
  }

  /** The characters that the fallback escape does not accept after its backslash. */
  predicate IsNamedEscapeLetter(c: char) {
    c in {'a', 'b', 'f', 'n', 'r', 't', 'v', 'x', 'u', '\'', '"', '\\', '?'}
  }

  /** The first alternative of `_escape_sequence`: a backslash and one character outside `abfnrtvxu'"\?`. */
  predicate IsFallbackEscape(s: string) {
    |s| == 2 && s[0] == '\\' && !IsNamedEscapeLetter(s[1])
  }

  /** The `_escape_sequence` rule: the fallback or an `escape_sequence`. */
  predicate IsAnyEscape(s: string) {
    IsFallbackEscape(s) || IsEscapeSequence(s)
  }

  // ---------------------------------------------------------------------
  // string_content, _multiline_string_content, character
  // ---------------------------------------------------------------------

  /** `string_content`: one or more characters, none a double quote or a backslash. */
  predicate IsStringContent(s: string) {
    |s| >= 1 && forall i :: 0 <= i < |s| ==> s[i] != '"' && s[i] != '\\'
  }

  /** No character is a double quote. */
  predicate QuoteFree(s: string) {
    forall i :: 0 <= i < |s| ==> s[i] != '"'
  }

  /**
   * The second alternative of `_multiline_string_content` with its closing
   * quote at `i`: a double quote, quote-free text, a double quote, and then
   * any number of non-empty quote-free runs, which together are exactly the
   * quote-free strings.
   */
  predicate QuotedRunSplit(s: string, i: nat) {
    1 <= i < |s| && s[0] == '"' && s[i] == '"' && QuoteFree(s[1..i]) && QuoteFree(s[i + 1..])
  }

  /** `_multiline_string_content`: non-empty quote-free text, or the quoted form above. */
  predicate IsMultilineStringContent(s: string) {
    (|s| >= 1 && QuoteFree(s)) || exists i :: 0 <= i < |s| && QuotedRunSplit(s, i)
  }

  /** `character`: an opening quote and one plain character or one escape; the rule has no closing quote. */
  predicate IsCharacter(s: string) {
    && |s| >= 2 && s[0] == '\''
    && ((|s| == 2 && s[1] != '\'' && s[1] != '\\') || IsAnyEscape(s[1..]))
  }

  // ---------------------------------------------------------------------
  // comment, shebang_line
  // ---------------------------------------------------------------------

  /** `comment`: two slashes, then any characters but a line feed. */
  predicate IsCommentToken(s: string) {
    |s| >= 2 && s[0] == '/' && s[1] == '/' && forall i :: 2 <= i < |s| ==> s[i] != '\n'
  }

  /** `shebang_line`: `#!`, then any characters but a carriage return or a line feed. */
  predicate IsShebangLine(s: string) {
    |s| >= 2 && s[0] == '#' && s[1] == '!' && forall i :: 2 <= i < |s| ==> s[i] != '\r' && s[i] != '\n'
  }
}

/**
 * Properties of the token languages of grammar.js: a reference recogniser
 * for numbers, the examples the rules are written for, the disjointness of
 * numbers, floats and identifiers, the two escape rules, the quotes in
 * multi-line string content, the missing closing quote of `character`, the
 * agreement between the `comment` token and the external scanner's line
 * comments, and the extent of a `shebang_line`.
 */
module TokenProperties {
  import opened Chars
  import opened Tokens
  import ScannerSpec
  import ScannerProperties

  // ---------------------------------------------------------------------
  // number
  // ---------------------------------------------------------------------

  /** An integer part never ends in a suffix letter. */
  lemma IntegerPartLastChar(s: string)
    requires IsIntegerPart(s)
    ensures |s| >= 1 && !IsUnsignedMark(s[|s| - 1]) && !IsLongMark(s[|s| - 1])
  {
    var c := s[|s| - 1];
    if IsDecimal(s) && |s| >= 2 {
      assert c == s[1..][|s| - 2];
    } else if (IsHex(s) || IsBin(s)) && |s| >= 4 {
      assert c == s[3..][|s| - 4];
    }
  }

  /**
   * A number token is recognised by reading its suffix off the end and
   * checking that the rest is a decimal, hexadecimal or binary integer.
   */
  lemma NumberTokenByCheck(s: string)
    ensures IsNumberToken(s) <==> IsIntegerPart(s[..|s| - SuffixLength(s)])
  {
    var n := SuffixLength(s);
    if IsIntegerPart(s[..|s| - n]) {
      assert NumberSplit(s, |s| - n);
    }
    if IsNumberToken(s) {
      var k :| 0 <= k <= |s| && NumberSplit(s, k);
      IntegerPartLastChar(s[..k]);
      assert s[k - 1] == s[..k][k - 1];
      assert k == |s| - n by {
        if k == |s| - 1 {
          assert s[k..][0] == s[|s| - 1];
        } else if k == |s| - 2 {
          assert s[k..][0] == s[|s| - 2] && s[k..][1] == s[|s| - 1];
        }
      }
    }
  }

  lemma NumberExamplesAccepted()
    ensures IsNumberToken("1_000") && IsNumberToken("0xFFu") && IsNumberToken("7uL")
  {
    assert NumberSplit("1_000", 5) by {
      assert "1_000"[..5] == "1_000";
      assert "1_000"[1..] == "_000";
    }
    assert NumberSplit("0xFFu", 4) by {
      assert "0xFFu"[..4] == "0xFF";
      assert "0xFF"[3..] == "F";
      assert "0xFFu"[4..] == "u";
    }
    assert NumberSplit("7uL", 1) by {
      assert "7uL"[..1] == "7";
      assert "7uL"[1..] == "uL";
    }
  }

  lemma NumberExamplesRejected()
    ensures !IsNumberToken("_1") && !IsNumberToken("0x") && !IsNumberToken("1Lu")
  {
    NumberTokenByCheck("_1");
    assert "_1"[..2] == "_1";
    NumberTokenByCheck("0x");
    assert "0x"[..2] == "0x";
    assert !DigitsOrUnderscores("0x"[1..]) by {
      assert "0x"[1..][0] == 'x';
    }
    NumberTokenByCheck("1Lu");
    assert "1Lu"[..2] == "1L";
    assert !DigitsOrUnderscores("1L"[1..]) by {
      assert "1L"[1..][0] == 'L';
    }
  }

  // ---------------------------------------------------------------------
  // float
  // ---------------------------------------------------------------------

  lemma FloatExamplesAccepted()
    ensures IsFloatToken(".5") && IsFloatToken("1e3") && IsFloatToken("2f")
  {
    assert PointSplit(".5", 0) by {
      assert ".5"[..0] == "";
      assert ".5"[1..] == "5";
      assert DecimalOptExponentSplit("5", 1) by {
        assert "5"[..1] == "5" && "5"[1..] == "";
      }
    }
    assert ExponentSplit("1e3", 1) by {
      assert "1e3"[..1] == "1";
      assert "1e3"[1..] == "e3";
      assert "e3"[1..] == "3";
    }
    assert "2f"[..1] == "2";
  }

  lemma FloatExamplesRejected()
    ensures !IsFloatToken("1.") && !IsFloatToken("1e")
  {
    forall i | 0 <= i < 2 ensures !PointSplit("1.", i) {
      if i == 1 {
        assert "1."[2..] == "";
      }
    }
    forall j | 0 <= j < 2 ensures !ExponentSplit("1.", j) {
      assert "1."[1..] == ".";
    }
    forall i | 0 <= i < 2 ensures !PointSplit("1e", i) {
    }
    forall j | 0 <= j < 2 ensures !ExponentSplit("1e", j) {
      assert "1e"[1..] == "e";
    }
  }

  /** The characters a float is made of: digits, `_`, `.`, `e`, `E`, `+`, `-`, `f`, `F`. */
  predicate IsFloatChar(c: char) {
    IsDigit(c) || c == '_' || c == '.' || c == 'e' || c == 'E' || c == '+' || c == '-' || IsFloatMark(c)
  }

  /** The characters that mark a float: the point, the exponent letter and the `f`. */
  predicate IsFloatMarker(c: char) {
    c == '.' || c == 'e' || c == 'E' || IsFloatMark(c)
  }

  predicate AllFloatChars(s: string) {
    forall i :: 0 <= i < |s| ==> IsFloatChar(s[i])
  }

  lemma AllFloatCharsJoin(s: string, k: nat)
    requires k <= |s| && AllFloatChars(s[..k]) && AllFloatChars(s[k..])
    ensures AllFloatChars(s)
  {
    forall i | 0 <= i < |s| ensures IsFloatChar(s[i]) {
      if i < k {
        assert s[i] == s[..k][i];
      } else {
        assert s[i] == s[k..][i - k];
      }
    }
  }

  lemma DecimalFloatChars(s: string)
    requires IsOptDecimal(s)
    ensures AllFloatChars(s)
  {
    forall i | 0 <= i < |s| ensures IsFloatChar(s[i]) {
      if i >= 1 {
        assert s[i] == s[1..][i - 1];
      }
    }
  }

  lemma ExponentFloatChars(s: string)
    requires IsOptExponent(s)
    ensures AllFloatChars(s)
  {
    if s != "" {
      if IsDecimal(s[1..]) {
        DecimalFloatChars(s[1..]);
        AllFloatCharsJoin(s, 1);
      } else {
        DecimalFloatChars(s[2..]);
        assert s[1..][1..] == s[2..];
        AllFloatCharsJoin(s[1..], 1);
        AllFloatCharsJoin(s, 1);
      }
    }
  }

  lemma FloatBodyAlphabet(s: string)
    requires IsFloatBody(s)
    ensures AllFloatChars(s) && exists i :: 0 <= i < |s| && IsFloatMarker(s[i])
  {
    if IsPointForm(s) {
      var i :| 0 <= i < |s| && PointSplit(s, i);
      var t := s[i + 1..];
      var j :| 0 <= j <= |t| && DecimalOptExponentSplit(t, j);
      DecimalFloatChars(t[..j]);
      ExponentFloatChars(t[j..]);
      AllFloatCharsJoin(t, j);
      assert s[i..][1..] == t;
      AllFloatCharsJoin(s[i..], 1);
      DecimalFloatChars(s[..i]);
      AllFloatCharsJoin(s, i);
    } else {
      var j :| 0 <= j < |s| && ExponentSplit(s, j);
      DecimalFloatChars(s[..j]);
      ExponentFloatChars(s[j..]);
      AllFloatCharsJoin(s, j);
      assert s[j] == s[j..][0];
    }
  }

  /**
   * Every float is written with digits, `_`, `.`, `e`, `E`, `+`, `-`, `f`
   * and `F` only, and holds a point, an exponent letter or an `f`.
   */
  lemma FloatAlphabet(s: string)
    requires IsFloatToken(s)
    ensures AllFloatChars(s) && exists i :: 0 <= i < |s| && IsFloatMarker(s[i])
  {
    if !IsFloatBody(s) {
      var k := |s| - 1;
      if IsFloatBody(s[..k]) {
        FloatBodyAlphabet(s[..k]);
      } else {
        DecimalFloatChars(s[..k]);
      }
      AllFloatCharsJoin(s, k);
    } else {
      FloatBodyAlphabet(s);
    }
  }

  /**
   * A number has either no float marker at all (a decimal with its suffix)
   * or a radix letter in its second place.
   */
  lemma NumberShape(s: string)
    requires IsNumberToken(s)
    ensures (forall i :: 0 <= i < |s| ==> !IsFloatMarker(s[i])) || (|s| >= 2 && s[1] in {'x', 'X', 'b', 'B'})
  {
    var k :| 0 <= k <= |s| && NumberSplit(s, k);
    if IsDecimal(s[..k]) {
      forall i | 0 <= i < |s| ensures !IsFloatMarker(s[i]) {
        if i == 0 {
          assert s[0] == s[..k][0];
        } else if i < k {
          assert s[i] == s[..k][1..][i - 1];
        } else {
          assert s[i] == s[k..][i - k];
        }
      }
    } else {
      assert s[1] == s[..k][1];
    }
  }

  /** No string is both a number token and a float token. */
  lemma NumberIsNotFloat(s: string)
    ensures !(IsNumberToken(s) && IsFloatToken(s))
  {
    if IsNumberToken(s) && IsFloatToken(s) {
      NumberShape(s);
      FloatAlphabet(s);
    }
  }

  // ---------------------------------------------------------------------
  // identifier
  // ---------------------------------------------------------------------

  /** A number starts with a digit. */
  lemma NumberStartsWithDigit(s: string)
    requires IsNumberToken(s)
    ensures IsDigit(s[0])
  {
    var k :| 0 <= k <= |s| && NumberSplit(s, k);
    assert s[0] == s[..k][0];
  }

  lemma FloatBodyStart(s: string)
    requires IsFloatBody(s)
    ensures IsDigit(s[0]) || s[0] == '.'
  {
    if IsPointForm(s) {
      var i :| 0 <= i < |s| && PointSplit(s, i);
      if i > 0 {
        assert s[0] == s[..i][0];
      }
    } else {
      var j :| 0 <= j < |s| && ExponentSplit(s, j);
      assert s[0] == s[..j][0];
    }
  }

  /** A float starts with a digit or a point. */
  lemma FloatStartsWithDigitOrPoint(s: string)
    requires IsFloatToken(s)
    ensures IsDigit(s[0]) || s[0] == '.'
  {
    if IsFloatBody(s) {
      FloatBodyStart(s);
    } else {
      var k := |s| - 1;
      if IsFloatBody(s[..k]) {
        FloatBodyStart(s[..k]);
      }
      assert s[0] == s[..k][0];
    }
  }

  /** No identifier is a number or a float. */
  lemma IdentifierIsNotNumeric(s: string)
    requires IsIdentifier(s)
    ensures !IsNumberToken(s) && !IsFloatToken(s)
  {
    if IsNumberToken(s) {
      NumberStartsWithDigit(s);
    }
    if IsFloatToken(s) {
      FloatStartsWithDigitOrPoint(s);
    }
  }

  lemma IdentifierExamples()
    ensures IsIdentifier("_tmp1") && IsIdentifier("`is a name`")
    ensures !IsIdentifier("1abc") && !IsIdentifier("``") && !IsIdentifier("`a\nb`")
  {
    assert "`a\nb`"[2] == '\n';
  }

  // ---------------------------------------------------------------------
  // escapes
  // ---------------------------------------------------------------------

  /** The fallback escape adds nothing: each of its strings is already an `escape_sequence`. */
  lemma FallbackIsEscapeSequence(s: string)
    requires IsFallbackEscape(s)
    ensures IsEscapeSequence(s)
  {
    var t := s[1..];
    assert t[0] == s[1];
    if IsOctDigit(t[0]) {
      assert AllOctDigits(t);
    }
  }

  /** `_escape_sequence` and `escape_sequence` are the same language. */
  lemma AnyEscapeIsEscapeSequence(s: string)
    ensures IsAnyEscape(s) <==> IsEscapeSequence(s)
  {
    if IsFallbackEscape(s) {
      FallbackIsEscapeSequence(s);
    }
  }

  lemma EscapeExamplesAccepted()
    ensures IsEscapeSequence("\\n") && IsEscapeSequence("\\101") && IsEscapeSequence("\\x41")
  {
    assert "\\101"[1..] == "101";
    assert "\\x41"[1..] == "x41" && "x41"[1..] == "41";
  }

  lemma UnicodeEscapeExamplesAccepted()
    ensures IsEscapeSequence("\\u0041") && IsEscapeSequence("\\u{1F600}") && IsEscapeSequence("\\U0001F600")
  {
    assert "\\u0041"[1..] == "u0041" && "u0041"[1..] == "0041";
    assert "\\u{1F600}"[1..] == "u{1F600}" && "u{1F600}"[2..7] == "1F600";
    assert "\\U0001F600"[1..] == "U0001F600" && "U0001F600"[1..] == "0001F600";
  }

  lemma EscapeExamplesRejected()
    ensures !IsEscapeSequence("\\x4") && !IsEscapeSequence("\\u{}") && !IsEscapeSequence("\\1234")
  {
    assert "\\x4"[1..] == "x4" && !IsOctDigit("x4"[0]);
    assert "\\u{}"[1..] == "u{}" && !IsOctDigit("u{}"[0]);
  }

  /**
   * An escape body longer than one character ends in a hexadecimal digit or
   * a closing brace, so never in a quote.
   */
  lemma EscapeBodyLastChar(t: string)
    ensures IsEscapeBody(t) && |t| >= 2 ==> IsHexDigit(t[|t| - 1]) || t[|t| - 1] == '}'
  {
    if IsEscapeBody(t) && |t| >= 2 && !AllOctDigits(t) && t[0] != 'u' {
      assert t[|t| - 1] == t[1..][|t| - 2];
    }
  }

  // ---------------------------------------------------------------------
  // string_content, _multiline_string_content, character
  // ---------------------------------------------------------------------

  /** String content is closed under juxtaposition, as the `+` of its rule says. */
  lemma StringContentJoin(a: string, b: string)
    requires IsStringContent(a) && IsStringContent(b)
    ensures IsStringContent(a + b)
  {
    forall i | 0 <= i < |a + b| ensures (a + b)[i] != '"' && (a + b)[i] != '\\' {
      if i < |a| {
        assert (a + b)[i] == a[i];
      } else {
        assert (a + b)[i] == b[i - |a|];
      }
    }
  }

  /** The number of double quotes in `s`. */
  function QuoteCount(s: string): nat {
    if s == "" then 0 else (if s[0] == '"' then 1 else 0) + QuoteCount(s[1..])
  }

  lemma {:induction false} QuoteCountJoin(a: string, b: string)
    ensures QuoteCount(a + b) == QuoteCount(a) + QuoteCount(b)
    decreases |a|
  {
    if a != "" {
      assert (a + b)[0] == a[0];
      assert (a + b)[1..] == a[1..] + b;
      QuoteCountJoin(a[1..], b);
    } else {
      assert a + b == b;
    }
  }

  lemma {:induction false} QuoteFreeCount(s: string)
    requires QuoteFree(s)
    ensures QuoteCount(s) == 0
    decreases |s|
  {
    if s != "" {
      assert s[0] != '"';
      QuoteFreeCount(s[1..]);
    }
  }

  /**
   * Multi-line string content holds no double quote, or exactly two: one at
   * its start and one further on; so it never holds the three quotes that
   * close a multi-line string.
   */
  lemma MultilineContentQuotes(s: string)
    requires IsMultilineStringContent(s)
    ensures QuoteCount(s) == 0 || QuoteCount(s) == 2
    ensures forall j :: 0 <= j < |s| - 2 ==> !(s[j] == '"' && s[j + 1] == '"' && s[j + 2] == '"')
  {
    if QuoteFree(s) {
      QuoteFreeCount(s);
    } else {
      var i :| 0 <= i < |s| && QuotedRunSplit(s, i);
      QuotedRunCount(s, i);
      QuotedRunQuotes(s, i);
    }
  }

  lemma QuotedRunCount(s: string, i: nat)
    requires QuotedRunSplit(s, i)
    ensures QuoteCount(s) == 2
  {
    assert s == [s[0]] + s[1..i] + [s[i]] + s[i + 1..];
    QuoteCountJoin([s[0]] + s[1..i] + [s[i]], s[i + 1..]);
    QuoteCountJoin([s[0]] + s[1..i], [s[i]]);
    QuoteCountJoin([s[0]], s[1..i]);
    QuoteFreeCount(s[1..i]);
    QuoteFreeCount(s[i + 1..]);
  }

  lemma QuotedRunQuotes(s: string, i: nat)
    requires QuotedRunSplit(s, i)
    ensures forall j :: 0 <= j < |s| && s[j] == '"' ==> j == 0 || j == i
  {
    forall j | 0 <= j < |s| ensures s[j] == '"' ==> j == 0 || j == i {
      if 0 < j < i {
        assert s[j] == s[1..i][j - 1];
      } else if j > i {
        assert s[j] == s[i + 1..][j - i - 1];
      }
    }
  }

  lemma MultilineContentExamples()
    ensures IsMultilineStringContent("line one\nline two")
    ensures IsMultilineStringContent("\"quoted\" and more")
    ensures !IsMultilineStringContent("a\"b")
  {
    var s := "\"quoted\" and more";
    assert QuotedRunSplit(s, 7) by {
      assert s[1..7] == "quoted";
      assert s[8..] == " and more";
    }
    assert !QuoteFree("a\"b") by {
      assert "a\"b"[1] == '"';
    }
  }

  /** The `character` rule never takes in a closing quote: a character token followed by `'` is no character token. */
  lemma CharacterHasNoClosingQuote(s: string)
    requires IsCharacter(s)
    ensures !IsCharacter(s + "'")
  {
    var u := (s + "'")[1..];
    assert u == s[1..] + "'";
    AnyEscapeIsEscapeSequence(u);
    EscapeBodyLastChar(u[1..]);
    assert u[|u| - 1] == '\'';
    if |u| == 2 {
      assert u[0] == s[1] && !IsAnyEscape(s[1..]);
    }
  }

  lemma CharacterExamples()
    ensures IsCharacter("'a") && IsCharacter("'\\n") && IsCharacter("'\\'") && IsCharacter("'\\u0041")
    ensures !IsCharacter("'a'") && !IsCharacter("''") && !IsCharacter("'\\")
  {
    assert "'\\n"[1..] == "\\n";
    assert "'\\'"[1..] == "\\'";
    assert "'\\u0041"[1..] == "\\u0041" && "\\u0041"[1..] == "u0041" && "u0041"[1..] == "0041";
    CharacterHasNoClosingQuote("'a");
    assert "'a" + "'" == "'a'";
    assert "'\\"[1..] == "\\";
  }

  // ---------------------------------------------------------------------
  // comment, shebang_line
  // ---------------------------------------------------------------------

  /**
   * What the external scanner's skipper passes over as a line comment, from
   * its `//` up to the line feed that ends it, is a `comment` token.
   */
  lemma SkippedLineCommentIsCommentToken(s: string, a: nat)
    requires a + 2 <= |s| && s[a] == '/' && s[a + 1] == '/'
    ensures IsCommentToken(s[a..ScannerSpec.LineCommentEnd(s, a + 2)])
  {
    var q := ScannerSpec.LineCommentEnd(s, a + 2);
    ScannerProperties.LineCommentEndIsLineEnd(s, a + 2, q);
    var c := s[a..q];
    forall i | 2 <= i < |c| ensures c[i] != '\n' {
      assert c[i] == s[a + i];
    }
  }

  /**
   * The converse: a `comment` token free of NUL characters that stops at a
   * line feed or at the end of the input is exactly what the skipper passes
   * over as a line comment.
   */
  lemma CommentTokenIsSkippedLineComment(s: string, a: nat, b: nat)
    requires a + 2 <= b <= |s| && IsCommentToken(s[a..b])
    requires forall k :: a <= k < b ==> s[k] != Nul
    requires b == |s| || s[b] == '\n'
    ensures s[a] == '/' && s[a + 1] == '/'
    ensures ScannerSpec.LineCommentEnd(s, a + 2) == b
  {
    var c := s[a..b];
    assert c[0] == s[a] && c[1] == s[a + 1];
    forall k | a + 2 <= k < b ensures s[k] != '\n' {
      assert c[k - a] == s[k];
    }
    ScannerProperties.LineCommentEndIsLineEnd(s, a + 2, b);
  }

  /** The first line break (carriage return or line feed) at or after `i`, or the end of `s`. */
  function LineBreakFrom(s: string, i: nat): (e: nat)
    requires i <= |s|
    ensures i <= e <= |s|
    decreases |s| - i
  {
    if i == |s| || s[i] == '\r' || s[i] == '\n' then i else LineBreakFrom(s, i + 1)
  }

  lemma {:induction false} LineBreakFromIsFirst(s: string, i: nat)
    requires i <= |s|
    ensures var e := LineBreakFrom(s, i);
      && (forall k :: i <= k < e ==> s[k] != '\r' && s[k] != '\n')
      && (e < |s| ==> s[e] == '\r' || s[e] == '\n')
    decreases |s| - i
  {
    if i < |s| && s[i] != '\r' && s[i] != '\n' {
      LineBreakFromIsFirst(s, i + 1);
    }
  }

  /**
   * On a text starting with `#!`, the longest prefix that is a `shebang_line`
   * runs up to the first line break: that prefix is one, and no longer
   * prefix is.
   */
  lemma ShebangLineIsLongestMatch(s: string)
    requires |s| >= 2 && s[0] == '#' && s[1] == '!'
    ensures IsShebangLine(s[..LineBreakFrom(s, 2)])
    ensures forall k :: LineBreakFrom(s, 2) < k <= |s| ==> !IsShebangLine(s[..k])
  {
    var e := LineBreakFrom(s, 2);
    LineBreakFromIsFirst(s, 2);
    var line := s[..e];
    forall i | 2 <= i < |line| ensures line[i] != '\r' && line[i] != '\n' {
      assert line[i] == s[i];
    }
    forall k | e < k <= |s| ensures !IsShebangLine(s[..k]) {
      assert s[..k][e] == s[e];
    }
  }

  lemma ShebangExamples()
    ensures IsShebangLine("#!/usr/bin/env kotlin") && IsShebangLine("#!")
    ensures !IsShebangLine("#!a\r") && !IsShebangLine("# !")
  {
    assert "#!a\r"[3] == '\r';
  }
}

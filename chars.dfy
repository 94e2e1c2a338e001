/**
 * Character-level vocabulary shared by the external scanner and the token
 * languages: the scanner's one-character lookahead over a buffer, and the
 * ASCII character classes that stand in for the C library's `iswspace` and
 * `iswalpha` and for the regular-expression classes of the grammar.
 */
module Chars {

  /** The lookahead value the lexer reports at the end of the input. */
  const Nul: char := '\0'

  /** The lookahead at cursor `p`: the character there, or `Nul` past the end. */
  function At(s: string, p: nat): char {
    if p < |s| then s[p] else Nul
  }

  /** `iswspace` restricted to ASCII: space, tab, line feed, vertical tab, form feed, carriage return. */
  predicate IsSpace(c: char) {
    c == ' ' || c == '\t' || c == '\n' || c == '\U{000B}' || c == '\U{000C}' || c == '\r'
  }

  /** `iswalpha` restricted to ASCII, and the class `[a-zA-Z]`. */
  predicate IsAlpha(c: char) {
    ('a' <= c <= 'z') || ('A' <= c <= 'Z')
  }

  /** `[0-9]` */
  predicate IsDigit(c: char) {
    '0' <= c <= '9'
  }

  /** `[0-9a-fA-F]` */
  predicate IsHexDigit(c: char) {
    IsDigit(c) || ('a' <= c <= 'f') || ('A' <= c <= 'F')
  }

  /** `[0-7]` */
  predicate IsOctDigit(c: char) {
    '0' <= c <= '7'
  }

  /** `[01]` */
  predicate IsBinDigit(c: char) {
    c == '0' || c == '1'
  }
}

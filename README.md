# tree-sitter-kotlin: external scanner and token languages

A Dafny model of two parts of the tree-sitter grammar for Kotlin.

**The external scanner (src/scanner.c).** This is hand-written C that the generated lexer calls when it needs one of two tokens:

- the automatic semicolon: the zero-width, implicit statement terminator that the grammar knows as `_semi`;
- a block comment.

The scanner reads the text one character at a time through a lexer cursor. The model follows that design:

- The text is a `string` and the cursor a `nat`. `Chars.At` gives `'\0'` past the end, which is the lookahead the C code sees at the end of the input.
- Each C function is a method with the same loops, branches and early returns (module `Scanner`).
- Each method is proved to compute a specification function (module `ScannerSpec`).
- What those functions decide is proved in module `ScannerProperties`, without reference to any loop. This covers:
  - where whitespace, line comments and block comments end;
  - when the skipper fails;
  - the decision laid out as: horizontal blanks, a line feed, a run of well-formed whitespace and comments, then the next significant character;
  - that the nesting depth of the comment scanner never matters;
  - that the comment scanner agrees with the skipper's block comments when the comment holds no inner `/*`, and where they part when it does.

**The token rules and tables of grammar.js.** These are pure declarations:

- Module `Tokens` states each lexical rule as a predicate on strings that holds exactly for the strings the rule matches as a whole: `number`, `float`, `identifier`, `escape_sequence`, `_escape_sequence`, `string_content`, `_multiline_string_content`, `character`, `comment` and `shebang_line`.
- Module `TokenProperties` proves:
  - a reference recogniser for numbers;
  - the accepted and rejected examples;
  - that numbers, floats and identifiers are pairwise disjoint;
  - that the two escape rules define the same language;
  - the quote structure of multi-line string content;
  - the missing closing quote of `character`;
  - that the text the scanner skips as a line comment is a `comment` token, and that a NUL-free `comment` token ending at a line feed or the end of input is exactly such a skipped line comment;
  - that a `shebang_line` at the start of a text extends to the first line break.
- Module `Precedence` holds the `PREC` levels and the binary-operator table.
- Module `CommaLists` holds the four comma-list helpers. Their languages are proved equal to a writer (`Join`) with a reader (`Items`) as its inverse.

Modules: `Chars` (character classes), `ScannerSpec`, `Scanner`, `ScannerProperties`, `Tokens`, `TokenProperties`, `Precedence`, `CommaLists`.

Inputs the C code gets from the lexer are modelled as parameters:

- `rangeStarts: set<nat>` gives the positions at which `is_at_included_range_start` answers true;
- `semicolonValid` and `commentValid` are the two `valid_symbols` entries.

Kotlin keywords are not special in the scanner's `i` case: only `in` and `instanceof` are looked for.

## Model

| member | source | states |
|---|---|---|
| Scanner.ScanMultilineComment | src/scanner.c:23-65 | succeeds exactly when `MultilineCommentEnd` gives an end, and then marks the end just after the closing `/` |
| Scanner.SkipSpaces | src/scanner.c:69-71 | the loop stops at `SpaceRunEnd`, the first non-whitespace position |
| Scanner.SkipLineCommentBody | src/scanner.c:76-80 | the loop stops at `LineCommentEnd`, before the line feed or at the end of input |
| Scanner.SkipBlockCommentBody | src/scanner.c:81-93 | the loop stops at `BlockCommentEnd`, just after the first terminator or at the end of input |
| Scanner.ScanWhitespaceAndComments | src/scanner.c:67-101 | answer and cursor equal `SkipTrivia(s, p)` |
| Scanner.ScanAutomaticSemicolon | src/scanner.c:103-182 | the answer is `AutomaticSemicolonAt(s, p, rangeStarts)`; the token end is marked at `p`, so the token is empty |
| Scanner.ScanStatementStart | src/scanner.c:126-181 | the answer is `StartsStatement(s, q)`, including the letter-by-letter check of `instanceof` |
| Scanner.Scan | src/scanner.c:184-201 | with the semicolon valid, the result is the semicolon scanner's alone (the comment scanner is not tried); otherwise leading whitespace is skipped and a block comment is tried only when valid, starting after that whitespace |
| ScannerSpec.AutomaticSemicolonAt | src/scanner.c:103-182 | definition: after the horizontal scan, end of input, `}` or a range start gives true; other text gives false; a line feed hands over to the skipper and `StartsStatement` |
| ScannerSpec.StartsStatement | src/scanner.c:126-181 | definition: a continuation character, `+`/`-` not doubled, `!=` and the words `in` and `instanceof` continue the statement; everything else starts one |
| ScannerSpec.SpaceRunEnd | src/scanner.c:69-71 | the whitespace run from `p` ends within the text |
| ScannerSpec.LineCommentEnd | src/scanner.c:78-80 | a line comment's text ends within the text |
| ScannerSpec.BlockCommentEnd | src/scanner.c:83-93 | a block comment ends within the text |
| ScannerSpec.SkipTrivia | src/scanner.c:67-101 | the skipper never moves back and never leaves the text |
| ScannerSpec.CommentScan | src/scanner.c:33-64 | when the comment loop succeeds it ends strictly after its start and within the text |
| ScannerSpec.MultilineCommentEnd | src/scanner.c:23-30 | a comment token is never empty and ends within the text |
| ScannerSpec.LineBreakSearch | src/scanner.c:107-119 | the horizontal scan stops within the text |
| ScannerProperties.SpaceRunEndIsFirstNonSpace | src/scanner.c:69-71 | `SpaceRunEnd(s, p) == q` exactly when all of `[p, q)` is whitespace and `q` is not |
| ScannerProperties.LineCommentEndIsLineEnd | src/scanner.c:78-80 | a line comment ends at `q` exactly when `[p, q)` holds no line feed and no end of input and `q` holds one |
| ScannerProperties.BlockCommentEndIsFirstTerminator | src/scanner.c:83-93 | a block comment ends just after the first `*/` (no nesting) or, when unterminated, at the end of the input |
| ScannerProperties.BlockCommentEndAtTerminator | src/scanner.c:83-93 | a body free of terminators up to a `*/` at `q` ends the comment at `q + 2` |
| ScannerProperties.UnterminatedBlockCommentSkipped | src/scanner.c:81-98 | a `/*` never closed is skipped to the end of the input, where the skipper answers true |
| ScannerProperties.SkipTriviaStopsAtSignificant | src/scanner.c:67-101 | a true answer stops at a character that is neither whitespace nor `/`; a false answer stops just after a `/` that is followed by neither `/` nor `*` |
| ScannerProperties.SkipTriviaIdempotent | src/scanner.c:67-101 | skipping again from where a successful skip stopped goes nowhere |
| ScannerProperties.SkipTriviaAtSignificant | src/scanner.c:73-98 | at a character that is neither whitespace nor a comment opener, the skipper stops at once; it fails exactly at a lone `/` |
| ScannerProperties.SkipTriviaOverSpace | src/scanner.c:69-71 | a whitespace character in front of the cursor does not change the skipper's answer |
| ScannerProperties.LineBreakSearchIsFirstStop | src/scanner.c:107-119 | the horizontal scan stops at the first included-range start, line feed or non-whitespace character |
| ScannerProperties.WidthIsRenderedLength | src/scanner.c:67-101 | the width of a run of whitespace and comments is the length of its text |
| ScannerProperties.SkipTriviaOverPiece | src/scanner.c:67-101 | one well-formed blank, line comment or block comment is skipped without changing the answer |
| ScannerProperties.RunAtRendered | src/scanner.c:67-101 | a run of pieces stands at `a` exactly when its rendered text does and every piece is well formed |
| ScannerProperties.SkipTriviaOverRun | src/scanner.c:67-101 | a whole run of well-formed whitespace and comments is skipped without changing the answer |
| ScannerProperties.SkipTriviaOverRunToText | src/scanner.c:67-101 | after such a run, at a character opening no comment, the skipper stops there; it fails exactly at a lone `/` |
| ScannerProperties.SemicolonAtClose | src/scanner.c:107-113 | after horizontal blanks, the end of input, a `}` or an included-range start gives a terminator |
| ScannerProperties.NoSemicolonBeforeCode | src/scanner.c:116-117 | after horizontal blanks, any other non-whitespace character before a line feed gives none |
| ScannerProperties.SemicolonDecidedAfterBreak | src/scanner.c:114-124 | after a line feed, the answer is the skipper's success together with the classification of where it stopped |
| ScannerProperties.SemicolonAfterLineBreak | src/scanner.c:103-182 | after blanks, a line feed and a well-formed run of whitespace and comments, the answer is `StartsStatement` of the next significant character |
| ScannerProperties.SlashContinues | src/scanner.c:142-143 | a line starting with a `/` that opens no comment continues the statement |
| ScannerProperties.SemicolonOnlySkipsWhitespace | src/scanner.c:107-119 | everything before the stop of the horizontal scan is whitespace other than a line feed; a stop at other text gives no terminator |
| ScannerProperties.KeywordExamples | src/scanner.c:158-178 | `in` and `instanceof` as whole words on the next line give no terminator |
| ScannerProperties.InPrefixExample | src/scanner.c:170-172 | `int` on the next line gives a terminator |
| ScannerProperties.InstanceofPrefixExample | src/scanner.c:176-181 | `instanceofs` on the next line gives a terminator |
| ScannerProperties.OperatorExamples | src/scanner.c:126-156 | `.` and binary `+` continue; `++` starts a statement; `!=` continues and a unary `!` starts one |
| ScannerProperties.SameLineExamples | src/scanner.c:107-119 | the end of input and `}` terminate; other text on the same line does not, and neither does a `//` comment on the same line, since `/` is not whitespace |
| ScannerProperties.LineCommentAfterBreakExample | src/scanner.c:76-80 | a line comment on the next line is skipped before deciding |
| ScannerProperties.BlockCommentAfterBreakExample | src/scanner.c:81-93 | a block comment on the next line is skipped before deciding |
| ScannerProperties.ContinuationAfterCommentExample | src/scanner.c:123-143 | a `.` after a skipped comment continues the statement |
| ScannerProperties.SlashAfterBreakExample | src/scanner.c:94-96 | a lone `/` on the next line makes the skipper fail, so no terminator |
| ScannerProperties.CommentDepthIrrelevant | src/scanner.c:43-48 | the nesting depth never changes whether or where a block comment ends |
| ScannerProperties.CommentScanEndsAfterTerminator | src/scanner.c:33-64 | a successful comment loop ends just after a `/` that directly follows a `*`, with no end of input before it |
| ScannerProperties.MultilineCommentShape | src/scanner.c:23-65 | a comment token starts with `/*`, ends with `*/`, is at least four characters long and contains no end of input |
| ScannerProperties.CommentScanWithoutOpeners | src/scanner.c:33-64 | when no `/*` lies inside the comment (up to where the skipper's block comment ends; later text is free), the comment loop ends just after the first `*/` and fails when there is none |
| ScannerProperties.MultilineCommentAgreesWithSkipper | src/scanner.c:23-65 | when no `/*` lies inside the comment, the comment token ends exactly where the skipper's block comment ends, and it fails exactly when that comment is not closed; text after the comment is unconstrained |
| ScannerProperties.TwoCommentsExample | src/scanner.c:23-65 | on `/* a */ /* b */` the token ends after the first comment |
| ScannerProperties.CommentScanSkipsOnlyOpenerStars | src/scanner.c:33-64 | in a successful comment token, every `*/` before the final one has a `/` just before it: its `*` was consumed as part of an inner `/*` |
| ScannerProperties.CommentScanEndIsUneaten | src/scanner.c:33-64 | a successful comment loop that ends two or more positions after its start ends just after a `*/` whose `*` is at the start or has no `/` before it, so that terminator was not eaten by an inner `/*`; with the two lemmas beside it, the end is just after the first uneaten `*/` |
| ScannerProperties.CommentScanReachesTerminator | src/scanner.c:33-64 | the converse: a `*/` whose `*` has no `/` before it (or stands at the cursor), with no end of input on the way, makes the comment loop succeed at or before just after it |
| ScannerProperties.MultilineCommentFailsOnlyAtEnd | src/scanner.c:23-65 | after `/*`, a `*/` not preceded by `/` and reached before any end of input makes the comment token succeed, ending at or before it; so the scanner fails only on reaching the end of input |
| ScannerProperties.SharedStarExample | src/scanner.c:41-48 | on `/* /*/ */` the token runs to the last `*/` (position 9), while the skipper's block comment ends at 6 |
| ScannerProperties.MultilineCommentStopsAtFirstTerminator | src/scanner.c:41-48 | `/* /* */ */` ends at its first `*/` despite the inner opener |
| Tokens.IsNumberToken | grammar.js:1022-1031 | definition: a decimal, hexadecimal or binary integer part followed by an optional `u`/`U`, `l`/`L` or `uL` suffix |
| Tokens.IsFloatToken | grammar.js:1033-1047 | definition: the point form or the exponent form with an optional `f`/`F`, or a decimal with a mandatory `f`/`F` |
| Tokens.IsIdentifier | grammar.js:1054-1057 | definition: a letter or underscore then letters, digits and underscores, or a non-empty backtick-quoted name without backtick, carriage return or line feed |
| Tokens.IsEscapeSequence | grammar.js:1010-1020 | definition: a backslash followed by one of the six escape bodies |
| Tokens.IsAnyEscape | grammar.js:1005-1008 | definition: the fallback escape or an `escape_sequence` |
| Tokens.IsStringContent | grammar.js:999 | definition: one or more characters, none a double quote or a backslash |
| Tokens.IsMultilineStringContent | grammar.js:1000-1003 | definition: non-empty quote-free text, or a quoted run followed by quote-free text |
| Tokens.IsCharacter | grammar.js:987-993 | definition: a single quote and then one plain character or one escape; no closing quote |
| Tokens.IsCommentToken | grammar.js:1061 | definition: two slashes, then any characters but a line feed |
| Tokens.IsShebangLine | grammar.js:92 | definition: `#!`, then any characters but a carriage return or a line feed |
| Tokens.SuffixLength | grammar.js:1029 | the number of trailing characters read as an integer suffix; they form a valid suffix |
| TokenProperties.NumberTokenByCheck | grammar.js:1022-1031 | a string is a `number` exactly when removing its suffix leaves a decimal, hexadecimal or binary integer |
| TokenProperties.NumberExamplesAccepted | grammar.js:1022-1031 | `1_000`, `0xFFu` and `7uL` are numbers |
| TokenProperties.NumberExamplesRejected | grammar.js:1022-1031 | `_1`, `0x` and `1Lu` are not |
| TokenProperties.FloatExamplesAccepted | grammar.js:1033-1047 | `.5`, `1e3` and `2f` are floats |
| TokenProperties.FloatExamplesRejected | grammar.js:1033-1047 | `1.` and `1e` are not |
| TokenProperties.FloatAlphabet | grammar.js:1033-1047 | a float uses only digits, `_ . e E + - f F` and holds a point, an exponent letter or an `f` |
| TokenProperties.NumberShape | grammar.js:1022-1031 | a number holds no float marker, or has a radix letter in second place |
| TokenProperties.NumberIsNotFloat | grammar.js:1022-1047 | no string is both a `number` and a `float` |
| TokenProperties.NumberStartsWithDigit | grammar.js:1022-1031 | a number starts with a digit |
| TokenProperties.FloatStartsWithDigitOrPoint | grammar.js:1033-1047 | a float starts with a digit or a point |
| TokenProperties.IdentifierIsNotNumeric | grammar.js:1054-1057 | no identifier is a number or a float |
| TokenProperties.IdentifierExamples | grammar.js:1054-1057 | `_tmp1` and `` `is a name` `` are identifiers; `1abc`, an empty backtick pair and a backtick name with a line feed are not |
| TokenProperties.FallbackIsEscapeSequence | grammar.js:1005-1020 | every string of the fallback escape is already an `escape_sequence` |
| TokenProperties.AnyEscapeIsEscapeSequence | grammar.js:1005-1020 | `_escape_sequence` and `escape_sequence` are the same language |
| TokenProperties.EscapeExamplesAccepted | grammar.js:1010-1020 | `\n`, `\101` and `\x41` are escapes |
| TokenProperties.UnicodeEscapeExamplesAccepted | grammar.js:1016-1018 | `\u0041`, `\u{1F600}` and `\U0001F600` are escapes |
| TokenProperties.EscapeExamplesRejected | grammar.js:1010-1020 | `\x4`, `\u{}` and `\1234` are not |
| TokenProperties.EscapeBodyLastChar | grammar.js:1012-1019 | an escape body longer than one character ends in a hex digit or `}` |
| TokenProperties.StringContentJoin | grammar.js:999 | string content is closed under juxtaposition |
| TokenProperties.QuoteCountJoin | grammar.js:1000-1003 | the quote count of a concatenation is the sum of the counts |
| TokenProperties.MultilineContentQuotes | grammar.js:1000-1003 | multi-line string content holds zero or two double quotes and never three in a row |
| TokenProperties.QuotedRunQuotes | grammar.js:1002 | in the quoted form, the only quotes are the first character and the closing one |
| TokenProperties.MultilineContentExamples | grammar.js:1000-1003 | a multi-line text and `"quoted" and more` are content; `a"b` is not |
| TokenProperties.CharacterHasNoClosingQuote | grammar.js:987-993 | a `character` followed by `'` is never a `character`: the rule holds no closing quote |
| TokenProperties.CharacterExamples | grammar.js:987-993 | `'a`, `'\n`, `'\'` and `'\u0041` are characters; `'a'`, `''` and a quote with a bare backslash are not |
| TokenProperties.SkippedLineCommentIsCommentToken | grammar.js:1061 | the text the scanner's skipper passes over as a line comment, from `//` to the line feed, is a `comment` token |
| TokenProperties.CommentTokenIsSkippedLineComment | grammar.js:1061 | a NUL-free `comment` token followed by a line feed or the end of input is exactly what the skipper passes over as a line comment |
| TokenProperties.ShebangLineIsLongestMatch | grammar.js:92 | on a text starting with `#!`, the prefix up to the first carriage return or line feed is a shebang line, and no longer prefix is |
| TokenProperties.ShebangExamples | grammar.js:92 | `#!/usr/bin/env kotlin` and `#!` are shebang lines; one with a carriage return, or `# !`, is not |
| Precedence.Value | grammar.js:16-36 | definition: the number `PREC` gives each level |
| Precedence.Declared | grammar.js:16-36 | definition: the levels in declaration order |
| Precedence.Table | grammar.js:583-602 | definition: the 18 rows of the binary-operator table, in order |
| Precedence.ValueIsDeclarationPlace | grammar.js:16-36 | each level's value is its place in the declaration, except `PARENTHESES` at -1 |
| Precedence.ValuesIncrease | grammar.js:16-36 | the values strictly increase in declaration order, from -1 to 18 |
| Precedence.DeclaredOnce | grammar.js:16-36 | every level is declared, and none twice |
| Precedence.BinaryLevelsOrdered | grammar.js:16-36 | MULTIPLICATIVE > ADDITIVE > RANGE > ELVIS > COMPARISON > EQUALITY > CONJUNCTION > DISJUNCTION > ASSIGNMENT |
| Precedence.LevelCount | grammar.js:583-602 | every operator has at most two levels, and exactly two when it is `*` |
| Precedence.StarHasTwoLevels | grammar.js:583-602 | `*` has exactly the levels SPREAD and MULTIPLICATIVE |
| Precedence.OnlyStarIsRepeated | grammar.js:583-602 | the only operator listed twice is `*`, in rows 0 and 15 |
| Precedence.OtherOperatorsHaveOneLevel | grammar.js:583-602 | every other operator has exactly one level |
| Precedence.StarRows | grammar.js:583-602 | the rows for `*` are rows 0 and 15 |
| Precedence.Alternatives | grammar.js:604-611 | definition: one left-associative alternative per row of the table, at the value of the row's level, in table order |
| Precedence.AlternativesMatchTable | grammar.js:604-611 | the precedences at which `binary_expression` offers an operator are exactly the values of the levels the table gives it |
| Precedence.BinaryExpressionAlternatives | grammar.js:604-611 | `binary_expression` has 18 alternatives, all `prec.left`; an alternative for `*` sits at precedence 2 or 12 |
| CommaLists.IsCommaSep1 | grammar.js:1111-1113 | definition: an item, then any number of comma–item pairs |
| CommaLists.IsCommaSep | grammar.js:1099-1101 | definition: empty, or a `commaSep1` list |
| CommaLists.IsOptionalCommaSep | grammar.js:1074-1076 | definition: a `commaSep` list with an optional trailing comma |
| CommaLists.IsOptionalCommaSep1 | grammar.js:1087-1089 | definition: a `commaSep1` list with an optional trailing comma |
| CommaLists.ItemsJoin | grammar.js:1099-1113 | the items of a concatenation are the items of its parts |
| CommaLists.CommaItemsRoundTrip | grammar.js:1111-1113 | items each preceded by a comma match `repeat(seq(',', rule))`, and reading back gives the items |
| CommaLists.RepeatIsCommaItems | grammar.js:1111-1113 | whatever `repeat(seq(',', rule))` matches is its items, each preceded by a comma |
| CommaLists.SeparatedRoundTrip | grammar.js:1099-1113 | items written with commas between them match `commaSep`, and reading back gives the items |
| CommaLists.CommaSepIsSeparated | grammar.js:1099-1113 | whatever `commaSep` matches is its items written with commas between them |
| CommaLists.JoinRoundTrip | grammar.js:1074-1076 | `optionalCommaSep` accepts every list `Join` writes; reading back gives the items, and the trailing comma is there exactly when asked for |
| CommaLists.OptionalCommaSepIsJoin | grammar.js:1074-1076 | every list `optionalCommaSep` accepts is its items written by `Join`, with or without a trailing comma |
| CommaLists.OptionalCommaSepIffJoin | grammar.js:1074-1076 | `optionalCommaSep` accepts exactly the lists that `Join` writes |
| CommaLists.CommaSep1EndsInItem | grammar.js:1111-1113 | a `commaSep1` list ends in an item |
| CommaLists.OptionalCommaSepWithoutItems | grammar.js:1074-1076 | the only item-free lists `optionalCommaSep` accepts are the empty list and a lone comma |
| CommaLists.LoneComma | grammar.js:1074-1089 | a lone `,` matches `optionalCommaSep` but not `optionalCommaSep1` |
| CommaLists.OptionalCommaSep1NeedsItem | grammar.js:1074-1089 | `optionalCommaSep1` is `optionalCommaSep` restricted to lists with at least one item |
| CommaLists.CommaSep1NeedsItem | grammar.js:1099-1113 | `commaSep1` is `commaSep` restricted to lists with at least one item |

## Left out

- The `TSLexer` interface (`advance`, `skip`, `mark_end`, `result_symbol`, `is_at_included_range_start`) is replaced by a cursor over a string, a returned marked end and an input set of positions. Whether a character is skipped or advanced over is not recorded. That only decides where the token starts, which the model returns directly.
- The bare `mark_end(lexer)` in src/scanner.c:46 is not declared in that file. It is taken to mark the end at the current position, as `lexer->mark_end` does.
- `iswspace` and `iswalpha` are modelled as ASCII predicates: space, tab, line feed, vertical tab, form feed, carriage return, and `a-z`/`A-Z`. Non-ASCII whitespace and letters are not modelled.
- The lexer's lookahead of 0 at the end of input is `'\0'`. A NUL character inside the text reads the same, as it does in the C code.
- The create/destroy/reset/serialize/deserialize functions (src/scanner.c:9-18) keep no state and are not modelled.
- ScanMultilineComment: the C code keeps `nesting_depth` in an `unsigned`. The model uses an unbounded `nat` and does not model a wrap-around. The depth is only ever decremented once, just before returning, so it cannot wrap in practice. Its value never affects the result (`CommentDepthIrrelevant`).
- The grammar declares only `_semi` as external (grammar.js:54-56), so the block-comment token of the scanner is not reached from the grammar. It is modelled as a scanner of its own, and `valid_symbols` as two booleans.
- The parse rules of grammar.js are not modelled. These are declarations, statements, expressions, types and modifiers, along with conflict resolution, `token.immediate` and the precedence tie-breaking between overlapping tokens. Their meaning depends on tree-sitter's table construction. A parser built from the operator table is not modelled.
- Token rules are languages (sets of strings), not the lexer's choice between overlapping tokens. Longest match and `prec(2, …)` against `prec(1, …)` are not modelled. Extras that tree-sitter could allow between the parts of `character`, `shebang_line` and `_multiline_string_content` are not modelled.
- Precedence.BinaryExpressionAlternatives: the `field` names and `primary_expression` operands of each alternative are not represented; an alternative keeps its associativity, precedence and operator.
- In `comment`, the regular-expression `.` is taken as any character except a line feed.
- The header comment of grammar.js (lines 1-8) names another language's project; it has no behaviour.

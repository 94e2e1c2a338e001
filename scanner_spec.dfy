/**
 * What the external scanner of src/scanner.c decides, as functions of the
 * input text and a cursor. The methods of module Scanner, which follow the C
 * loops step by step, are proved to compute exactly these functions.
 */
module ScannerSpec {
  import opened Chars

  /** The two external token kinds the scanner knows. */
  datatype Symbol = AutomaticSemicolon | MultilineComment

  /** The answer a scan gives the lexer: no token, or a token with its start and its marked end. */
  datatype Outcome = NoToken | Token(symbol: Symbol, start: nat, end: nat)

  datatype Option<T> = None | Some(value: T)

  // ---------------------------------------------------------------------
  // Whitespace and comments (scan_whitespace_and_comments)
  // ---------------------------------------------------------------------

  /** The first position at or after `p` that does not hold whitespace. */
  function SpaceRunEnd(s: string, p: nat): (q: nat)
    requires p <= |s|
    ensures p <= q <= |s|
    decreases |s| - p
  {
    if IsSpace(At(s, p)) then SpaceRunEnd(s, p + 1) else p
  }

  /** Where a line comment whose text starts at `p` stops: before the first line feed, or at the end. */
  function LineCommentEnd(s: string, p: nat): (q: nat)
    requires p <= |s|
    ensures p <= q <= |s|
    decreases |s| - p
  {
    if At(s, p) == Nul || At(s, p) == '\n' then p else LineCommentEnd(s, p + 1)
  }

  /** A block-comment terminator `*` `/` starts at `k`. */
  predicate ClosesAt(s: string, k: nat) {
    At(s, k) == '*' && At(s, k + 1) == '/'
  }

  /** The skipper's block-comment loop stops at `k`: the end of the input or a terminator. */
  predicate BodyStop(s: string, k: nat) {
    At(s, k) == Nul || ClosesAt(s, k)
  }

  /** The body of a block comment holds no terminator and no end of input anywhere in `[p, q)`. */
  predicate OpenBetween(s: string, p: nat, q: nat) {
    forall k :: p <= k < q ==> !BodyStop(s, k)
  }

  /**
   * Where a block comment whose body starts at `p` stops, in the skipper:
   * just after the first terminator that starts at or after `p` (no nesting),
   * or at the end of the input when there is none.
   */
  function BlockCommentEnd(s: string, p: nat): (q: nat)
    requires p <= |s|
    ensures p <= q <= |s|
    decreases |s| - p
  {
    if At(s, p) == Nul then p
    else if ClosesAt(s, p) then p + 2
    else BlockCommentEnd(s, p + 1)
  }

  /**
   * scan_whitespace_and_comments: skips whitespace, line comments and block
   * comments from `p`. It answers false exactly when it stops just after a `/`
   * that starts neither kind of comment; otherwise it answers true at the
   * first character that is neither whitespace nor a `/`.
   */
  function SkipTrivia(s: string, p: nat): (r: (bool, nat))
    requires p <= |s|
    ensures p <= r.1 <= |s|
    decreases |s| - p
  {
    var a := SpaceRunEnd(s, p);
    if At(s, a) != '/' then (true, a)
    else if At(s, a + 1) == '/' then SkipTrivia(s, LineCommentEnd(s, a + 2))
    else if At(s, a + 1) == '*' then SkipTrivia(s, BlockCommentEnd(s, a + 2))
    else (false, a + 1)
  }

  /** One round of the skipper: whitespace, then one comment. */
  lemma SkipTriviaStep(s: string, p: nat)
    requires p <= |s|
    ensures var a := SpaceRunEnd(s, p);
      && (At(s, a) != '/' ==> SkipTrivia(s, p) == (true, a))
      && (At(s, a) == '/' && At(s, a + 1) != '/' && At(s, a + 1) != '*' ==> SkipTrivia(s, p) == (false, a + 1))
      && (At(s, a) == '/' && At(s, a + 1) == '/' ==> SkipTrivia(s, p) == SkipTrivia(s, LineCommentEnd(s, a + 2)))
      && (At(s, a) == '/' && At(s, a + 1) == '*' ==> SkipTrivia(s, p) == SkipTrivia(s, BlockCommentEnd(s, a + 2)))
  {
  }

  // ---------------------------------------------------------------------
  // The block-comment token (scan_multiline_comment)
  // ---------------------------------------------------------------------

  /**
   * The comment scanner's loop from cursor `k`, where `afterStar` records that
   * the previous character was consumed as a `*` and `depth` is the nesting
   * depth it keeps. A `/` right after such a `*` ends the comment whatever the
   * depth is; a `/` followed by `*` consumes that `*` as an inner opener.
   * `None` is the scanner's failure at the end of the input.
   */
  function CommentScan(s: string, k: nat, afterStar: bool, depth: nat): (r: Option<nat>)
    requires k <= |s|
    ensures r.Some? ==> k < r.value <= |s|
    decreases |s| - k
  {
    var c := At(s, k);
    if c == '*' then CommentScan(s, k + 1, true, depth)
    else if c == '/' then
      if afterStar then Some(k + 1)
      else if At(s, k + 1) == '*' then CommentScan(s, k + 2, false, depth + 1)
      else CommentScan(s, k + 1, false, depth)
    else if c == Nul then None
    else CommentScan(s, k + 1, false, depth)
  }

  /** scan_multiline_comment from `p`: the end of the comment token, or `None` when it fails. */
  function MultilineCommentEnd(s: string, p: nat): (r: Option<nat>)
    requires p <= |s|
    ensures r.Some? ==> p < r.value <= |s|
  {
    if At(s, p) != '/' || At(s, p + 1) != '*' then None
    else CommentScan(s, p + 2, false, 1)
  }

  // ---------------------------------------------------------------------
  // The automatic semicolon (scan_automatic_semicolon)
  // ---------------------------------------------------------------------

  /** The horizontal scan stops at `h`: at an included-range start, a line feed or a non-space. */
  predicate LineScanStops(s: string, h: nat, rangeStarts: set<nat>) {
    h in rangeStarts || At(s, h) == '\n' || !IsSpace(At(s, h))
  }

  /**
   * Where the scan for a line break stops: the first position at or after `p`
   * at which it stops; every position before it is whitespace other than a
   * line feed and is not an included-range start.
   */
  function LineBreakSearch(s: string, p: nat, rangeStarts: set<nat>): (h: nat)
    requires p <= |s|
    ensures p <= h <= |s|
    decreases |s| - p
  {
    if LineScanStops(s, p, rangeStarts) then p else LineBreakSearch(s, p + 1, rangeStarts)
  }

  /** The characters that, first on the next line, continue the current statement. */
  predicate IsContinuation(c: char) {
    c in {',', '.', ':', ';', '*', '%', '>', '<', '=', '[', '(', '?', '^', '|', '&', '/'}
  }

  /** The word `w` stands at `q`: its letters, then a character that is not a letter. */
  predicate WordAt(s: string, q: nat, w: string) {
    (forall j :: 0 <= j < |w| ==> At(s, q + j) == w[j]) && !IsAlpha(At(s, q + |w|))
  }

  /**
   * Whether the significant text starting at `q` (the first character after
   * the line break and any whitespace and comments) begins a new statement.
   */
  predicate StartsStatement(s: string, q: nat) {
    var c := At(s, q);
    if IsContinuation(c) then false
    else if c == '+' then At(s, q + 1) == '+'
    else if c == '-' then At(s, q + 1) == '-'
    else if c == '!' then At(s, q + 1) != '='
    else if c == 'i' then !WordAt(s, q, "in") && !WordAt(s, q, "instanceof")
    else true
  }

  /**
   * scan_automatic_semicolon at cursor `p`: whether an implicit statement
   * terminator stands there. `rangeStarts` holds the positions at which the
   * lexer reports the start of an included range.
   */
  predicate AutomaticSemicolonAt(s: string, p: nat, rangeStarts: set<nat>)
    requires p <= |s|
  {
    var h := LineBreakSearch(s, p, rangeStarts);
    if At(s, h) == Nul || At(s, h) == '}' || h in rangeStarts then true
    else if At(s, h) != '\n' then false
    else
      var r := SkipTrivia(s, h + 1);
      r.0 && StartsStatement(s, r.1)
  }
}

/**
 * The external scanner of src/scanner.c, step by step. The lexer is a cursor
 * `pos` over the text `s`; `advance` and `skip` both move the cursor one
 * character on (whether the character belongs to the token only matters
 * through the marked end, which the methods return). Each method is proved to
 * compute the matching function of module ScannerSpec.
 */
module Scanner {
  import opened Chars
  import opened ScannerSpec

  /**
   * scan_multiline_comment: recognises a block comment starting at `p`.
   * On success `markedEnd` is the position just after the closing `/`.
   */
  method ScanMultilineComment(s: string, p: nat) returns (found: bool, markedEnd: nat)
    requires p <= |s|
    ensures found <==> MultilineCommentEnd(s, p).Some?
    ensures found ==> markedEnd == MultilineCommentEnd(s, p).value
  {
    markedEnd := p;
    var pos := p;
    if At(s, pos) != '/' {
      return false, markedEnd;
    }
    pos := pos + 1;
    if At(s, pos) != '*' {
      return false, markedEnd;
    }
    pos := pos + 1;

    var afterStar := false;
    var nestingDepth: nat := 1;
    while true
      invariant pos <= |s|
      invariant nestingDepth >= 1
      invariant CommentScan(s, pos, afterStar, nestingDepth) == MultilineCommentEnd(s, p)
      decreases |s| - pos
    {
      var c := At(s, pos);
      if c == '*' {
        pos := pos + 1;
        afterStar := true;
      } else if c == '/' {
        pos := pos + 1;
        if afterStar {
          afterStar := false;
          nestingDepth := nestingDepth - 1;
          // scan_multiline_comment's test for a depth of zero is commented out,
          // so the first terminator not consumed by an opener ends the comment
          markedEnd := pos;
          return true, markedEnd;
        } else {
          afterStar := false;
          if At(s, pos) == '*' {
            nestingDepth := nestingDepth + 1;
            pos := pos + 1;
          }
        }
      } else if c == Nul {
        return false, markedEnd;
      } else {
        pos := pos + 1;
        afterStar := false;
      }
    }
  }

  /** Skips whitespace from `p`, one character at a time. */
  method SkipSpaces(s: string, p: nat) returns (pos: nat)
    requires p <= |s|
    ensures pos == SpaceRunEnd(s, p)
  {
    pos := p;
    while IsSpace(At(s, pos))
      invariant p <= pos <= |s|
      invariant SpaceRunEnd(s, pos) == SpaceRunEnd(s, p)
      decreases |s| - pos
    {
      pos := pos + 1;
    }
  }

  /** The skipper's loop over the text of a line comment that starts at `p`. */
  method SkipLineCommentBody(s: string, p: nat) returns (pos: nat)
    requires p <= |s|
    ensures pos == LineCommentEnd(s, p)
  {
    pos := p;
    while At(s, pos) != Nul && At(s, pos) != '\n'
      invariant p <= pos <= |s|
      invariant LineCommentEnd(s, pos) == LineCommentEnd(s, p)
      decreases |s| - pos
    {
      pos := pos + 1;
    }
  }

  /** The skipper's loop over the body of a block comment that starts at `p`. */
  method SkipBlockCommentBody(s: string, p: nat) returns (pos: nat)
    requires p <= |s|
    ensures pos == BlockCommentEnd(s, p)
  {
    pos := p;
    while At(s, pos) != Nul
      invariant p <= pos <= |s|
      invariant BlockCommentEnd(s, pos) == BlockCommentEnd(s, p)
      decreases |s| - pos
    {
      if At(s, pos) == '*' {
        pos := pos + 1;
        if At(s, pos) == '/' {
          pos := pos + 1;
          assert BlockCommentEnd(s, pos - 2) == pos;
          return;
        }
      } else {
        pos := pos + 1;
      }
    }
  }

  /**
   * scan_whitespace_and_comments: skips whitespace and comments from `p` and
   * returns where the cursor stopped.
   */
  method ScanWhitespaceAndComments(s: string, p: nat) returns (ok: bool, pos: nat)
    requires p <= |s|
    ensures (ok, pos) == SkipTrivia(s, p)
  {
    pos := p;
    while true
      invariant pos <= |s|
      invariant SkipTrivia(s, pos) == SkipTrivia(s, p)
      decreases |s| - pos
    {
      ghost var start := pos;
      pos := SkipSpaces(s, pos);
      if At(s, pos) == '/' {
        pos := pos + 1;
        if At(s, pos) == '/' {
          pos := pos + 1;
          pos := SkipLineCommentBody(s, pos);
          SkipTriviaStep(s, start);
        } else if At(s, pos) == '*' {
          pos := pos + 1;
          pos := SkipBlockCommentBody(s, pos);
          SkipTriviaStep(s, start);
        } else {
          SkipTriviaStep(s, start);
          return false, pos;
        }
      } else {
        SkipTriviaStep(s, start);
        return true, pos;
      }
    }
  }

  /**
   * scan_automatic_semicolon: whether an implicit statement terminator stands
   * at `p`. The token is marked at `p` before any lookahead, so it is empty.
   */
  method ScanAutomaticSemicolon(s: string, p: nat, rangeStarts: set<nat>) returns (found: bool, markedEnd: nat)
    requires p <= |s|
    ensures found == AutomaticSemicolonAt(s, p, rangeStarts)
    ensures markedEnd == p
  {
    markedEnd := p;
    var pos := p;

    while true
      invariant p <= pos <= |s|
      invariant LineBreakSearch(s, pos, rangeStarts) == LineBreakSearch(s, p, rangeStarts)
      decreases |s| - pos
    {
      if At(s, pos) == Nul {
        return true, markedEnd;
      }
      if At(s, pos) == '}' {
        return true, markedEnd;
      }
      if pos in rangeStarts {
        return true, markedEnd;
      }
      if At(s, pos) == '\n' {
        break;
      }
      if !IsSpace(At(s, pos)) {
        return false, markedEnd;
      }
      pos := pos + 1;
    }

    pos := pos + 1;

    var ok;
    ok, pos := ScanWhitespaceAndComments(s, pos);
    if !ok {
      return false, markedEnd;
    }

    found := ScanStatementStart(s, pos);
  }

  /**
   * The `switch` at the end of scan_automatic_semicolon: whether the
   * significant character at `q` (with the few after it that the scanner
   * inspects) begins a new statement.
   */
  method ScanStatementStart(s: string, q: nat) returns (found: bool)
    requires q <= |s|
    ensures found == StartsStatement(s, q)
  {
    var pos := q;
    var c := At(s, pos);
    if IsContinuation(c) {
      found := false;
    } else if c == '+' {
      pos := pos + 1;
      found := At(s, pos) == '+';
    } else if c == '-' {
      pos := pos + 1;
      found := At(s, pos) == '-';
    } else if c == '!' {
      pos := pos + 1;
      found := At(s, pos) != '=';
    } else if c == 'i' {
      pos := pos + 1;
      if At(s, pos) != 'n' {
        assert "in"[1] == 'n' && "instanceof"[1] == 'n';
        return true;
      }
      pos := pos + 1;
      if !IsAlpha(At(s, pos)) {
        return false;
      }
      var rest := "stanceof";
      for i := 0 to 8
        invariant pos == q + 2 + i <= |s|
        invariant forall j :: 0 <= j < i ==> At(s, q + 2 + j) == rest[j]
      {
        if At(s, pos) != rest[i] {
          assert !WordAt(s, q, "instanceof") by {
            assert "instanceof"[2 + i] == rest[i];
          }
          return true;
        }
        pos := pos + 1;
      }
      assert forall j :: 0 <= j < 10 ==> At(s, q + j) == "instanceof"[j] by {
        forall j | 0 <= j < 10 ensures At(s, q + j) == "instanceof"[j] {
          if j >= 2 {
            assert "instanceof"[j] == rest[j - 2];
          }
        }
      }
      if !IsAlpha(At(s, pos)) {
        return false;
      }
      found := true;
    } else {
      found := true;
    }
  }

  /**
   * tree_sitter_kotlin_external_scanner_scan: the lexer asks at `p` for one of
   * the tokens that are valid there. With the automatic semicolon valid, the
   * answer is that scanner's alone; otherwise leading whitespace is skipped
   * (it does not belong to the token) before a block comment is tried.
   */
  method Scan(s: string, p: nat, rangeStarts: set<nat>, semicolonValid: bool, commentValid: bool)
    returns (out: Outcome)
    requires p <= |s|
    ensures semicolonValid ==>
      out == if AutomaticSemicolonAt(s, p, rangeStarts) then Token(AutomaticSemicolon, p, p) else NoToken
    ensures !semicolonValid ==>
      var a := SpaceRunEnd(s, p);
      out == if commentValid && MultilineCommentEnd(s, a).Some?
             then Token(MultilineComment, a, MultilineCommentEnd(s, a).value)
             else NoToken
  {
    if semicolonValid {
      var found, markedEnd := ScanAutomaticSemicolon(s, p, rangeStarts);
      return if found then Token(AutomaticSemicolon, p, markedEnd) else NoToken;
    }

    var pos := SkipSpaces(s, p);
    if commentValid {
      var found, markedEnd := ScanMultilineComment(s, pos);
      if found {
        return Token(MultilineComment, pos, markedEnd);
      }
    }
    return NoToken;
  }
}

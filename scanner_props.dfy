/**
 * Properties of the external scanner's decisions (module ScannerSpec): what
 * each scanning function computes, stated without reference to its loop, and
 * what the automatic-semicolon decision is for text laid out as a line of
 * horizontal whitespace, a line feed, whitespace and comments, and the next
 * significant character.
 */
module ScannerProperties {
  import opened Chars
  import opened ScannerSpec

  // ---------------------------------------------------------------------
  // Text laid out at a position
  // ---------------------------------------------------------------------

  /** The text `w` stands in `s` at position `a`. */
  predicate TextAt(s: string, a: nat, w: string) {
    a + |w| <= |s| && forall j {:trigger w[j]} :: 0 <= j < |w| ==> s[a + j] == w[j]
  }

  lemma TextAtSplitFirst(s: string, a: nat, u: string, v: string)
    requires TextAt(s, a, u + v)
    ensures TextAt(s, a, u)
  {
    forall j | 0 <= j < |u| ensures s[a + j] == u[j] {
      assert (u + v)[j] == u[j];
    }
  }

  lemma TextAtSplitSecond(s: string, a: nat, u: string, v: string)
    requires TextAt(s, a, u + v)
    ensures TextAt(s, a + |u|, v)
  {
    forall j | 0 <= j < |v| ensures s[a + |u| + j] == v[j] {
      assert (u + v)[|u| + j] == v[j];
    }
  }

  lemma TextAtJoin(s: string, a: nat, u: string, v: string)
    requires TextAt(s, a, u) && TextAt(s, a + |u|, v)
    ensures TextAt(s, a, u + v)
  {
    forall j | 0 <= j < |u + v| ensures s[a + j] == (u + v)[j] {
      if j < |u| {
        assert u[j] == (u + v)[j];
      } else {
        assert v[j - |u|] == (u + v)[j];
      }
    }
  }

  lemma TextAtChar(s: string, a: nat, w: string, j: nat)
    requires TextAt(s, a, w) && j < |w|
    ensures At(s, a + j) == w[j]
  {
  }

  /** Whitespace other than a line feed at every position of `[p, k)`, none of them an included-range start. */
  predicate HorizontalBlank(s: string, p: nat, k: nat, rangeStarts: set<nat>) {
    p <= k <= |s| && forall j :: p <= j < k ==> IsSpace(s[j]) && s[j] != '\n' && j !in rangeStarts
  }

  // ---------------------------------------------------------------------
  // What the scanning functions compute
  // ---------------------------------------------------------------------

  /** SpaceRunEnd is the first position at or after `p` that is not whitespace. */
  lemma {:induction false} SpaceRunEndIsFirstNonSpace(s: string, p: nat, q: nat)
    requires p <= q <= |s|
    ensures SpaceRunEnd(s, p) == q <==> (forall k :: p <= k < q ==> IsSpace(s[k])) && !IsSpace(At(s, q))
    decreases q - p
  {
    if p < q && IsSpace(s[p]) {
      SpaceRunEndIsFirstNonSpace(s, p + 1, q);
    }
  }

  /** LineCommentEnd is the first position at or after `p` holding a line feed or the end of the input. */
  lemma {:induction false} LineCommentEndIsLineEnd(s: string, p: nat, q: nat)
    requires p <= q <= |s|
    ensures LineCommentEnd(s, p) == q <==>
      (forall k :: p <= k < q ==> s[k] != Nul && s[k] != '\n') && (At(s, q) == Nul || At(s, q) == '\n')
    decreases q - p
  {
    if p < q && s[p] != Nul && s[p] != '\n' {
      LineCommentEndIsLineEnd(s, p + 1, q);
    }
  }

  /**
   * BlockCommentEnd stops just after the first terminator at or after `p`
   * (a star that belongs to the opener never counts), or at the end of the
   * input when the comment is not closed.
   */
  lemma {:induction false} BlockCommentEndIsFirstTerminator(s: string, p: nat)
    requires p <= |s|
    ensures var q := BlockCommentEnd(s, p);
      || (q >= p + 2 && ClosesAt(s, q - 2) && OpenBetween(s, p, q - 2))
      || (At(s, q) == Nul && OpenBetween(s, p, q))
    decreases |s| - p
  {
    if At(s, p) != Nul && !ClosesAt(s, p) {
      BlockCommentEndIsFirstTerminator(s, p + 1);
    }
  }

  /** A body free of terminators up to a terminator at `q` ends the block comment just after it. */
  lemma {:induction false} BlockCommentEndAtTerminator(s: string, p: nat, q: nat)
    requires p <= q && q + 2 <= |s|
    requires OpenBetween(s, p, q) && ClosesAt(s, q)
    ensures BlockCommentEnd(s, p) == q + 2
    decreases q - p
  {
    if p < q {
      assert !BodyStop(s, p);
      BlockCommentEndAtTerminator(s, p + 1, q);
    }
  }

  /**
   * A block comment that is never closed is skipped to the end of the input,
   * and the skipper then answers true there.
   */
  lemma UnterminatedBlockCommentSkipped(s: string, a: nat)
    requires a + 2 <= |s| && s[a] == '/' && s[a + 1] == '*'
    requires OpenBetween(s, a + 2, |s|)
    ensures SkipTrivia(s, a) == (true, |s|)
  {
    assert SpaceRunEnd(s, a) == a;
    SkipTriviaStep(s, a);
    BlockCommentEndIsFirstTerminator(s, a + 2);
    OpenToEnd(s, a + 2, BlockCommentEnd(s, a + 2));
    SkipTriviaAtSignificant(s, |s|);
  }

  /** In a body open up to the end of the input, the end is the only stop. */
  lemma OpenToEnd(s: string, p: nat, q: nat)
    requires p <= q <= |s| && OpenBetween(s, p, |s|)
    ensures At(s, q) == Nul ==> q == |s|
    ensures q >= p + 2 ==> !ClosesAt(s, q - 2)
  {
    assert q < |s| ==> !BodyStop(s, q);
    assert q >= p + 2 ==> !BodyStop(s, q - 2);
  }

  /**
   * The skipper answers false exactly when it stops just after a `/` that
   * opens no comment; when it answers true it stops at a character that is
   * neither whitespace nor `/`.
   */
  lemma {:induction false} SkipTriviaStopsAtSignificant(s: string, p: nat)
    requires p <= |s|
    ensures SignificantStop(s, p, SkipTrivia(s, p))
    decreases |s| - p
  {
    var a := SpaceRunEnd(s, p);
    SpaceRunEndIsFirstNonSpace(s, p, a);
    SkipTriviaStep(s, p);
    if At(s, a) == '/' && At(s, a + 1) == '/' {
      var e := LineCommentEnd(s, a + 2);
      SkipTriviaStopsAtSignificant(s, e);
      SignificantStopFromLater(s, p, e, SkipTrivia(s, e));
    } else if At(s, a) == '/' && At(s, a + 1) == '*' {
      var e := BlockCommentEnd(s, a + 2);
      SkipTriviaStopsAtSignificant(s, e);
      SignificantStopFromLater(s, p, e, SkipTrivia(s, e));
    } else if At(s, a) == '/' {
      assert SkipTrivia(s, p) == (false, a + 1);
    } else {
      assert SkipTrivia(s, p) == (true, a);
    }
  }

  lemma SignificantStopFromLater(s: string, p: nat, e: nat, r: (bool, nat))
    requires p <= e && SignificantStop(s, e, r)
    ensures SignificantStop(s, p, r)
  {
  }

  /**
   * Where a skip from `p` with answer `r` may stop: at a character that is
   * neither whitespace nor `/` when it answers true, just after a `/` that
   * opens no comment when it answers false.
   */
  predicate SignificantStop(s: string, p: nat, r: (bool, nat)) {
    && (r.0 ==> !IsSpace(At(s, r.1)) && At(s, r.1) != '/')
    && (!r.0 ==> r.1 > p && At(s, r.1 - 1) == '/' && At(s, r.1) != '/' && At(s, r.1) != '*')
  }

  /** Skipping again from where a successful skip stopped goes nowhere. */
  lemma SkipTriviaIdempotent(s: string, p: nat)
    requires p <= |s|
    ensures var r := SkipTrivia(s, p);
      r.0 ==> SkipTrivia(s, r.1) == (true, r.1)
  {
    var r := SkipTrivia(s, p);
    SkipTriviaStopsAtSignificant(s, p);
    if r.0 {
      SpaceRunEndIsFirstNonSpace(s, r.1, r.1);
    }
  }

  /** At a character that is neither whitespace nor a comment opener the skipper stops at once. */
  lemma SkipTriviaAtSignificant(s: string, q: nat)
    requires q <= |s|
    requires !IsSpace(At(s, q)) && !(At(s, q) == '/' && (At(s, q + 1) == '/' || At(s, q + 1) == '*'))
    ensures SkipTrivia(s, q) == if At(s, q) == '/' then (false, q + 1) else (true, q)
  {
    SpaceRunEndIsFirstNonSpace(s, q, q);
    SkipTriviaStep(s, q);
  }

  /** A whitespace character in front of the cursor changes nothing in the skipper's answer. */
  lemma SkipTriviaOverSpace(s: string, a: nat)
    requires a < |s| && IsSpace(s[a])
    ensures SkipTrivia(s, a) == SkipTrivia(s, a + 1)
  {
    assert SpaceRunEnd(s, a) == SpaceRunEnd(s, a + 1);
  }

  /** LineBreakSearch is the first position at or after `p` where the horizontal scan stops. */
  lemma {:induction false} LineBreakSearchIsFirstStop(s: string, p: nat, rangeStarts: set<nat>, h: nat)
    requires p <= h <= |s|
    ensures LineBreakSearch(s, p, rangeStarts) == h <==>
      HorizontalBlank(s, p, h, rangeStarts) && LineScanStops(s, h, rangeStarts)
    decreases h - p
  {
    if p < h && !LineScanStops(s, p, rangeStarts) {
      LineBreakSearchIsFirstStop(s, p + 1, rangeStarts, h);
    }
  }

  // ---------------------------------------------------------------------
  // Whitespace and comments as text
  // ---------------------------------------------------------------------

  /** One piece of the text that the skipper passes over. */
  datatype Trivia =
    | Blank(c: char)               // one whitespace character
    | LineComment(text: string)    // `//` text, and the line feed that ends it
    | BlockComment(text: string)   // `/*` text `*/`

  function Render(t: Trivia): string {
    match t
    case Blank(c) => [c]
    case LineComment(text) => "//" + text + "\n"
    case BlockComment(text) => "/*" + text + "*/"
  }

  function RenderAll(ts: seq<Trivia>): string {
    if ts == [] then "" else Render(ts[0]) + RenderAll(ts[1..])
  }

  /** The number of characters a piece takes up. */
  function Size(t: Trivia): nat {
    match t
    case Blank(_) => 1
    case LineComment(text) => |text| + 3
    case BlockComment(text) => |text| + 4
  }

  /** The number of characters a run of pieces takes up. */
  function Width(ts: seq<Trivia>): nat {
    if ts == [] then 0 else Size(ts[0]) + Width(ts[1..])
  }

  lemma {:induction false} WidthIsRenderedLength(ts: seq<Trivia>)
    ensures Width(ts) == |RenderAll(ts)|
    decreases |ts|
  {
    if ts != [] {
      assert Size(ts[0]) == |Render(ts[0])|;
      WidthIsRenderedLength(ts[1..]);
    }
  }

  /** A piece reads back as itself: a whitespace character; a comment text without an end of input, and without a line feed or a terminator where those would end it early. */
  predicate WellFormed(t: Trivia) {
    match t
    case Blank(c) => IsSpace(c)
    case LineComment(text) => forall i :: 0 <= i < |text| ==> text[i] != Nul && text[i] != '\n'
    case BlockComment(text) =>
      forall i :: 0 <= i < |text| ==> text[i] != Nul && !TerminatorIn(text, i)
  }

  /** A terminator `*` `/` starts at index `i` of `text`. */
  predicate TerminatorIn(text: string, i: nat) {
    i + 1 < |text| && text[i] == '*' && text[i + 1] == '/'
  }

  lemma LineCommentPiece(s: string, a: nat, text: string)
    requires TextAt(s, a, "//" + text + "\n") && WellFormed(LineComment(text))
    ensures SkipTrivia(s, a) == SkipTrivia(s, a + |text| + 3)
  {
    var w := "//" + text + "\n";
    TextAtChar(s, a, w, 0);
    TextAtChar(s, a, w, 1);
    TextAtChar(s, a, w, |text| + 2);
    SpaceRunEndIsFirstNonSpace(s, a, a);
    SkipTriviaStep(s, a);
    forall k | a + 2 <= k < a + 2 + |text| ensures s[k] != Nul && s[k] != '\n' {
      TextAtChar(s, a, w, k - a);
    }
    LineCommentEndIsLineEnd(s, a + 2, a + 2 + |text|);
    SkipTriviaOverSpace(s, a + 2 + |text|);
  }

  lemma BlockCommentPiece(s: string, a: nat, text: string)
    requires TextAt(s, a, "/*" + text + "*/") && WellFormed(BlockComment(text))
    ensures SkipTrivia(s, a) == SkipTrivia(s, a + |text| + 4)
  {
    var w := "/*" + text + "*/";
    TextAtChar(s, a, w, 0);
    TextAtChar(s, a, w, 1);
    TextAtChar(s, a, w, |text| + 2);
    TextAtChar(s, a, w, |text| + 3);
    SpaceRunEndIsFirstNonSpace(s, a, a);
    SkipTriviaStep(s, a);
    forall k | a + 2 <= k < a + 2 + |text| ensures !BodyStop(s, k) {
      TextAtChar(s, a, w, k - a);
      TextAtChar(s, a, w, k - a + 1);
    }
    BlockCommentEndAtTerminator(s, a + 2, a + 2 + |text|);
  }

  /** The skipper passes over one well-formed piece without changing its answer. */
  lemma SkipTriviaOverPiece(s: string, a: nat, t: Trivia)
    requires TextAt(s, a, Render(t)) && WellFormed(t)
    ensures SkipTrivia(s, a) == SkipTrivia(s, a + Size(t))
  {
    match t {
      case Blank(c) =>
        TextAtChar(s, a, Render(t), 0);
        SkipTriviaOverSpace(s, a);
      case LineComment(text) =>
        LineCommentPiece(s, a, text);
      case BlockComment(text) =>
        BlockCommentPiece(s, a, text);
    }
  }

  /** The pieces `ts`, each well formed, stand one after the other in `s` from position `a`. */
  predicate RunAt(s: string, a: nat, ts: seq<Trivia>)
    decreases |ts|
  {
    a <= |s| && (ts == [] || (TextAt(s, a, Render(ts[0])) && WellFormed(ts[0]) && RunAt(s, a + Size(ts[0]), ts[1..])))
  }

  /** The run is exactly the rendered text of its pieces. */
  lemma RunAtRendered(s: string, a: nat, ts: seq<Trivia>)
    ensures RunAt(s, a, ts) <==> a <= |s| && TextAt(s, a, RenderAll(ts)) && forall t <- ts :: WellFormed(t)
  {
    if RunAt(s, a, ts) {
      RunAtIsRendered(s, a, ts);
    }
    if a <= |s| && TextAt(s, a, RenderAll(ts)) && forall t <- ts :: WellFormed(t) {
      RenderedIsRunAt(s, a, ts);
    }
  }

  lemma {:induction false} RunAtIsRendered(s: string, a: nat, ts: seq<Trivia>)
    requires RunAt(s, a, ts)
    ensures TextAt(s, a, RenderAll(ts)) && forall t <- ts :: WellFormed(t)
    decreases |ts|
  {
    if ts != [] {
      var u, v := Render(ts[0]), RenderAll(ts[1..]);
      assert Size(ts[0]) == |u|;
      RunAtIsRendered(s, a + |u|, ts[1..]);
      TextAtJoin(s, a, u, v);
      assert RenderAll(ts) == u + v;
      assert forall t <- ts :: t == ts[0] || t in ts[1..];
    }
  }

  lemma {:induction false} RenderedIsRunAt(s: string, a: nat, ts: seq<Trivia>)
    requires a <= |s| && TextAt(s, a, RenderAll(ts)) && forall t <- ts :: WellFormed(t)
    ensures RunAt(s, a, ts)
    decreases |ts|
  {
    if ts != [] {
      RenderedHead(s, a, ts);
      WellFormedPieces(ts);
      RenderedIsRunAt(s, a + Size(ts[0]), ts[1..]);
      RunAtCons(s, a, ts);
    }
  }

  lemma WellFormedPieces(ts: seq<Trivia>)
    requires ts != [] && forall t <- ts :: WellFormed(t)
    ensures WellFormed(ts[0]) && forall t <- ts[1..] :: WellFormed(t)
  {
    assert ts[0] in ts;
    assert forall t <- ts[1..] :: t in ts;
  }

  lemma RunAtCons(s: string, a: nat, ts: seq<Trivia>)
    requires ts != [] && a <= |s| && TextAt(s, a, Render(ts[0])) && WellFormed(ts[0])
    requires RunAt(s, a + Size(ts[0]), ts[1..])
    ensures RunAt(s, a, ts)
  {
  }

  /** The rendered text of a run starts with the rendered text of its first piece, and the rest follows it. */
  lemma RenderedHead(s: string, a: nat, ts: seq<Trivia>)
    requires ts != [] && TextAt(s, a, RenderAll(ts))
    ensures TextAt(s, a, Render(ts[0])) && TextAt(s, a + Size(ts[0]), RenderAll(ts[1..]))
  {
    TextAtRenderAllCons(s, a, ts);
    TextAtFirstPiece(s, a, ts);
    TextAtOtherPieces(s, a, ts);
  }

  lemma TextAtFirstPiece(s: string, a: nat, ts: seq<Trivia>)
    requires ts != [] && TextAt(s, a, Render(ts[0]) + RenderAll(ts[1..]))
    ensures TextAt(s, a, Render(ts[0]))
  {
    TextAtSplitFirst(s, a, Render(ts[0]), RenderAll(ts[1..]));
  }

  lemma TextAtOtherPieces(s: string, a: nat, ts: seq<Trivia>)
    requires ts != [] && TextAt(s, a, Render(ts[0]) + RenderAll(ts[1..]))
    ensures TextAt(s, a + Size(ts[0]), RenderAll(ts[1..]))
  {
    SizeIsRenderedLength(ts[0]);
    TextAtSplitSecond(s, a, Render(ts[0]), RenderAll(ts[1..]));
  }

  lemma TextAtRenderAllCons(s: string, a: nat, ts: seq<Trivia>)
    requires ts != [] && TextAt(s, a, RenderAll(ts))
    ensures TextAt(s, a, Render(ts[0]) + RenderAll(ts[1..]))
  {
    RenderAllCons(ts);
  }

  lemma RenderAllCons(ts: seq<Trivia>)
    requires ts != []
    ensures RenderAll(ts) == Render(ts[0]) + RenderAll(ts[1..])
  {
  }

  lemma SizeIsRenderedLength(t: Trivia)
    ensures Size(t) == |Render(t)|
  {
  }

  /** The skipper passes over a well-formed run of whitespace and comments, ending at `e`, without changing its answer. */
  lemma {:induction false} SkipTriviaOverRun(s: string, a: nat, ts: seq<Trivia>, e: nat)
    requires RunAt(s, a, ts) && e == a + Width(ts)
    ensures e <= |s| && SkipTrivia(s, a) == SkipTrivia(s, e)
    decreases |ts|
  {
    if ts != [] {
      var m := a + Size(ts[0]);
      SkipTriviaOverPiece(s, a, ts[0]);
      SkipTriviaOverRun(s, m, ts[1..], e);
    }
  }

  /** After a well-formed run ending at `q`, at a character that opens no comment, the skipper stops. */
  lemma SkipTriviaOverRunToText(s: string, a: nat, ts: seq<Trivia>, q: nat)
    requires RunAt(s, a, ts) && q == a + Width(ts)
    requires !IsSpace(At(s, q)) && !(At(s, q) == '/' && (At(s, q + 1) == '/' || At(s, q + 1) == '*'))
    ensures q <= |s| && SkipTrivia(s, a) == if At(s, q) == '/' then (false, q + 1) else (true, q)
  {
    SkipTriviaOverRun(s, a, ts, q);
    SkipTriviaAtSignificant(s, q);
  }

  // ---------------------------------------------------------------------
  // The automatic semicolon
  // ---------------------------------------------------------------------

  /** Before any line feed, the end of the input, a `}` or an included-range start is a terminator. */
  lemma SemicolonAtClose(s: string, p: nat, k: nat, rangeStarts: set<nat>)
    requires HorizontalBlank(s, p, k, rangeStarts)
    requires At(s, k) == Nul || At(s, k) == '}' || k in rangeStarts
    ensures AutomaticSemicolonAt(s, p, rangeStarts)
  {
    LineBreakSearchIsFirstStop(s, p, rangeStarts, k);
  }

  /** Before any line feed, any other non-whitespace character means no terminator. */
  lemma NoSemicolonBeforeCode(s: string, p: nat, k: nat, rangeStarts: set<nat>)
    requires HorizontalBlank(s, p, k, rangeStarts)
    requires !IsSpace(At(s, k)) && At(s, k) != Nul && At(s, k) != '}' && k !in rangeStarts
    ensures !AutomaticSemicolonAt(s, p, rangeStarts)
  {
    LineBreakSearchIsFirstStop(s, p, rangeStarts, k);
  }

  /** After a line feed the decision is the skipper's, taken from just past the line feed. */
  lemma SemicolonDecidedAfterBreak(s: string, p: nat, k: nat, rangeStarts: set<nat>)
    requires HorizontalBlank(s, p, k, rangeStarts)
    requires At(s, k) == '\n' && k !in rangeStarts
    ensures var r := SkipTrivia(s, k + 1);
      AutomaticSemicolonAt(s, p, rangeStarts) == (r.0 && StartsStatement(s, r.1))
  {
    LineBreakSearchIsFirstStop(s, p, rangeStarts, k);
  }

  /**
   * After a line feed and any well-formed whitespace and comments, the
   * decision is made by the next significant text alone.
   */
  lemma SemicolonAfterLineBreak(s: string, p: nat, k: nat, rangeStarts: set<nat>, ts: seq<Trivia>, q: nat)
    requires HorizontalBlank(s, p, k, rangeStarts)
    requires At(s, k) == '\n' && k !in rangeStarts
    requires RunAt(s, k + 1, ts) && q == k + 1 + Width(ts)
    requires !IsSpace(At(s, q)) && !(At(s, q) == '/' && (At(s, q + 1) == '/' || At(s, q + 1) == '*'))
    ensures AutomaticSemicolonAt(s, p, rangeStarts) == StartsStatement(s, q)
  {
    SemicolonDecidedAfterBreak(s, p, k, rangeStarts);
    SkipTriviaOverRunToText(s, k + 1, ts, q);
    if At(s, q) == '/' {
      SlashContinues(s, q);
    }
  }

  /** A line that starts with a `/` that opens no comment continues the statement. */
  lemma SlashContinues(s: string, q: nat)
    requires At(s, q) == '/'
    ensures !StartsStatement(s, q)
  {
    assert IsContinuation('/');
  }

  /** Nothing that only horizontal whitespace separates from `p` is consumed by a false answer before the line feed. */
  lemma SemicolonOnlySkipsWhitespace(s: string, p: nat, rangeStarts: set<nat>)
    requires p <= |s|
    ensures var h := LineBreakSearch(s, p, rangeStarts);
      (forall j :: p <= j < h ==> IsSpace(s[j]) && s[j] != '\n') &&
      (h <= |s| && At(s, h) != '\n' && At(s, h) != Nul && At(s, h) != '}' && h !in rangeStarts ==>
         !IsSpace(At(s, h)) && !AutomaticSemicolonAt(s, p, rangeStarts))
  {
    var h := LineBreakSearch(s, p, rangeStarts);
    LineBreakSearchIsFirstStop(s, p, rangeStarts, h);
  }

  /** `in` and `instanceof` as whole words continue the statement. */
  lemma KeywordExamples()
    ensures !AutomaticSemicolonAt("a\nin b", 1, {}) && !AutomaticSemicolonAt("a\ninstanceof B", 1, {})
  {
    assert WordAt("a\nin b", 2, "in");
    assert WordAt("a\ninstanceof B", 2, "instanceof");
  }

  /** A longer word that starts with `in` begins a new statement. */
  lemma InPrefixExample()
    ensures AutomaticSemicolonAt("a\nint", 1, {})
  {
    assert !WordAt("a\nint", 2, "instanceof") by {
      assert At("a\nint", 4) == 't' && "instanceof"[2] == 's';
    }
  }

  /** A longer word that starts with `instanceof` begins a new statement. */
  lemma InstanceofPrefixExample()
    ensures AutomaticSemicolonAt("a\ninstanceofs", 1, {})
  {
    assert !WordAt("a\ninstanceofs", 2, "in") && !WordAt("a\ninstanceofs", 2, "instanceof") by {
      assert At("a\ninstanceofs", 4) == 's' && At("a\ninstanceofs", 12) == 's';
    }
  }

  /** Examples of the operators that continue or break a statement across a line feed. */
  lemma OperatorExamples()
    ensures !AutomaticSemicolonAt("x\n.y", 1, {}) && AutomaticSemicolonAt("a\n++b", 1, {})
    ensures !AutomaticSemicolonAt("a\n+ b", 1, {}) && !AutomaticSemicolonAt("a\n!= b", 1, {})
    ensures AutomaticSemicolonAt("a\n!b", 1, {})
  {
  }

  /** Before the line feed: the end of the input and `}` terminate, other text does not. */
  lemma SameLineExamples()
    ensures AutomaticSemicolonAt("a", 1, {}) && AutomaticSemicolonAt("a }", 1, {}) && !AutomaticSemicolonAt("a b", 1, {})
    ensures !AutomaticSemicolonAt("a // c\nb", 1, {})
  {
  }

  /** A line comment after the line feed is skipped. */
  lemma LineCommentAfterBreakExample()
    ensures AutomaticSemicolonAt("a\n// c\nb", 1, {})
  {
    var s := "a\n// c\nb";
    assert LineBreakSearch(s, 1, {}) == 1;
    assert SpaceRunEnd(s, 2) == 2;
    assert LineCommentEnd(s, 4) == 6;
    SkipTriviaStep(s, 2);
    assert SpaceRunEnd(s, 6) == 7;
    SkipTriviaStep(s, 6);
  }

  /** A block comment after the line feed is skipped. */
  lemma BlockCommentAfterBreakExample()
    ensures AutomaticSemicolonAt("a\n/* d */b", 1, {})
  {
    var s := "a\n/* d */b";
    assert LineBreakSearch(s, 1, {}) == 1;
    assert SpaceRunEnd(s, 2) == 2;
    assert BlockCommentEnd(s, 4) == 9;
    SkipTriviaStep(s, 2);
    assert SpaceRunEnd(s, 9) == 9;
    SkipTriviaStep(s, 9);
  }

  /** What follows a skipped comment decides, as if the comment were not there. */
  lemma ContinuationAfterCommentExample()
    ensures !AutomaticSemicolonAt("a\n/* d */.b", 1, {})
  {
    var t := "a\n/* d */.b";
    assert LineBreakSearch(t, 1, {}) == 1;
    assert SpaceRunEnd(t, 2) == 2;
    assert BlockCommentEnd(t, 4) == 9;
    SkipTriviaStep(t, 2);
    assert SpaceRunEnd(t, 9) == 9;
    SkipTriviaStep(t, 9);
  }

  /** A lone `/` at the start of the next line continues the statement. */
  lemma SlashAfterBreakExample()
    ensures !AutomaticSemicolonAt("a\n/x", 1, {})
  {
  }

  // ---------------------------------------------------------------------
  // The block-comment token
  // ---------------------------------------------------------------------

  /** The nesting depth the comment scanner keeps never changes where (or whether) the comment ends. */
  lemma {:induction false} CommentDepthIrrelevant(s: string, k: nat, afterStar: bool, d1: nat, d2: nat)
    requires k <= |s|
    ensures CommentScan(s, k, afterStar, d1) == CommentScan(s, k, afterStar, d2)
    decreases |s| - k
  {
    var c := At(s, k);
    if c == '*' {
      CommentDepthIrrelevant(s, k + 1, true, d1, d2);
    } else if c == '/' {
      if !afterStar {
        if At(s, k + 1) == '*' {
          CommentDepthIrrelevant(s, k + 2, false, d1 + 1, d2 + 1);
        } else {
          CommentDepthIrrelevant(s, k + 1, false, d1, d2);
        }
      }
    } else if c != Nul {
      CommentDepthIrrelevant(s, k + 1, false, d1, d2);
    }
  }

  /** Where the comment scanner's loop ends: after a `/`, straight after a `*`, with no end of input on the way. */
  lemma {:induction false} CommentScanEndsAfterTerminator(s: string, k: nat, afterStar: bool, depth: nat)
    requires k <= |s|
    ensures var r := CommentScan(s, k, afterStar, depth);
      r.Some? ==>
        && At(s, r.value - 1) == '/'
        && ((afterStar && r.value == k + 1) || (r.value >= k + 2 && At(s, r.value - 2) == '*'))
        && forall j :: k <= j < r.value ==> At(s, j) != Nul
    decreases |s| - k
  {
    var c := At(s, k);
    if c == '*' {
      CommentScanEndsAfterTerminator(s, k + 1, true, depth);
    } else if c == '/' {
      if !afterStar {
        if At(s, k + 1) == '*' {
          CommentScanEndsAfterTerminator(s, k + 2, false, depth + 1);
        } else {
          CommentScanEndsAfterTerminator(s, k + 1, false, depth);
        }
      }
    } else if c != Nul {
      CommentScanEndsAfterTerminator(s, k + 1, false, depth);
    }
  }

  /**
   * scan_multiline_comment fails unless the text starts with the opener
   * (slash, star); when it succeeds the token ends with the terminator
   * (star, slash), is at least four characters long
   * and runs into no end of input.
   */
  lemma MultilineCommentShape(s: string, p: nat)
    requires p <= |s|
    ensures var r := MultilineCommentEnd(s, p);
      && (At(s, p) != '/' || At(s, p + 1) != '*' ==> r == None)
      && (r.Some? ==>
            && p + 4 <= r.value <= |s|
            && At(s, r.value - 2) == '*' && At(s, r.value - 1) == '/'
            && forall j :: p <= j < r.value ==> At(s, j) != Nul)
  {
    if At(s, p) == '/' && At(s, p + 1) == '*' {
      CommentScanEndsAfterTerminator(s, p + 2, false, 1);
    }
  }

  /** No comment opener (slash, star) lies wholly inside `[k, e)`. */
  predicate NoOpenerWithin(s: string, k: nat, e: nat) {
    forall j :: k <= j && j + 1 < e ==> !(At(s, j) == '/' && At(s, j + 1) == '*')
  }

  /**
   * The comment scanner's loop, from cursor `k`, on a comment whose body (up
   * to where the skipper's block comment ends) holds no inner opener. Text
   * after the comment is not constrained.
   */
  lemma {:induction false} CommentScanWithoutOpeners(s: string, k: nat, afterStar: bool, depth: nat)
    requires k <= |s|
    requires afterStar ==> 1 <= k && At(s, k - 1) == '*'
    requires NoOpenerWithin(s, k, BlockCommentEnd(s, if afterStar then k - 1 else k))
    ensures var start := if afterStar then k - 1 else k;
      var e := BlockCommentEnd(s, start);
      CommentScan(s, k, afterStar, depth) == if e >= start + 2 && ClosesAt(s, e - 2) then Some(e) else None
    decreases |s| - k, afterStar
  {
    var c := At(s, k);
    if afterStar {
      if c == '/' {
        assert BlockCommentEnd(s, k - 1) == k + 1;
      } else {
        assert BlockCommentEnd(s, k - 1) == BlockCommentEnd(s, k);
        assert CommentScan(s, k, true, depth) == CommentScan(s, k, false, depth);
        CommentScanWithoutOpeners(s, k, false, depth);
      }
    } else if c == '*' {
      CommentScanWithoutOpeners(s, k + 1, true, depth);
    } else if c == '/' {
      assert BlockCommentEnd(s, k) == BlockCommentEnd(s, k + 1);
      BlockCommentEndAfterSlash(s, k);
      assert At(s, k + 1) != '*';
      CommentScanWithoutOpeners(s, k + 1, false, depth);
    } else if c != Nul {
      assert BlockCommentEnd(s, k) == BlockCommentEnd(s, k + 1);
      CommentScanWithoutOpeners(s, k + 1, false, depth);
    }
  }

  /** A body starting with a slash and a star holds that whole pair. */
  lemma BlockCommentEndAfterSlash(s: string, k: nat)
    requires k < |s| && s[k] == '/'
    ensures At(s, k + 1) == '*' ==> BlockCommentEnd(s, k) >= k + 2
  {
    assert BlockCommentEnd(s, k) == BlockCommentEnd(s, k + 1);
  }

  /**
   * When the comment token's body holds no inner opener, the comment token
   * and the skipper's block comment agree: the token ends exactly where the
   * skipper's comment ends, and the scanner fails exactly when that comment
   * is not closed. Later comments in the text do not matter.
   */
  lemma MultilineCommentAgreesWithSkipper(s: string, p: nat)
    requires p <= |s|
    requires At(s, p) == '/' && At(s, p + 1) == '*'
    requires NoOpenerWithin(s, p + 2, BlockCommentEnd(s, p + 2))
    ensures var e := BlockCommentEnd(s, p + 2);
      MultilineCommentEnd(s, p) == if e >= p + 4 && ClosesAt(s, e - 2) then Some(e) else None
  {
    CommentScanWithoutOpeners(s, p + 2, false, 1);
  }

  /** Two comments in a row: the first token ends at its own terminator. */
  lemma TwoCommentsExample()
    ensures MultilineCommentEnd("/* a */ /* b */", 0) == Some(7)
  {
    var s := "/* a */ /* b */";
    assert BlockCommentEnd(s, 5) == 7;
    assert BlockCommentEnd(s, 2) == 7;
    MultilineCommentAgreesWithSkipper(s, 0);
  }

  /**
   * A terminator before the end of a successful comment token was passed
   * over only because its star was taken as part of an inner opener: the
   * character before it is a slash.
   */
  lemma {:induction false} CommentScanSkipsOnlyOpenerStars(s: string, k: nat, afterStar: bool, depth: nat)
    requires k <= |s|
    ensures var r := CommentScan(s, k, afterStar, depth);
      r.Some? ==> forall j :: k <= j && j + 2 < r.value && ClosesAt(s, j) ==> k < j && At(s, j - 1) == '/'
    decreases |s| - k
  {
    var c := At(s, k);
    if c == '*' {
      CommentScanSkipsOnlyOpenerStars(s, k + 1, true, depth);
    } else if c == '/' {
      if !afterStar {
        if At(s, k + 1) == '*' {
          CommentScanSkipsOnlyOpenerStars(s, k + 2, false, depth + 1);
        } else {
          CommentScanSkipsOnlyOpenerStars(s, k + 1, false, depth);
        }
      }
    } else if c != Nul {
      CommentScanSkipsOnlyOpenerStars(s, k + 1, false, depth);
    }
  }

  /**
   * The terminator that ends a successful comment token is not eaten: its
   * star stands at the cursor or has no slash before it. With
   * CommentScanSkipsOnlyOpenerStars and CommentScanReachesTerminator this
   * places the end just after the first uneaten terminator.
   */
  lemma {:induction false} CommentScanEndIsUneaten(s: string, k: nat, afterStar: bool, depth: nat)
    requires k <= |s|
    ensures var r := CommentScan(s, k, afterStar, depth);
      r.Some? && r.value >= k + 2 ==>
        && ClosesAt(s, r.value - 2)
        && (r.value - 2 == k || At(s, r.value - 3) != '/')
    decreases |s| - k
  {
    var c := At(s, k);
    if c == '*' {
      CommentScanEndIsUneaten(s, k + 1, true, depth);
    } else if c == '/' {
      if !afterStar {
        if At(s, k + 1) == '*' {
          CommentScanEndIsUneaten(s, k + 2, false, depth + 1);
        } else {
          CommentScanEndIsUneaten(s, k + 1, false, depth);
        }
      }
    } else if c != Nul {
      CommentScanEndIsUneaten(s, k + 1, false, depth);
    }
  }

  /**
   * The converse of CommentScanSkipsOnlyOpenerStars: a terminator at `j`
   * whose star is at the cursor or has no slash before it, reached with no
   * end of input on the way, makes the comment loop succeed no later than
   * just after it.
   */
  lemma {:induction false} CommentScanReachesTerminator(s: string, k: nat, afterStar: bool, depth: nat, j: nat)
    requires k <= j && j + 2 <= |s| && ClosesAt(s, j)
    requires j == k || At(s, j - 1) != '/'
    requires forall i :: k <= i < j ==> At(s, i) != Nul
    ensures CommentScan(s, k, afterStar, depth).Some?
    ensures CommentScan(s, k, afterStar, depth).value <= j + 2
    decreases j - k
  {
    if k < j {
      var c := At(s, k);
      if c == '*' {
        CommentScanReachesTerminator(s, k + 1, true, depth, j);
      } else if c == '/' {
        if !afterStar {
          if At(s, k + 1) == '*' {
            assert k + 1 != j;
            CommentScanReachesTerminator(s, k + 2, false, depth + 1, j);
          } else {
            CommentScanReachesTerminator(s, k + 1, false, depth, j);
          }
        }
      } else {
        CommentScanReachesTerminator(s, k + 1, false, depth, j);
      }
    }
  }

  /**
   * After the opener, a terminator whose star has no slash before it and
   * that comes before any end of input makes the comment token succeed,
   * ending no later than that terminator: the scanner fails only by reaching
   * the end of the input.
   */
  lemma MultilineCommentFailsOnlyAtEnd(s: string, p: nat, j: nat)
    requires p + 2 <= j && j + 2 <= |s| && s[p] == '/' && s[p + 1] == '*'
    requires ClosesAt(s, j) && (j == p + 2 || At(s, j - 1) != '/')
    requires forall i :: p + 2 <= i < j ==> At(s, i) != Nul
    ensures MultilineCommentEnd(s, p).Some?
    ensures MultilineCommentEnd(s, p).value <= j + 2
  {
    CommentScanReachesTerminator(s, p + 2, false, 1, j);
  }

  // The star of an opener cannot also start a terminator: on the text
  // "/* /*/ */" the skipper's block comment ends after the inner slash-star-slash,
  // but the comment token runs on to the last terminator.
  lemma SharedStarExample()
    ensures MultilineCommentEnd("/* /*/ */", 0) == Some(9)
    ensures BlockCommentEnd("/* /*/ */", 2) == 6
  {
  }

  // Nested comments are not honoured: in "/* /* */ */" the token ends at the first terminator.
  lemma MultilineCommentStopsAtFirstTerminator()
    ensures MultilineCommentEnd("/* /* */ */", 0) == Some(8)
  {
  }
}

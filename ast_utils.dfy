/** Token and range helpers of the Robot Framework language server
    (`language_server/robotframework/utils/ast.py`). `Position.is_in_range` is
    not part of this model and is passed in as `inRange`. */
module AstUtils {
  import opened Wrappers

  /** A zero-based line and character. */
  datatype Position = Position(line: int, character: int)

  datatype Range = Range(start: Position, end: Position)

  /** `Range.zero()`. */
  const ZeroRange := Range(Position(0, 0), Position(0, 0))

  /** A Robot Framework token: a type, its text and its one-based line and
      zero-based column. */
  datatype Token = Token(kind: Option<string>, value: string, lineno: int, colOffset: int)

  /** A parsed node; its end may be unknown. */
  datatype Node = Node(lineno: int, colOffset: int, endLineno: Option<int>, endColOffset: Option<int>)

  /** Robot Framework's `Token.end_col_offset`: the column just past the text. */
  function EndColOffset(t: Token): int {
    t.colOffset + |t.value|
  }

  /** `range_from_token`: the token's span on its own line. */
  function RangeFromToken(t: Token): (r: Range)
    ensures r.start.line == r.end.line == t.lineno - 1
    ensures r.end.character - r.start.character == |t.value|
    ensures r.start.character == t.colOffset
  {
    Range(Position(t.lineno - 1, t.colOffset), Position(t.lineno - 1, EndColOffset(t)))
  }

  /** `range_from_node`: an unknown end line or column becomes -1. */
  function RangeFromNode(n: Node): (r: Range)
    ensures r.start == Position(n.lineno - 1, n.colOffset)
    ensures n.endLineno.None? ==> r.end.line == -1
    ensures n.endLineno.Some? ==> r.end.line == n.endLineno.value - 1
    ensures r.end.character == (if n.endColOffset.Some? then n.endColOffset.value else -1)
  {
    Range(
      Position(n.lineno - 1, n.colOffset),
      Position(
        if n.endLineno.Some? then n.endLineno.value - 1 else -1,
        if n.endColOffset.Some? then n.endColOffset.value else -1))
  }

  /** `range_from_token_or_node`: the token's range, else the node's, else
      the zero range. */
  function RangeFromTokenOrNode(node: Option<Node>, token: Option<Token>): (r: Range)
    ensures token.Some? ==> r == RangeFromToken(token.value)
    ensures token.None? && node.Some? ==> r == RangeFromNode(node.value)
    ensures token.None? && node.None? ==> r == ZeroRange
  {
    if token.Some? then RangeFromToken(token.value)
    else if node.Some? then RangeFromNode(node.value)
    else ZeroRange
  }

  /** `token_in_range`: the token starts or ends inside the range. */
  function TokenInRange(t: Token, range: Range, inRange: (Position, Range) -> bool): (b: bool)
    ensures b <==> (inRange(Position(t.lineno - 1, t.colOffset), range)
                    || inRange(Position(t.lineno - 1, t.colOffset + |t.value|), range))
  {
    var tokenRange := RangeFromToken(t);
    inRange(tokenRange.start, range) || inRange(tokenRange.end, range)
  }

  /** Whether `get_tokens_at_position` keeps a token. */
  predicate AtPosition(t: Token, position: Position, inRange: (Position, Range) -> bool) {
    inRange(position, RangeFromToken(t)) || RangeFromToken(t).end == position
  }

  /** `get_tokens_at_position`: the tokens whose range contains the position
      or ends at it, in their order. */
  function TokensAtPosition(tokens: seq<Token>, position: Position, inRange: (Position, Range) -> bool): (r: seq<Token>)
    ensures |r| <= |tokens|
    ensures forall t :: t in r <==> t in tokens && AtPosition(t, position, inRange)
    ensures (forall i :: 0 <= i < |tokens| ==> AtPosition(tokens[i], position, inRange)) ==> r == tokens
  {
    if tokens == [] then []
    else
      var rest := TokensAtPosition(tokens[1..], position, inRange);
      assert forall t :: t in tokens <==> t == tokens[0] || t in tokens[1..];
      if AtPosition(tokens[0], position, inRange) then [tokens[0]] + rest else rest
  }

  /** The filter keeps order: filtering a concatenation concatenates the
      filtered parts. */
  lemma {:induction false} TokensAtPositionAppend(a: seq<Token>, b: seq<Token>, position: Position, inRange: (Position, Range) -> bool)
    ensures TokensAtPosition(a + b, position, inRange)
      == TokensAtPosition(a, position, inRange) + TokensAtPosition(b, position, inRange)
  {
    if a != [] {
      assert (a + b)[1..] == a[1..] + b;
      TokensAtPositionAppend(a[1..], b, position, inRange);
    } else {
      assert a + b == b;
    }
  }

  predicate IsBlank(c: char) {
    c == ' ' || c == '\t'
  }

  /** The longest prefix of spaces and tabs. */
  function LeadingBlanks(s: string): (p: string)
    ensures |p| <= |s| && p == s[..|p|]
    ensures forall i :: 0 <= i < |p| ==> IsBlank(p[i])
    ensures |p| == |s| || !IsBlank(s[|p|])
  {
    if s != [] && IsBlank(s[0]) then [s[0]] + LeadingBlanks(s[1..]) else []
  }

  /** The indentation width of blanks: a space counts 1, a tab 2. */
  function Width(p: string): nat {
    if p == [] then 0 else (if p[0] == '\t' then 2 else if p[0] == ' ' then 1 else 0) + Width(p[1..])
  }

  /** The number of occurrences of `c` in `s`. */
  function Occurrences(s: string, c: char): nat {
    if s == [] then 0 else (if s[0] == c then 1 else 0) + Occurrences(s[1..], c)
  }

  /** The width of a run of blanks is its spaces plus twice its tabs. */
  lemma {:induction false} WidthIsSpacesPlusTwiceTabs(p: string)
    requires forall i :: 0 <= i < |p| ==> IsBlank(p[i])
    ensures Width(p) == Occurrences(p, ' ') + 2 * Occurrences(p, '\t')
  {
    if p != [] {
      WidthIsSpacesPlusTwiceTabs(p[1..]);
    }
  }

  /** A blank prefix that cannot be extended is the leading blanks. */
  lemma {:induction false} LeadingBlanksUnique(s: string, n: nat)
    requires n <= |s|
    requires forall k :: 0 <= k < n ==> IsBlank(s[k])
    requires n == |s| || !IsBlank(s[n])
    ensures LeadingBlanks(s) == s[..n]
  {
    if n > 0 {
      LeadingBlanksUnique(s[1..], n - 1);
      assert s[..n] == [s[0]] + s[1..][..n - 1];
    }
  }

  /** `whitespace_at_begin_of_token`. */
  method WhitespaceAtBeginOfToken(t: Token) returns (result: nat)
    ensures result == Width(LeadingBlanks(t.value))
  {
    var s := t.value;
    result := 0;
    var i := 0;
    while i < |s|
      invariant i <= |s|
      invariant forall k :: 0 <= k < i ==> IsBlank(s[k])
      invariant result == Width(s[..i])
    {
      if s[i] == ' ' {
        result := result + 1;
      } else if s[i] == '\t' {
        result := result + 2;
      } else {
        break;
      }
      WidthSnoc(s[..i], s[i]);
      assert s[..i + 1] == s[..i] + [s[i]];
      i := i + 1;
    }
    LeadingBlanksUnique(s, i);
  }

  /** `whitespace_from_begin_of_token`. */
  method WhitespaceFromBeginOfToken(t: Token) returns (result: string)
    ensures result == LeadingBlanks(t.value)
  {
    var s := t.value;
    result := "";
    var i := 0;
    while i < |s|
      invariant i <= |s|
      invariant forall k :: 0 <= k < i ==> IsBlank(s[k])
      invariant result == s[..i]
    {
      if IsBlank(s[i]) {
        result := result + [s[i]];
      } else {
        break;
      }
      assert s[..i + 1] == s[..i] + [s[i]];
      i := i + 1;
    }
    LeadingBlanksUnique(s, i);
  }

  lemma {:induction false} WidthSnoc(p: string, c: char)
    ensures Width(p + [c]) == Width(p) + (if c == '\t' then 2 else if c == ' ' then 1 else 0)
  {
    if p != [] {
      assert (p + [c])[1..] == p[1..] + [c];
      WidthSnoc(p[1..], c);
    } else {
      assert [c][1..] == [];
    }
  }

  /** What Robot Framework's variable iterator yields for one match. */
  datatype Match = Match(before: string, variable: string, remaining: string)

  const Variable := "VARIABLE"

  /** The text the matches cover: each `before` and `variable`, then the
      last `remaining`. */
  function Covered(matches: seq<Match>): string {
    Pieces(matches) + (if matches == [] then "" else matches[|matches| - 1].remaining)
  }

  function Pieces(matches: seq<Match>): string {
    if matches == [] then "" else Pieces(matches[..|matches| - 1]) + matches[|matches| - 1].before + matches[|matches| - 1].variable
  }

  /** The concatenated text of tokens. */
  function Text(tokens: seq<Token>): string {
    if tokens == [] then "" else Text(tokens[..|tokens| - 1]) + tokens[|tokens| - 1].value
  }

  /** Each token starts where the previous one ends, the first at `col`. */
  predicate Contiguous(tokens: seq<Token>, col: int) {
    (tokens != [] ==> tokens[0].colOffset == col)
    && forall i :: 0 <= i < |tokens| - 1 ==> tokens[i + 1].colOffset == tokens[i].colOffset + |tokens[i].value|
  }

  /** Pieces of `t`: on its line, contiguous from its column, each a
      variable or a non-empty piece of the token's own kind. */
  predicate PiecesOf(t: Token, pieces: seq<Token>) {
    && (forall k :: 0 <= k < |pieces| ==> pieces[k].lineno == t.lineno)
    && Contiguous(pieces, t.colOffset)
    && (forall k :: 0 <= k < |pieces| ==> pieces[k].kind == Some(Variable) || (pieces[k].kind == t.kind && pieces[k].value != ""))
  }

  /** The pieces one match yields at column `col`: its text before the
      variable, unless empty, in the token's kind, then the variable. */
  function MatchPieces(t: Token, m: Match, col: int): seq<Token> {
    (if m.before != "" then [Token(t.kind, m.before, t.lineno, col)] else [])
    + [Token(Some(Variable), m.variable, t.lineno, col + |m.before|)]
  }

  /** The pieces the matches yield, each match starting at the column
      where the text of the earlier ones ends. */
  function SplitMatches(t: Token, matches: seq<Match>): seq<Token> {
    if matches == [] then []
    else
      var init := matches[..|matches| - 1];
      SplitMatches(t, init) + MatchPieces(t, matches[|matches| - 1], t.colOffset + |Pieces(init)|)
  }

  /** The whole split: the matches' pieces, then the last match's remaining
      text, unless empty, in the token's kind. */
  function Split(t: Token, matches: seq<Match>): seq<Token> {
    var remaining := if matches == [] then "" else matches[|matches| - 1].remaining;
    SplitMatches(t, matches)
    + (if remaining != "" then [Token(t.kind, remaining, t.lineno, t.colOffset + |Pieces(matches)|)] else [])
  }

  /** The values of the variable pieces, in order. */
  function VariablesOf(pieces: seq<Token>): seq<string> {
    if pieces == [] then []
    else VariablesOf(pieces[..|pieces| - 1])
         + (if pieces[|pieces| - 1].kind == Some(Variable) then [pieces[|pieces| - 1].value] else [])
  }

  /** The variables of the matches, in order. */
  function MatchVariables(matches: seq<Match>): seq<string> {
    if matches == [] then [] else MatchVariables(matches[..|matches| - 1]) + [matches[|matches| - 1].variable]
  }

  lemma {:induction false} VariablesOfAppend(a: seq<Token>, b: seq<Token>)
    ensures VariablesOf(a + b) == VariablesOf(a) + VariablesOf(b)
    decreases |b|
  {
    if b == [] {
      assert a + b == a;
    } else {
      assert (a + b)[..|a + b| - 1] == a + b[..|b| - 1];
      VariablesOfAppend(a, b[..|b| - 1]);
    }
  }

  /** Unless the token itself is a variable, the variable pieces of the
      split are exactly the matches' variables, in order: every other
      piece is text around them. */
  lemma {:induction false} SplitVariables(t: Token, matches: seq<Match>)
    requires t.kind != Some(Variable)
    ensures VariablesOf(Split(t, matches)) == MatchVariables(matches)
  {
    SplitMatchesVariables(t, matches);
    var remaining := if matches == [] then "" else matches[|matches| - 1].remaining;
    var tail := if remaining != "" then [Token(t.kind, remaining, t.lineno, t.colOffset + |Pieces(matches)|)] else [];
    VariablesOfAppend(SplitMatches(t, matches), tail);
    if tail != [] {
      assert tail[..0] == [];
    }
  }

  lemma {:induction false} SplitMatchesVariables(t: Token, matches: seq<Match>)
    requires t.kind != Some(Variable)
    ensures VariablesOf(SplitMatches(t, matches)) == MatchVariables(matches)
  {
    if matches != [] {
      var init := matches[..|matches| - 1];
      var m := matches[|matches| - 1];
      var col := t.colOffset + |Pieces(init)|;
      SplitMatchesVariables(t, init);
      VariablesOfAppend(SplitMatches(t, init), MatchPieces(t, m, col));
      var v := Token(Some(Variable), m.variable, t.lineno, col + |m.before|);
      if m.before != "" {
        var b := Token(t.kind, m.before, t.lineno, col);
        assert MatchPieces(t, m, col) == [b, v];
        assert [b, v][..1] == [b] && [b][..0] == [];
        assert VariablesOf([b]) == [];
        assert VariablesOf([b, v]) == [m.variable];
      } else {
        assert MatchPieces(t, m, col) == [v];
        assert [v][..0] == [];
        assert VariablesOf([v]) == [m.variable];
      }
    }
  }

  /** `_tokenize_variables`: the token split into its text pieces and
      variables, all on the token's line, contiguous from its column,
      with no empty text pieces, covering the matched text. */
  method TokenizeVariables(t: Token, matches: seq<Match>) returns (pieces: seq<Token>)
    ensures pieces == Split(t, matches)
    ensures forall i :: 0 <= i < |pieces| ==> pieces[i].lineno == t.lineno
    ensures Contiguous(pieces, t.colOffset)
    ensures forall i :: 0 <= i < |pieces| ==> pieces[i].kind == Some(Variable) || (pieces[i].kind == t.kind && pieces[i].value != "")
    ensures Text(pieces) == Covered(matches)
  {
    var colOffset := t.colOffset;
    var remaining := "";
    pieces := [];
    var i := 0;
    while i < |matches|
      invariant i <= |matches|
      invariant PiecesOf(t, pieces)
      invariant colOffset == t.colOffset + |Text(pieces)|
      invariant Text(pieces) == Pieces(matches[..i])
      invariant pieces == SplitMatches(t, matches[..i])
      invariant remaining == (if i == 0 then "" else matches[i - 1].remaining)
    {
      var m := matches[i];
      assert matches[..i + 1][..i] == matches[..i];
      pieces, colOffset := EmitMatch(t, m, pieces, colOffset);
      remaining := m.remaining;
      i := i + 1;
    }
    assert matches[..i] == matches;
    if remaining != "" {
      pieces := Emit(t, pieces, t.kind, remaining, colOffset);
    }
  }

  /** One turn of the loop: the text before the variable, when there is
      any, then the variable. */
  method EmitMatch(t: Token, m: Match, pieces: seq<Token>, colOffset: int) returns (r: seq<Token>, col: int)
    requires PiecesOf(t, pieces)
    requires colOffset == t.colOffset + |Text(pieces)|
    ensures PiecesOf(t, r)
    ensures col == t.colOffset + |Text(r)|
    ensures Text(r) == Text(pieces) + m.before + m.variable
    ensures r == pieces + MatchPieces(t, m, colOffset)
  {
    r := pieces;
    col := colOffset;
    if m.before != "" {
      r := Emit(t, r, t.kind, m.before, col);
      col := col + |m.before|;
    }
    r := Emit(t, r, Some(Variable), m.variable, col);
    col := col + |m.variable|;
  }

  /** Appends one piece that starts where the text so far ends. */
  method Emit(t: Token, pieces: seq<Token>, kind: Option<string>, value: string, col: int) returns (r: seq<Token>)
    requires PiecesOf(t, pieces)
    requires col == t.colOffset + |Text(pieces)|
    requires kind == Some(Variable) || (kind == t.kind && value != "")
    ensures r == pieces + [Token(kind, value, t.lineno, col)]
    ensures PiecesOf(t, r)
    ensures Text(r) == Text(pieces) + value
  {
    r := pieces + [Token(kind, value, t.lineno, col)];
    assert r[..|r| - 1] == pieces;
    if pieces != [] {
      TextLength(pieces);
    }
  }

  /** The last piece of contiguous tokens ends at the start column plus the
      length of their text. */
  lemma {:induction false} TextLength(pieces: seq<Token>)
    requires pieces != []
    requires Contiguous(pieces, pieces[0].colOffset)
    ensures pieces[|pieces| - 1].colOffset + |pieces[|pieces| - 1].value| == pieces[0].colOffset + |Text(pieces)|
  {
    var init := pieces[..|pieces| - 1];
    if init != [] {
      assert init[0] == pieces[0];
      assert Contiguous(init, init[0].colOffset);
      TextLength(init);
    }
  }
}

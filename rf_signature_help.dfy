/** Signature help for Robot Framework statements
    (`language_server/robotframework/parts/signature_help.py`): which argument
    the cursor is on, which parameter becomes active, the keyword-call and
    library-import answers, and the lookup of the handler for a node class.
    The keyword and library documentation lookups are passed in; a token is
    known by its index in the statement, which is what `list.index` finds
    because the tokens of a statement sit at distinct positions. */
module RobotSignatureHelp {
  import opened Wrappers
  import opened Text
  import opened AstUtils
  import opened LspTypes

  const Argument := "ARGUMENT"
  const Eol := "EOL"
  const Separator := "SEPARATOR"
  const Name := "NAME"
  const WithName := "WITH NAME"

  predicate IsArgument(t: Token) {
    t.kind == Some(Argument)
  }

  /** `get_tokens(ARGUMENT)`: the argument tokens in order. */
  function Arguments(tokens: seq<Token>): (r: seq<Token>)
    ensures |r| <= |tokens|
  {
    if tokens == [] then []
    else
      var last := tokens[|tokens| - 1];
      Arguments(tokens[..|tokens| - 1]) + (if IsArgument(last) then [last] else [])
  }

  lemma {:induction false} ArgumentsAppend(a: seq<Token>, b: seq<Token>)
    ensures Arguments(a + b) == Arguments(a) + Arguments(b)
    decreases |b|
  {
    if b == [] {
      assert a + b == a;
    } else {
      var b' := b[..|b| - 1];
      assert (a + b)[..|a + b| - 1] == a + b';
      ArgumentsAppend(a, b');
    }
  }

  /** An argument token splits the argument list around itself. */
  lemma ArgumentsSplitAt(tokens: seq<Token>, j: nat)
    requires j < |tokens| && IsArgument(tokens[j])
    ensures Arguments(tokens) == Arguments(tokens[..j]) + [tokens[j]] + Arguments(tokens[j + 1..])
  {
    var upTo := tokens[..j + 1];
    assert upTo[..j] == tokens[..j];
    assert Arguments(upTo) == Arguments(tokens[..j]) + [tokens[j]];
    assert tokens == upTo + tokens[j + 1..];
    ArgumentsAppend(upTo, tokens[j + 1..]);
  }

  /** The index of the last token at the position, that is of
      `get_tokens_at_position(...)[-1]` in the statement. */
  function LastAtPosition(tokens: seq<Token>, position: Position, inRange: (Position, Range) -> bool): (r: Option<nat>)
    ensures r.Some? ==> r.value < |tokens|
  {
    if tokens == [] then None
    else if AtPosition(tokens[|tokens| - 1], position, inRange) then Some(|tokens| - 1)
    else LastAtPosition(tokens[..|tokens| - 1], position, inRange)
  }

  /** The token found is at the position and no later token is. */
  lemma {:induction false} LastAtPositionSpec(tokens: seq<Token>, position: Position, inRange: (Position, Range) -> bool)
    ensures var r := LastAtPosition(tokens, position, inRange);
      r.None? <==> forall i :: 0 <= i < |tokens| ==> !AtPosition(tokens[i], position, inRange)
    ensures var r := LastAtPosition(tokens, position, inRange);
      r.Some? ==> AtPosition(tokens[r.value], position, inRange)
    ensures var r := LastAtPosition(tokens, position, inRange);
      r.Some? ==> forall i :: r.value < i < |tokens| ==> !AtPosition(tokens[i], position, inRange)
  {
    if tokens != [] && !AtPosition(tokens[|tokens| - 1], position, inRange) {
      LastAtPositionSpec(tokens[..|tokens| - 1], position, inRange);
    }
  }

  /** The token found is the last one `get_tokens_at_position` keeps. */
  lemma {:induction false} LastAtPositionIsLastFiltered(tokens: seq<Token>, position: Position, inRange: (Position, Range) -> bool)
    ensures LastAtPosition(tokens, position, inRange).None? <==> TokensAtPosition(tokens, position, inRange) == []
    ensures var f := TokensAtPosition(tokens, position, inRange);
      LastAtPosition(tokens, position, inRange).Some? ==>
        f != [] && f[|f| - 1] == tokens[LastAtPosition(tokens, position, inRange).value]
  {
    if tokens != [] {
      var n := |tokens| - 1;
      var init, t := tokens[..n], tokens[n];
      assert tokens == init + [t];
      if AtPosition(t, position, inRange) {
        assert TokensAtPosition(tokens, position, inRange) == TokensAtPosition(init, position, inRange) + [t] by {
          TokensAtPositionAppend(init, [t], position, inRange);
          TokensAtPositionSingle(t, position, inRange);
        }
      } else {
        assert TokensAtPosition(tokens, position, inRange) == TokensAtPosition(init, position, inRange) by {
          TokensAtPositionAppend(init, [t], position, inRange);
          TokensAtPositionSingle(t, position, inRange);
        }
        LastAtPositionIsLastFiltered(init, position, inRange);
      }
    }
  }

  lemma TokensAtPositionSingle(t: Token, position: Position, inRange: (Position, Range) -> bool)
    ensures TokensAtPosition([t], position, inRange) == if AtPosition(t, position, inRange) then [t] else []
  {
    assert [t][1..] == [];
  }

  /** The nearest argument token at or before index `k`. */
  function NearestArgument(tokens: seq<Token>, k: nat): (r: Option<nat>)
    requires k < |tokens|
    ensures r.None? ==> forall i :: 0 <= i <= k ==> !IsArgument(tokens[i])
    ensures r.Some? ==> r.value <= k && IsArgument(tokens[r.value])
    ensures r.Some? ==> forall i :: r.value < i <= k ==> !IsArgument(tokens[i])
  {
    if IsArgument(tokens[k]) then Some(k)
    else if k == 0 then None
    else NearestArgument(tokens, k - 1)
  }

  /** The backwards search for the argument token. */
  method FindArgumentToken(tokens: seq<Token>, k: nat) returns (j: int)
    requires k < |tokens|
    ensures j == (match NearestArgument(tokens, k) case Some(i) => i case None => -1)
  {
    j := k;
    while j >= 0 && !IsArgument(tokens[j])
      invariant -1 <= j <= k
      invariant NearestArgument(tokens, k) == (if j >= 0 then NearestArgument(tokens, j) else None)
      decreases j + 1
    {
      j := j - 1;
    }
  }

  /** The token's range with its start moved past the first blank: by 2
      after a space, by 1 after a tab. */
  function ShiftedRange(t: Token): (r: Range)
    ensures r.end == RangeFromToken(t).end
  {
    var range := RangeFromToken(t);
    var ws := LeadingBlanks(t.value);
    Range(Position(range.start.line, range.start.character + (if ws != [] && ws[0] != '\t' then 2 else 1)), range.end)
  }

  /** The cursor sits past the separator inside a token that starts with
      more than one column of blanks: it is on the next argument. */
  predicate ShiftedHit(t: Token, position: Position, inRange: (Position, Range) -> bool) {
    Width(LeadingBlanks(t.value)) > 1
    && (inRange(position, ShiftedRange(t)) || ShiftedRange(t).end == position)
  }

  predicate Answerable(t: Token) {
    t.kind == Some(Argument) || t.kind == Some(Eol) || t.kind == Some(Separator)
  }

  /** The argument index shared by keyword calls, fixtures and library
      imports; `None` where the handler gives up. */
  function ArgumentIndex(tokens: seq<Token>, position: Position, inRange: (Position, Range) -> bool): Option<int> {
    var last := LastAtPosition(tokens, position, inRange);
    if last.None? || !Answerable(tokens[last.value]) then None
    else
      var k := last.value;
      var nearest := NearestArgument(tokens, k);
      var index := if nearest.Some? then |Arguments(tokens[..nearest.value])| else -1;
      var shifted := if ShiftedHit(tokens[k], position, inRange) then index + 1 else index;
      if shifted < 0 then None else Some(shifted)
  }

  /** The argument index part of `_signature_help_KeywordCall_or_Fixture`
      and `signature_help_LibraryImport`. */
  method ComputeArgumentIndex(tokens: seq<Token>, position: Position, inRange: (Position, Range) -> bool)
    returns (r: Option<int>)
    ensures r == ArgumentIndex(tokens, position, inRange)
  {
    var last := LastAtPosition(tokens, position, inRange);
    if last.None? {
      return None;
    }
    var k := last.value;
    var token := tokens[k];
    if !Answerable(token) {
      return None;
    }
    var j := FindArgumentToken(tokens, k);
    var argumentIndex := if j >= 0 then |Arguments(tokens[..j])| else -1;
    var width := WhitespaceAtBeginOfToken(token);
    if width > 1 {
      var range := RangeFromToken(token);
      var ws := WhitespaceFromBeginOfToken(token);
      range := range.(start := range.start.(character := range.start.character + if ws != [] && ws[0] != '\t' then 2 else 1));
      if inRange(position, range) || range.end == position {
        argumentIndex := argumentIndex + 1;
      }
    }
    if argumentIndex < 0 {
      return None;
    }
    return Some(argumentIndex);
  }

  /** An index is never negative and at most the number of arguments. */
  lemma ArgumentIndexBounds(tokens: seq<Token>, position: Position, inRange: (Position, Range) -> bool)
    ensures var r := ArgumentIndex(tokens, position, inRange);
      r.Some? ==> 0 <= r.value <= |Arguments(tokens)|
  {
    var last := LastAtPosition(tokens, position, inRange);
    if last.Some? {
      var nearest := NearestArgument(tokens, last.value);
      if nearest.Some? {
        ArgumentsSplitAt(tokens, nearest.value);
      }
    }
  }

  /** Without the blank shift the index names the nearest argument token at
      or before the cursor: it is that token's place among the arguments. */
  lemma ArgumentIndexNamesNearest(tokens: seq<Token>, position: Position, inRange: (Position, Range) -> bool)
    ensures var r := ArgumentIndex(tokens, position, inRange);
      var k := LastAtPosition(tokens, position, inRange);
      r.Some? && !ShiftedHit(tokens[k.value], position, inRange) ==>
        var j := NearestArgument(tokens, k.value);
        j.Some? && r.value < |Arguments(tokens)| && Arguments(tokens)[r.value] == tokens[j.value]
  {
    var last := LastAtPosition(tokens, position, inRange);
    if last.Some? {
      var nearest := NearestArgument(tokens, last.value);
      if nearest.Some? {
        ArgumentsSplitAt(tokens, nearest.value);
      }
    }
  }

  /** With no argument token at or before the cursor and no blank shift
      there is no answer. */
  lemma NoArgumentNoAnswer(tokens: seq<Token>, position: Position, inRange: (Position, Range) -> bool)
    requires var k := LastAtPosition(tokens, position, inRange);
      k.Some? && (forall i :: 0 <= i <= k.value ==> !IsArgument(tokens[i]))
      && !ShiftedHit(tokens[k.value], position, inRange)
    ensures ArgumentIndex(tokens, position, inRange).None?
  {
  }

  function Min(a: int, b: int): int {
    if a <= b then a else b
  }

  /** The index after the overflow rule: past the last parameter, and that
      parameter is not a `*` catch-all, there is no active parameter. */
  function ResetIndex(index: int, args: seq<string>): int {
    if index >= |args| && |args| > 0 && !StartsWith(args[|args| - 1], "*") then -1 else index
  }

  /** `active_parameter`. */
  function ActiveParameter(index: int, args: seq<string>): (a: int)
    requires index >= 0
    ensures -1 <= a < |args|
    ensures index < |args| ==> a == index
    ensures index >= |args| && |args| > 0 && StartsWith(args[|args| - 1], "*") ==> a == |args| - 1
    ensures index >= |args| && (args == [] || !StartsWith(args[|args| - 1], "*")) ==> a == -1
  {
    Min(ResetIndex(index, args), |args| - 1)
  }

  datatype KeywordDoc = KeywordDoc(parameterSignature: string, args: seq<string>)

  /** `get_token(kind)`: the first token of that kind. */
  function FirstOfKind(tokens: seq<Token>, kind: string): (r: Option<nat>)
    ensures r.None? <==> forall i :: 0 <= i < |tokens| ==> tokens[i].kind != Some(kind)
    ensures r.Some? ==> r.value < |tokens| && tokens[r.value].kind == Some(kind)
    ensures r.Some? ==> forall i :: 0 <= i < r.value ==> tokens[i].kind != Some(kind)
  {
    if tokens == [] then None
    else if tokens[0].kind == Some(kind) then Some(0)
    else
      var r := FirstOfKind(tokens[1..], kind);
      if r.Some? then Some(r.value + 1) else None
  }

  /** `_signature_help_KeywordCall_or_Fixture`: `keywordKind` is KEYWORD for
      a keyword call and NAME for a fixture; `lookup` stands for the keyword
      documentation lookup, `namespaceLoaded` for the namespace being there. */
  method KeywordCallSignatureHelp(
    keywordKind: string, tokens: seq<Token>, position: Position, inRange: (Position, Range) -> bool,
    namespaceLoaded: bool, lookup: Token -> Option<KeywordDoc>)
    returns (r: Option<SignatureHelp>)
    ensures var index := ArgumentIndex(tokens, position, inRange);
      var keyword := FirstOfKind(tokens, keywordKind);
      r.Some? <==> namespaceLoaded && index.Some? && keyword.Some? && lookup(tokens[keyword.value]).Some?
    ensures var index := ArgumentIndex(tokens, position, inRange);
      var keyword := FirstOfKind(tokens, keywordKind);
      r.Some? ==>
        var doc := lookup(tokens[keyword.value]).value;
        var active := ActiveParameter(index.value, doc.args);
        r.value == SignatureHelp([SignatureInformation(doc.parameterSignature, doc.args, active)], 0, Some(active))
  {
    if !namespaceLoaded {
      return None;
    }
    var index := ComputeArgumentIndex(tokens, position, inRange);
    if index.None? {
      return None;
    }
    var keyword := FirstOfKind(tokens, keywordKind);
    if keyword.None? {
      return None;
    }
    var doc := lookup(tokens[keyword.value]);
    if doc.None? {
      return None;
    }
    var args := doc.value.args;
    var argumentIndex := ResetIndex(index.value, args);
    var active := Min(argumentIndex, |args| - 1);
    var signature := SignatureInformation(doc.value.parameterSignature, args, active);
    return Some(SignatureHelp([signature], 0, Some(active)));
  }

  /** The index carried from one library init to the next. */
  function IndexAfter(index: int, inits: seq<KeywordDoc>): int {
    if inits == [] then index else IndexAfter(ResetIndex(index, inits[0].args), inits[1..])
  }

  /** One signature per init; a reset index stays reset for the later ones. */
  function InitSignatures(index: int, inits: seq<KeywordDoc>): (r: seq<SignatureInformation>)
    ensures |r| == |inits|
  {
    if inits == [] then []
    else
      var next := ResetIndex(index, inits[0].args);
      [SignatureInformation(inits[0].parameterSignature, inits[0].args, Min(next, |inits[0].args| - 1))]
        + InitSignatures(next, inits[1..])
  }

  /** Each init contributes its own signature, in order. */
  lemma {:induction false} InitSignaturesShape(index: int, inits: seq<KeywordDoc>)
    ensures forall p :: 0 <= p < |inits| ==>
      InitSignatures(index, inits)[p].labelText == inits[p].parameterSignature
      && InitSignatures(index, inits)[p].parameters == inits[p].args
  {
    if inits != [] {
      InitSignaturesShape(ResetIndex(index, inits[0].args), inits[1..]);
    }
  }

  lemma {:induction false} InitSignaturesAppend(index: int, a: seq<KeywordDoc>, b: seq<KeywordDoc>)
    ensures InitSignatures(index, a + b) == InitSignatures(index, a) + InitSignatures(IndexAfter(index, a), b)
  {
    if a != [] {
      assert (a + b)[0] == a[0] && (a + b)[1..] == a[1..] + b;
      InitSignaturesAppend(ResetIndex(index, a[0].args), a[1..], b);
    } else {
      assert a + b == b;
    }
  }

  lemma {:induction false} MinusOneStays(inits: seq<KeywordDoc>)
    ensures forall p :: 0 <= p < |inits| ==> InitSignatures(-1, inits)[p].activeParameter == -1
  {
    if inits != [] {
      MinusOneStays(inits[1..]);
    }
  }

  /** Once an init resets the index, every later init has no active
      parameter, whatever its own parameters. */
  lemma ResetPersists(index: int, a: seq<KeywordDoc>, b: seq<KeywordDoc>)
    requires IndexAfter(index, a) == -1
    ensures forall p :: |a| <= p < |a| + |b| ==> InitSignatures(index, a + b)[p].activeParameter == -1
  {
    InitSignaturesAppend(index, a, b);
    MinusOneStays(b);
    assert forall p :: |a| <= p < |a| + |b| ==> InitSignatures(index, a + b)[p] == InitSignatures(-1, b)[p - |a|];
  }

  predicate PositionLe(a: Position, b: Position) {
    a.line < b.line || (a.line == b.line && a.character <= b.character)
  }

  /** The first token whose text is `WITH NAME`. */
  function WithNameToken(tokens: seq<Token>): (r: Option<nat>)
    ensures r.None? <==> forall i :: 0 <= i < |tokens| ==> tokens[i].value != WithName
    ensures r.Some? ==> r.value < |tokens| && tokens[r.value].value == WithName
  {
    if tokens == [] then None
    else if tokens[0].value == WithName then Some(0)
    else
      var r := WithNameToken(tokens[1..]);
      if r.Some? then Some(r.value + 1) else None
  }

  /** The cursor lies in the arguments of a library import: past the
      character after the name and before `WITH NAME`. */
  predicate InArguments(tokens: seq<Token>, position: Position) {
    var name := FirstOfKind(tokens, Name);
    var withName := WithNameToken(tokens);
    && name.Some?
    && !PositionLe(position, Position(RangeFromToken(tokens[name.value]).end.line, RangeFromToken(tokens[name.value]).end.character + 1))
    && (withName.None? || !PositionLe(RangeFromToken(tokens[withName.value]).start, position))
  }

  /** `signature_help_LibraryImport`; `inits` is the library's init
      documentation, `None` when the library cannot be loaded. */
  method LibraryImportSignatureHelp(
    tokens: seq<Token>, position: Position, inRange: (Position, Range) -> bool, inits: Option<seq<KeywordDoc>>)
    returns (r: Option<SignatureHelp>)
    ensures r.Some? <==>
      InArguments(tokens, position) && inits.Some? && inits.value != [] && ArgumentIndex(tokens, position, inRange).Some?
    ensures r.Some? ==>
      r.value == SignatureHelp(InitSignatures(ArgumentIndex(tokens, position, inRange).value, inits.value), 0, None)
  {
    var name := FirstOfKind(tokens, Name);
    if name.None? {
      return None;
    }
    var nameEnd := RangeFromToken(tokens[name.value]).end;
    if PositionLe(position, nameEnd.(character := nameEnd.character + 1)) {
      return None;
    }
    var withName := WithNameToken(tokens);
    if withName.Some? && PositionLe(RangeFromToken(tokens[withName.value]).start, position) {
      return None;
    }
    if inits.None? {
      return None;
    }
    var index := ComputeArgumentIndex(tokens, position, inRange);
    if index.None? {
      return None;
    }
    var signatures := BuildInitSignatures(index.value, inits.value);
    if signatures == [] {
      return None;
    }
    return Some(SignatureHelp(signatures, 0, None));
  }

  /** The loop over the library's inits, carrying the argument index. */
  method BuildInitSignatures(index: int, inits: seq<KeywordDoc>) returns (signatures: seq<SignatureInformation>)
    ensures signatures == InitSignatures(index, inits)
  {
    var argumentIndex := index;
    signatures := [];
    var i := 0;
    while i < |inits|
      invariant i <= |inits|
      invariant signatures + InitSignatures(argumentIndex, inits[i..]) == InitSignatures(index, inits)
    {
      var init := inits[i];
      ghost var rest := inits[i + 1..];
      assert inits[i..] == [init] + rest;
      argumentIndex := ResetIndex(argumentIndex, init.args);
      var signature := SignatureInformation(init.parameterSignature, init.args, Min(argumentIndex, |init.args| - 1));
      ghost var later := InitSignatures(argumentIndex, rest);
      assert signatures + ([signature] + later) == signatures + [signature] + later;
      signatures := signatures + [signature];
      i := i + 1;
    }
    assert InitSignatures(argumentIndex, inits[i..]) == [];
  }

  /** A Python class with its bases in declaration order. */
  datatype PyClass = PyClass(name: string, bases: seq<PyClass>)

  const AstClass := "AST"

  /** Some class on the search path, stopping at `ast.AST`, has a handler. */
  predicate HasHandler(c: PyClass, handlers: set<string>) {
    c.name != AstClass
    && ("signature_help_" + c.name in handlers
        || exists i :: 0 <= i < |c.bases| && HasHandler(c.bases[i], handlers))
  }

  /** `_find_method`: the class whose `signature_help_<name>` handler is
      used, searching the class itself and then its bases depth-first. */
  function FindMethod(c: PyClass, handlers: set<string>): (r: Option<string>)
    ensures r.None? <==> !HasHandler(c, handlers)
    ensures r.Some? ==> "signature_help_" + r.value in handlers
    ensures c.name != AstClass && "signature_help_" + c.name in handlers ==> r == Some(c.name)
    decreases c
  {
    if c.name == AstClass then None
    else if "signature_help_" + c.name in handlers then Some(c.name)
    else FindInBases(c.bases, handlers)
  }

  /** The first base, in declaration order, whose search finds a handler. */
  function FindInBases(bases: seq<PyClass>, handlers: set<string>): (r: Option<string>)
    ensures r.None? <==> forall i :: 0 <= i < |bases| ==> !HasHandler(bases[i], handlers)
    ensures r.Some? ==> "signature_help_" + r.value in handlers
    ensures r.Some? ==> exists i :: (0 <= i < |bases| && r == FindMethod(bases[i], handlers)
      && forall j :: 0 <= j < i ==> !HasHandler(bases[j], handlers))
    decreases bases
  {
    if bases == [] then None
    else
      var m := FindMethod(bases[0], handlers);
      if m.Some? then m
      else
        var rest := FindInBases(bases[1..], handlers);
        assert forall i :: 1 <= i < |bases| ==> bases[i] == bases[1..][i - 1];
        rest
  }
}

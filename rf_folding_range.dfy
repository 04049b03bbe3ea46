/** Folding ranges of a Robot Framework document
    (`language_server/robotframework/parts/folding_range.py`): a visitor walks
    the parsed model and appends one range per section, comment section,
    named test case, named keyword, loop and `IF` block, before visiting
    what the block holds. */
module RobotFoldingRange {
  import opened Wrappers
  import opened LspTypes

  /** The node classes the visitor has a rule for; every other class is
      only walked through. */
  datatype NodeKind = Section | CommentSection | TestCase | Keyword | ForLoop | For | If | OtherNode

  /** A parsed node: its class, its name (test cases and keywords), its
      one-based start line, columns, possibly unknown end, and children in
      field order. */
  datatype AstNode = AstNode(
    kind: NodeKind, name: Option<string>, lineno: int, colOffset: int,
    endLineno: Option<int>, endColOffset: Option<int>, children: seq<AstNode>)

  /** The folding kind of each rule. */
  function KindName(k: NodeKind): (r: Option<string>)
    ensures r.None? <==> k == OtherNode
  {
    match k
    case Section => Some("section")
    case CommentSection => Some("comment")
    case TestCase => Some("testcase")
    case Keyword => Some("keyword")
    case ForLoop => Some("for_loop")
    case For => Some("for")
    case If => Some("if")
    case OtherNode => None
  }

  predicate FoldingKind(kind: string) {
    kind == "section" || kind == "comment" || kind == "testcase" || kind == "keyword"
    || kind == "for_loop" || kind == "for" || kind == "if"
  }

  /** A test case or keyword without a name is skipped, contents and all. */
  predicate Skipped(n: AstNode) {
    (n.kind == TestCase || n.kind == Keyword) && (n.name.None? || n.name.value == "")
  }

  /** The range appended for a node: zero-based lines, the start line for an
      unknown end, and columns only for clients that fold within lines. */
  function RangeFor(n: AstNode, kind: string, lineFoldingOnly: bool): (r: FoldingRange)
    ensures r.startLine == n.lineno - 1
    ensures r.endLine == if n.endLineno.Some? then n.endLineno.value - 1 else n.lineno - 1
    ensures lineFoldingOnly ==> r.startCharacter.None? && r.endCharacter.None?
    ensures !lineFoldingOnly ==> r.startCharacter == Some(n.colOffset) && r.endCharacter == n.endColOffset
    ensures r.kind == Some(kind)
  {
    var endLine := if n.endLineno.Some? then n.endLineno.value - 1 else n.lineno - 1;
    if lineFoldingOnly then FoldingRange(n.lineno - 1, endLine, None, None, Some(kind))
    else FoldingRange(n.lineno - 1, endLine, Some(n.colOffset), n.endColOffset, Some(kind))
  }

  /** The ranges of a subtree in visiting order: a node's own range before
      those of its contents. */
  function Ranges(n: AstNode, lineFoldingOnly: bool): seq<FoldingRange>
    decreases n
  {
    if Skipped(n) then []
    else
      var own := if n.kind == OtherNode then [] else [RangeFor(n, KindName(n.kind).value, lineFoldingOnly)];
      own + ChildRanges(n.children, lineFoldingOnly)
  }

  function ChildRanges(children: seq<AstNode>, lineFoldingOnly: bool): seq<FoldingRange>
    decreases children
  {
    if children == [] then [] else Ranges(children[0], lineFoldingOnly) + ChildRanges(children[1..], lineFoldingOnly)
  }

  /** Every range has a folding kind, and has columns exactly when the client
      folds within lines. */
  lemma {:induction false} RangesShape(n: AstNode, lineFoldingOnly: bool)
    ensures forall i :: 0 <= i < |Ranges(n, lineFoldingOnly)| ==> Shaped(Ranges(n, lineFoldingOnly)[i], lineFoldingOnly)
    decreases n
  {
    if !Skipped(n) {
      ChildRangesShape(n.children, lineFoldingOnly);
    }
  }

  lemma {:induction false} ChildRangesShape(children: seq<AstNode>, lineFoldingOnly: bool)
    ensures forall i :: 0 <= i < |ChildRanges(children, lineFoldingOnly)| ==> Shaped(ChildRanges(children, lineFoldingOnly)[i], lineFoldingOnly)
    decreases children
  {
    if children != [] {
      RangesShape(children[0], lineFoldingOnly);
      ChildRangesShape(children[1..], lineFoldingOnly);
    }
  }

  predicate Shaped(r: FoldingRange, lineFoldingOnly: bool) {
    && r.kind.Some? && FoldingKind(r.kind.value)
    && (lineFoldingOnly <==> r.startCharacter.None?)
    && (lineFoldingOnly ==> r.endCharacter.None?)
  }

  /** Every node of the tree ends no earlier than it starts. */
  predicate WellFormed(n: AstNode)
    decreases n
  {
    && (n.endLineno.Some? ==> n.lineno <= n.endLineno.value)
    && forall i :: 0 <= i < |n.children| ==> WellFormed(n.children[i])
  }

  /** In a well-formed tree no range ends before it starts. */
  lemma {:induction false} RangesOrdered(n: AstNode, lineFoldingOnly: bool)
    requires WellFormed(n)
    ensures forall i :: 0 <= i < |Ranges(n, lineFoldingOnly)| ==>
      Ranges(n, lineFoldingOnly)[i].startLine <= Ranges(n, lineFoldingOnly)[i].endLine
    decreases n
  {
    if !Skipped(n) {
      ChildRangesOrdered(n.children, lineFoldingOnly);
    }
  }

  lemma {:induction false} ChildRangesOrdered(children: seq<AstNode>, lineFoldingOnly: bool)
    requires forall i :: 0 <= i < |children| ==> WellFormed(children[i])
    ensures forall i :: 0 <= i < |ChildRanges(children, lineFoldingOnly)| ==>
      ChildRanges(children, lineFoldingOnly)[i].startLine <= ChildRanges(children, lineFoldingOnly)[i].endLine
    decreases children
  {
    if children != [] {
      RangesOrdered(children[0], lineFoldingOnly);
      ChildRangesOrdered(children[1..], lineFoldingOnly);
    }
  }

  /** Siblings are visited in order. */
  lemma {:induction false} ChildRangesAppend(a: seq<AstNode>, b: seq<AstNode>, lineFoldingOnly: bool)
    ensures ChildRanges(a + b, lineFoldingOnly) == ChildRanges(a, lineFoldingOnly) + ChildRanges(b, lineFoldingOnly)
  {
    if a != [] {
      assert (a + b)[0] == a[0] && (a + b)[1..] == a[1..] + b;
      ChildRangesAppend(a[1..], b, lineFoldingOnly);
    } else {
      assert a + b == b;
    }
  }

  /** The visitor of `collect`. */
  class Visitor {
    var lineFoldingOnly: bool
    var result: seq<FoldingRange>

    /** Line folding only unless the client's capability says otherwise. */
    constructor (clientLineFoldingOnly: Option<bool>)
      ensures lineFoldingOnly == if clientLineFoldingOnly.Some? then clientLineFoldingOnly.value else true
      ensures result == []
    {
      lineFoldingOnly := true;
      if clientLineFoldingOnly.Some? {
        lineFoldingOnly := clientLineFoldingOnly.value;
      }
      result := [];
    }

    /** `__append`. */
    method Append(n: AstNode, kind: string)
      modifies this
      ensures lineFoldingOnly == old(lineFoldingOnly)
      ensures result == old(result) + [RangeFor(n, kind, lineFoldingOnly)]
    {
      var endLine := if n.endLineno.Some? then n.endLineno.value - 1 else n.lineno - 1;
      if !lineFoldingOnly {
        result := result + [FoldingRange(n.lineno - 1, endLine, Some(n.colOffset), n.endColOffset, Some(kind))];
      } else {
        result := result + [FoldingRange(n.lineno - 1, endLine, None, None, Some(kind))];
      }
    }

    /** `visit`: the rule for the node's class, else only its children. */
    method Visit(n: AstNode)
      modifies this
      ensures lineFoldingOnly == old(lineFoldingOnly)
      ensures result == old(result) + Ranges(n, lineFoldingOnly)
      decreases n, 2
    {
      match n.kind {
        case TestCase =>
          if n.name.Some? && n.name.value != "" {
            Fold(n, "testcase");
          }
        case Keyword =>
          if n.name.Some? && n.name.value != "" {
            Fold(n, "keyword");
          }
        case OtherNode =>
          GenericVisit(n, n.children);
        case Section => Fold(n, "section");
        case CommentSection => Fold(n, "comment");
        case ForLoop => Fold(n, "for_loop");
        case For => Fold(n, "for");
        case If => Fold(n, "if");
      }
    }

    /** What every `visit_*` rule does once it folds its node: its range,
        then its contents. */
    method Fold(n: AstNode, kind: string)
      requires !Skipped(n) && n.kind != OtherNode && kind == KindName(n.kind).value
      modifies this
      ensures lineFoldingOnly == old(lineFoldingOnly)
      ensures result == old(result) + Ranges(n, lineFoldingOnly)
      decreases n, 1
    {
      Append(n, kind);
      GenericVisit(n, n.children);
    }

    /** `generic_visit`: the children in order. */
    method GenericVisit(ghost parent: AstNode, children: seq<AstNode>)
      requires children == parent.children
      modifies this
      ensures lineFoldingOnly == old(lineFoldingOnly)
      ensures result == old(result) + ChildRanges(children, lineFoldingOnly)
      decreases parent, 0
    {
      var i := 0;
      while i < |children|
        invariant i <= |children|
        invariant lineFoldingOnly == old(lineFoldingOnly)
        invariant result + ChildRanges(children[i..], lineFoldingOnly) == old(result) + ChildRanges(children, lineFoldingOnly)
      {
        assert children[i..][0] == children[i] && children[i..][1..] == children[i + 1..];
        ghost var before := result;
        Visit(children[i]);
        assert result + ChildRanges(children[i + 1..], lineFoldingOnly)
          == before + (Ranges(children[i], lineFoldingOnly) + ChildRanges(children[i + 1..], lineFoldingOnly));
        i := i + 1;
      }
    }
  }

  /** `find_from`: the ranges of the model, `None` when there are none. */
  method FindFrom(model: AstNode, clientLineFoldingOnly: Option<bool>) returns (r: Option<seq<FoldingRange>>)
    ensures var lineFoldingOnly := if clientLineFoldingOnly.Some? then clientLineFoldingOnly.value else true;
      (r.None? <==> Ranges(model, lineFoldingOnly) == [])
      && (r.Some? ==> r.value == Ranges(model, lineFoldingOnly))
  {
    var finder := new Visitor(clientLineFoldingOnly);
    finder.Visit(model);
    if finder.result != [] {
      return Some(finder.result);
    }
    return None;
  }
}

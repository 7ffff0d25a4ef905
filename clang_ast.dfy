/** The part of the clang AST the two source rewriters look at, as plain
    values, and the Rewriter calls they issue. A source location is a file
    offset with its spelling line and column; every other piece of clang's
    source-manager machinery is gone. */
module ClangAst {
  import opened Common

  /** A `QualType`: `getAsString()` and `isVoidType()`. */
  datatype Type = Type(spelling: string, isVoid: bool)

  /** A `ParmVarDecl` of a function declaration. */
  datatype Param = Param(ty: Type, name: string)

  /** A `SourceLocation`: file offset, spelling line, column (1-based). */
  datatype SrcLoc = SrcLoc(offset: nat, line: nat, column: nat)

  /** What a `DeclRefExpr` refers to. A `VarRef` is a `VarDecl`; it is a
      `ParmVarDecl` when `isParm` holds (a parameter is a variable too, so both
      visitor branches look at it). Functions, enumerators and the rest are
      `OtherRef`. */
  datatype RefDecl =
    | VarRef(name: string, isParm: bool, inSystemHeader: bool, atFileScope: bool, hasGlobalStorage: bool)
    | OtherRef(name: string)

  /** The `FunctionDecl` a call resolves to (`getDirectCallee()`), as far as
      the rewriters ask about it. */
  datatype Callee = Callee(
    name: string,
    params: seq<Param>,
    ret: Type,
    isImplicit: bool,
    builtinId: nat,
    hasBodyHere: bool)

  /** The token range of a call: its first token, the start of its last
      token, and the location just past a `;` that directly follows it
      (`Lexer::findLocationAfterToken`), if there is one. */
  datatype CallRange = CallRange(begin: SrcLoc, end: nat, semiAfter: Option<nat>)

  /** Statements and expressions, with their children in the order clang's
      `RecursiveASTVisitor` walks them. A call carries the verbatim source
      text of each argument. */
  datatype Node =
    | ReturnStmt(begin: nat, children: seq<Node>)
    | DeclRefExpr(decl: RefDecl, loc: SrcLoc)
    | CallExpr(callee: Option<Callee>, range: CallRange, argTexts: seq<string>, children: seq<Node>)
    | OtherNode(children: seq<Node>)

  /** A function body: top-level statements and the `}` location. */
  datatype Body = Body(stmts: seq<Node>, rbrace: nat)

  /** A matched `FunctionDecl`. `body` is `getBody()`, which may come from
      another declaration of the same function; `isDefinition` is
      `isThisDeclarationADefinition()`. `parens` are the locations of the
      parameter list's parentheses when the declaration has a function type
      location whose two parentheses are valid. `signature` holds the
      expressions of the declaration's own type location (parameter default
      arguments, array bounds of parameter types, `decltype` and `noexcept`
      operands), in source order. */
  datatype FunctionDecl = FunctionDecl(
    name: string,
    ret: Type,
    params: seq<Param>,
    retTypeBegin: nat,
    nameBegin: nat,
    parens: Option<(nat, nat)>,
    signature: seq<Node>,
    body: Option<Body>,
    isDefinition: bool,
    isImplicit: bool)

  /** The Rewriter calls, with their arguments. */
  datatype Edit =
    | ReplaceText(at: int, length: nat, text: string)
    | ReplaceRange(begin: int, end: int, text: string)
    | InsertText(at: int, text: string, insertAfter: bool, indentNewLines: bool)
    | InsertTextBefore(at: int, text: string)
    | InsertTextAfterToken(at: int, text: string)
    | RemoveRange(begin: int, end: int)

  /** The nodes the visitor meets, in `RecursiveASTVisitor` order: a node
      before its children. */
  function Preorder(n: Node): (r: seq<Node>)
    ensures |r| >= 1 && r[0] == n
    decreases n, 1
  {
    if n.DeclRefExpr? then [n] else [n] + PreorderAll(n.children)
  }

  function PreorderAll(ns: seq<Node>): seq<Node>
    decreases ns, 0
  {
    if ns == [] then [] else Preorder(ns[0]) + PreorderAll(ns[1..])
  }

  // `Cindex` has lemmas of the same shape over libclang cursors, a
  // different tree type; these are about the rewriter's AST nodes.
  lemma {:induction false} PreorderAllAppend(a: seq<Node>, b: seq<Node>)
    ensures PreorderAll(a + b) == PreorderAll(a) + PreorderAll(b)
  {
    if a == [] {
      assert a + b == b;
    } else {
      assert (a + b)[1..] == a[1..] + b;
      PreorderAllAppend(a[1..], b);
    }
  }

  lemma PreorderAllSnoc(ns: seq<Node>, i: nat)
    requires i < |ns|
    ensures PreorderAll(ns[..i + 1]) == PreorderAll(ns[..i]) + Preorder(ns[i])
  {
    PreorderAllAppend(ns[..i], [ns[i]]);
    assert ns[..i + 1] == ns[..i] + [ns[i]];
    assert PreorderAll([ns[i]]) == Preorder(ns[i]) + PreorderAll([]);
  }

  /** The subtrees `TraverseDecl` walks for a function declaration: the
      expressions of its signature, of a prototype as of a definition, then
      the top-level statements of the body when this declaration is the
      definition. */
  function TraversedRoots(f: FunctionDecl): seq<Node>
  {
    f.signature + (if f.isDefinition && f.body.Some? then f.body.value.stmts else [])
  }

  /** The nodes `TraverseDecl` visits, in visiting order. */
  function TraversedNodes(f: FunctionDecl): seq<Node>
  {
    PreorderAll(TraversedRoots(f))
  }

  /** `TraverseDecl` visits the signature's expressions first, for a
      prototype as for a definition, and then the body's nodes in preorder
      only when this declaration is the definition. */
  lemma TraversedSignatureThenBody(f: FunctionDecl)
    ensures TraversedNodes(f) == PreorderAll(f.signature)
                                 + (if f.isDefinition && f.body.Some? then PreorderAll(f.body.value.stmts) else [])
  {
    var stmts := if f.isDefinition && f.body.Some? then f.body.value.stmts else [];
    PreorderAllAppend(f.signature, stmts);
    if stmts == [] {
      assert f.signature + stmts == f.signature;
    }
  }

  /** The begin positions of the top-level statements of the body that are
      `return` statements. */
  function TopLevelReturns(stmts: seq<Node>): (rs: seq<nat>)
    ensures |rs| <= |stmts|
  {
    if stmts == [] then []
    else (if stmts[0].ReturnStmt? then [stmts[0].begin] else []) + TopLevelReturns(stmts[1..])
  }

  /** The indices in `stmts` of its `return` statements, in increasing
      order: an independent description of what `TopLevelReturns` picks. */
  function ReturnIndices(stmts: seq<Node>): (ix: seq<nat>)
    ensures forall j :: 0 <= j < |ix| ==> ix[j] < |stmts| && stmts[ix[j]].ReturnStmt?
    ensures forall j, j' :: 0 <= j < j' < |ix| ==> ix[j] < ix[j']
    ensures forall i :: 0 <= i < |stmts| && stmts[i].ReturnStmt? ==> i in ix
  {
    if stmts == [] then []
    else
      var n := |stmts| - 1;
      ReturnIndices(stmts[..n]) + (if stmts[n].ReturnStmt? then [n] else [])
  }

  /** The positions `TopLevelReturns` gives are the starts of the body's
      top-level `return` statements, one each, in order; a `return` nested
      inside another statement is not a top-level statement and has none. */
  lemma {:induction false} TopLevelReturnsSpec(stmts: seq<Node>)
    ensures |TopLevelReturns(stmts)| == |ReturnIndices(stmts)|
    ensures forall j :: 0 <= j < |ReturnIndices(stmts)| ==> TopLevelReturns(stmts)[j] == stmts[ReturnIndices(stmts)[j]].begin
    decreases |stmts|
  {
    if stmts != [] {
      var n := |stmts| - 1;
      TopLevelReturnsSpec(stmts[..n]);
      TopLevelReturnsSnoc(stmts, n);
      assert stmts[..n + 1] == stmts;
    }
  }

  lemma TopLevelReturnsSnoc(stmts: seq<Node>, j: nat)
    requires j < |stmts|
    ensures TopLevelReturns(stmts[..j + 1]) ==
      TopLevelReturns(stmts[..j]) + (if stmts[j].ReturnStmt? then [stmts[j].begin] else [])
  {
    TopLevelReturnsAppend(stmts[..j], [stmts[j]]);
    assert stmts[..j + 1] == stmts[..j] + [stmts[j]];
  }

  lemma {:induction false} TopLevelReturnsAppend(a: seq<Node>, b: seq<Node>)
    ensures TopLevelReturns(a + b) == TopLevelReturns(a) + TopLevelReturns(b)
  {
    if a == [] {
      assert a + b == b;
    } else {
      assert (a + b)[0] == a[0];
      assert (a + b)[1..] == a[1..] + b;
      TopLevelReturnsAppend(a[1..], b);
    }
  }

  /** Where a line starts: a location moved back by its column minus one. */
  function LineStart(loc: SrcLoc): int
  {
    loc.offset - loc.column + 1
  }

  /** The offset of the first newline at or after `from`, or the buffer size. */
  function LineEnd(buffer: string, from: nat): (e: nat)
    ensures from <= |buffer| ==> from <= e <= |buffer|
    ensures from > |buffer| ==> e == from
    ensures forall k :: from <= k < e ==> buffer[k] != '\n'
    ensures e < |buffer| ==> buffer[e] == '\n'
    decreases |buffer| - from
  {
    if from >= |buffer| || buffer[from] == '\n' then from else LineEnd(buffer, from + 1)
  }

  /** The scan of the global-variable rule for the end of a line. */
  method FindLineEnd(buffer: string, offset: nat) returns (lineEndOffset: nat)
    ensures lineEndOffset == LineEnd(buffer, offset)
  {
    lineEndOffset := offset;
    while lineEndOffset < |buffer| && buffer[lineEndOffset] != '\n'
      invariant offset <= lineEndOffset
      invariant LineEnd(buffer, lineEndOffset) == LineEnd(buffer, offset)
      decreases |buffer| - lineEndOffset
    {
      lineEndOffset := lineEndOffset + 1;
    }
  }
}

/** What the two Python estimators (Estimation/main.py and Ai/main.py) share
    word for word: the libclang cursor tree they walk, the source slicing of
    a cursor's extent, the recursive statement count, the test that selects a
    function, and the bounded retry around the complexity analyzer. */
module Cindex {
  import opened Common
  import opened PyText

  /** The cursor kinds the scripts test for; every other kind is `OtherKind`. */
  datatype CursorKind =
    | TranslationUnit | FunctionDecl | ParmDecl | CompoundStmt
    | BinaryOperator | CallExpr | DeclRefExpr | IfStmt | ForStmt | WhileStmt | SwitchStmt | ReturnStmt
    | OtherKind

  /** A 1-based line and column, as libclang reports them. */
  datatype Position = Position(line: int, column: int)

  datatype Extent = Extent(start: Position, end: Position)

  /** A libclang cursor with what the scripts read of it: its kind, the kind
      of its semantic parent, the (absolute) name of the file of its
      location if any, `is_definition()`, `spelling`, `extent`, the type
      spellings of `get_arguments()`, and `get_children()`. */
  datatype Cursor = Cursor(
    kind: CursorKind,
    semanticParent: CursorKind,
    file: Option<string>,
    isDefinition: bool,
    spelling: string,
    extent: Extent,
    argTypes: seq<string>,
    children: seq<Cursor>)

  /** `''.join(lines)` */
  function Concat(ls: seq<string>): string
  {
    if ls == [] then "" else ls[0] + Concat(ls[1..])
  }

  lemma {:induction false} ConcatAppend(a: seq<string>, b: seq<string>)
    ensures Concat(a + b) == Concat(a) + Concat(b)
  {
    if a == [] {
      assert a + b == b;
    } else {
      assert (a + b)[1..] == a[1..] + b;
      ConcatAppend(a[1..], b);
    }
  }

  /** `get_source_code(start, end)` over the file's `readlines()` (each line
      keeps its newline). Indexing `source_lines[start.line - 1]` and
      `lines[0]` can raise IndexError; slicing never does. */
  function GetSourceCode(lines: seq<string>, start: Position, end: Position): Result<string, PyError>
  {
    if start.line == end.line then
      match Index(lines, start.line - 1)
      case Ok(line) => Ok(Slice(line, start.column - 1, end.column - 1))
      case Err(e) => Err(e)
    else
      var ls := Slice(lines, start.line - 1, end.line);
      if |ls| == 0 then Err(IndexError)
      else
        // lines[0] = lines[0][start.column - 1:]
        var ls1 := ls[0 := SliceFrom(ls[0], start.column - 1)];
        // lines[-1] = lines[-1][:end.column - 1]
        var ls2 := ls1[|ls1| - 1 := SliceTo(ls1[|ls1| - 1], end.column - 1)];
        Ok(Concat(ls2))
  }

  /** Offset in the whole file text of a (line, column) position. */
  function FileOffset(lines: seq<string>, line: nat, column: nat): int
    requires 1 <= line <= |lines|
  {
    |Concat(lines[..line - 1])| + column - 1
  }

  /** An extent that lies inside the file, as libclang produces them. */
  predicate InFile(lines: seq<string>, start: Position, end: Position)
  {
    && 1 <= start.line <= end.line <= |lines|
    && 1 <= start.column <= |lines[start.line - 1]| + 1
    && 1 <= end.column <= |lines[end.line - 1]| + 1
    && (start.line == end.line ==> start.column <= end.column)
  }

  lemma {:induction false} SliceOfFive(a: string, b: string, c: string, d: string, e: string, i: nat, j: nat)
    requires i <= |b| && j <= |d|
    ensures (a + b + c + d + e)[|a| + i..|a| + |b| + |c| + j] == b[i..] + c + d[..j]
  {
    var s := a + b + c + d + e;
    var r := s[|a| + i..|a| + |b| + |c| + j];
    var t := b[i..] + c + d[..j];
    assert |r| == |t|;
    forall k | 0 <= k < |r| ensures r[k] == t[k] {
      if k < |b| - i {
      } else if k < |b| - i + |c| {
      } else {
      }
    }
  }

  lemma {:induction false} ConcatSplit3(lines: seq<string>, p: nat, q: nat)
    requires p < q <= |lines|
    ensures Concat(lines) == Concat(lines[..p]) + lines[p] + Concat(lines[p + 1..q]) + Concat(lines[q..])
  {
    assert lines == lines[..p] + [lines[p]] + lines[p + 1..q] + lines[q..];
    ConcatAppend(lines[..p] + [lines[p]] + lines[p + 1..q], lines[q..]);
    ConcatAppend(lines[..p] + [lines[p]], lines[p + 1..q]);
    ConcatAppend(lines[..p], [lines[p]]);
    assert Concat([lines[p]]) == lines[p] + Concat([]);
  }

  /** For an extent inside the file, `get_source_code` returns exactly the
      file text between the start and end offsets (end exclusive), whether
      the extent spans one line or several. */
  lemma {:induction false} SourceCodeIsFileSpan(lines: seq<string>, start: Position, end: Position)
    requires InFile(lines, start, end)
    ensures FileOffset(lines, start.line, start.column) <= FileOffset(lines, end.line, end.column) <= |Concat(lines)|
    ensures GetSourceCode(lines, start, end)
         == Ok(Concat(lines)[FileOffset(lines, start.line, start.column)..FileOffset(lines, end.line, end.column)])
  {
    var p, q, sc, ec := start.line - 1, end.line - 1, start.column - 1, end.column - 1;
    if start.line == end.line {
      SingleLineSource(lines, start, end);
      SingleLineSpan(lines, p, sc, ec);
    } else {
      MultiLineSource(lines, start, end);
      MultiLineSpan(lines, p, q, sc, ec);
    }
  }

  /** On one line, `get_source_code` is a plain slice of that line. */
  lemma SingleLineSource(lines: seq<string>, start: Position, end: Position)
    requires InFile(lines, start, end) && start.line == end.line
    ensures GetSourceCode(lines, start, end) == Ok(lines[start.line - 1][start.column - 1..end.column - 1])
  {
  }

  /** Over several lines, `get_source_code` concatenates the lines of the
      extent with the first cut at the start column and the last at the end
      column. */
  lemma MultiLineSource(lines: seq<string>, start: Position, end: Position)
    requires InFile(lines, start, end) && start.line != end.line
    ensures var ls := lines[start.line - 1..end.line];
            var ls1 := ls[0 := lines[start.line - 1][start.column - 1..]];
            var ls2 := ls1[|ls1| - 1 := ls1[|ls1| - 1][..end.column - 1]];
            GetSourceCode(lines, start, end) == Ok(Concat(ls2))
  {
    var ls := lines[start.line - 1..end.line];
    assert Slice(lines, start.line - 1, end.line) == ls;
    assert SliceFrom(ls[0], start.column - 1) == lines[start.line - 1][start.column - 1..];
    var ls1 := ls[0 := lines[start.line - 1][start.column - 1..]];
    assert ls1[|ls1| - 1] == lines[end.line - 1];
    assert SliceTo(ls1[|ls1| - 1], end.column - 1) == ls1[|ls1| - 1][..end.column - 1];
  }

  lemma {:induction false} SingleLineSpan(lines: seq<string>, p: nat, sc: nat, ec: nat)
    requires p < |lines| && sc <= ec <= |lines[p]|
    ensures |Concat(lines[..p])| + ec <= |Concat(lines)|
    ensures lines[p][sc..ec] == Concat(lines)[|Concat(lines[..p])| + sc..|Concat(lines[..p])| + ec]
  {
    var A := Concat(lines[..p]);
    ConcatSplit3(lines, p, p + 1);
    assert lines[p + 1..p + 1] == [];
    assert Concat(lines[p + 1..p + 1]) == "";
    SliceOfFive(A, lines[p][..ec], "", lines[p][ec..], Concat(lines[p + 1..]), sc, 0);
    assert lines[p][..ec] + lines[p][ec..] == lines[p];
    assert Concat(lines) == A + lines[p][..ec] + "" + lines[p][ec..] + Concat(lines[p + 1..]);
    assert lines[p][..ec][sc..] == lines[p][sc..ec];
  }

  lemma {:induction false} PrefixConcat(lines: seq<string>, p: nat, q: nat)
    requires p < q <= |lines|
    ensures Concat(lines[..q]) == Concat(lines[..p]) + lines[p] + Concat(lines[p + 1..q])
  {
    assert lines[..q] == lines[..p] + [lines[p]] + lines[p + 1..q];
    ConcatAppend(lines[..p] + [lines[p]], lines[p + 1..q]);
    ConcatAppend(lines[..p], [lines[p]]);
    assert Concat([lines[p]]) == lines[p] + Concat([]);
  }

  lemma MultiLineSpan(lines: seq<string>, p: nat, q: nat, sc: nat, ec: nat)
    requires p < q < |lines| && sc <= |lines[p]| && ec <= |lines[q]|
    ensures |Concat(lines[..p])| + sc <= |Concat(lines[..q])| + ec <= |Concat(lines)|
    ensures var ls := lines[p..q + 1];
            var ls1 := ls[0 := lines[p][sc..]];
            var ls2 := ls1[|ls1| - 1 := ls1[|ls1| - 1][..ec]];
            Concat(ls2) == Concat(lines)[|Concat(lines[..p])| + sc..|Concat(lines[..q])| + ec]
  {
    SpanText(lines, p, q, sc, ec);
    TrimmedLines(lines, p, q, sc, ec);
  }

  /** The text from column `sc` of line `p` to column `ec` of line `q`. */
  lemma SpanText(lines: seq<string>, p: nat, q: nat, sc: nat, ec: nat)
    requires p < q < |lines| && sc <= |lines[p]| && ec <= |lines[q]|
    ensures |Concat(lines[..p])| + sc <= |Concat(lines[..q])| + ec <= |Concat(lines)|
    ensures Concat(lines)[|Concat(lines[..p])| + sc..|Concat(lines[..q])| + ec]
            == lines[p][sc..] + Concat(lines[p + 1..q]) + lines[q][..ec]
  {
    var A := Concat(lines[..p]);
    var M := Concat(lines[p + 1..q]);
    var D := lines[q];
    ConcatSplit3(lines, p, q);
    ConcatSplit3(lines, q, q + 1);
    assert lines[q + 1..q + 1] == [];
    assert Concat(lines[q + 1..q + 1]) == "";
    var E := Concat(lines[q + 1..]);
    assert Concat(lines[q..]) == D + E;
    assert Concat(lines) == A + lines[p] + M + D + E;
    PrefixConcat(lines, p, q);
    SliceOfFive(A, lines[p], M, D, E, sc, ec);
  }

  /** The lines `p` to `q` with the first cut at `sc` and the last at `ec`. */
  lemma TrimmedLines(lines: seq<string>, p: nat, q: nat, sc: nat, ec: nat)
    requires p < q < |lines| && sc <= |lines[p]| && ec <= |lines[q]|
    ensures var ls := lines[p..q + 1];
            var ls1 := ls[0 := lines[p][sc..]];
            var ls2 := ls1[|ls1| - 1 := ls1[|ls1| - 1][..ec]];
            Concat(ls2) == lines[p][sc..] + Concat(lines[p + 1..q]) + lines[q][..ec]
  {
    var D := lines[q];
    var ls := lines[p..q + 1];
    var ls1 := ls[0 := lines[p][sc..]];
    var ls2 := ls1[|ls1| - 1 := ls1[|ls1| - 1][..ec]];
    var want := [lines[p][sc..]] + lines[p + 1..q] + [D[..ec]];
    assert ls1[|ls1| - 1] == D;
    assert |ls2| == |want| == q - p + 1;
    forall k | 0 <= k < |ls2| ensures ls2[k] == want[k] {
      if 0 < k < |ls2| - 1 {
        assert ls2[k] == lines[p + k];
        assert want[k] == lines[p + 1..q][k - 1];
      }
    }
    assert ls2 == want;
    ConcatAppend([lines[p][sc..]] + lines[p + 1..q], [D[..ec]]);
    ConcatAppend([lines[p][sc..]], lines[p + 1..q]);
    assert Concat([lines[p][sc..]]) == lines[p][sc..] + Concat([]);
    assert Concat([D[..ec]]) == D[..ec] + Concat([]);
  }

  /** The eight kinds that `count_statements` counts. */
  predicate IsCountedKind(k: CursorKind)
  {
    k in {BinaryOperator, CallExpr, DeclRefExpr, IfStmt, ForStmt, WhileStmt, SwitchStmt, ReturnStmt}
  }

  /** `count_statements(node)`: one for a node of a counted kind, plus the
      counts of all children. */
  function CountStatements(c: Cursor): nat
  {
    (if IsCountedKind(c.kind) then 1 else 0) + CountChildren(c.children)
  }

  function CountChildren(cs: seq<Cursor>): nat
  {
    if cs == [] then 0 else CountStatements(cs[0]) + CountChildren(cs[1..])
  }

  /** Pre-order list of a cursor and all its descendants (the order in which
      `visit` reaches them). */
  function Preorder(c: Cursor): (r: seq<Cursor>)
    ensures |r| >= 1 && r[0] == c
  {
    [c] + PreorderAll(c.children)
  }

  function PreorderAll(cs: seq<Cursor>): seq<Cursor>
  {
    if cs == [] then [] else Preorder(cs[0]) + PreorderAll(cs[1..])
  }

  /** Number of cursors of a counted kind in a list. */
  function CountedIn(ns: seq<Cursor>): nat
  {
    if ns == [] then 0 else (if IsCountedKind(ns[0].kind) then 1 else 0) + CountedIn(ns[1..])
  }

  lemma {:induction false} CountedInAppend(a: seq<Cursor>, b: seq<Cursor>)
    ensures CountedIn(a + b) == CountedIn(a) + CountedIn(b)
  {
    if a == [] {
      assert a + b == b;
    } else {
      assert (a + b)[1..] == a[1..] + b;
      CountedInAppend(a[1..], b);
    }
  }

  /** The statement count is the number of counted-kind cursors in the
      subtree: the recursion neither misses nor double-counts a node. */
  lemma {:induction false} CountStatementsIsPreorderCount(c: Cursor)
    ensures CountStatements(c) == CountedIn(Preorder(c))
  {
    CountChildrenIsPreorderCount(c.children);
    CountedInAppend([c], PreorderAll(c.children));
    assert CountedIn([c]) == (if IsCountedKind(c.kind) then 1 else 0) + CountedIn([]);
  }

  lemma {:induction false} CountChildrenIsPreorderCount(cs: seq<Cursor>)
    ensures CountChildren(cs) == CountedIn(PreorderAll(cs))
  {
    if cs != [] {
      CountStatementsIsPreorderCount(cs[0]);
      CountChildrenIsPreorderCount(cs[1..]);
      CountedInAppend(Preorder(cs[0]), PreorderAll(cs[1..]));
    }
  }

  /** A node counts at least as many statements as any of its children. */
  lemma {:induction false} CountAtLeastChild(c: Cursor, i: nat)
    requires i < |c.children|
    ensures CountStatements(c) >= CountStatements(c.children[i])
  {
    ChildrenAtLeastOne(c.children, i);
  }

  lemma {:induction false} ChildrenAtLeastOne(cs: seq<Cursor>, i: nat)
    requires i < |cs|
    ensures CountChildren(cs) >= CountStatements(cs[i])
  {
    if i > 0 {
      ChildrenAtLeastOne(cs[1..], i - 1);
    }
  }

  /** The selection test of `visit`: a definition of a function declared
      at file scope, located in the file being analysed, other than `main`. */
  predicate IsCollected(c: Cursor, filePath: string)
  {
    && c.kind == FunctionDecl
    && c.semanticParent == TranslationUnit
    && c.file == Some(filePath)
    && c.isDefinition
    && c.spelling != "main"
  }

  /** One reply of the opaque complexity analyzer: `(isSuccess, value)`;
      a successful reply can still carry `None`. */
  datatype Reply = Reply(success: bool, value: Option<string>)

  /** `max_attempts` (Estimation) and the literal `5` (Ai). */
  const MaxAttempts: nat := 5

  /** The retry loop around `analyze_time_complexity`: the analyzer is
      asked at most six times, a success on calls one to five ends the loop,
      and the sixth call's reply is discarded whatever it says.
      `analyze(a)` is the analyzer's reply to the call numbered `a` from 0. */
  method AnalyzeWithRetry(analyze: nat -> Reply) returns (isSuccess: bool, complexity: Option<string>, calls: nat)
    ensures 1 <= calls <= MaxAttempts + 1
    ensures isSuccess <==> exists a :: 0 <= a < MaxAttempts && analyze(a).success
    ensures isSuccess ==> calls <= MaxAttempts && analyze(calls - 1).success && complexity == analyze(calls - 1).value
    ensures isSuccess ==> forall a :: 0 <= a < calls - 1 ==> !analyze(a).success
    ensures !isSuccess ==> calls == MaxAttempts + 1
  {
    isSuccess := false;
    complexity := None;
    var count: nat := 0;
    calls := 0;
    while !isSuccess
      invariant calls == count <= MaxAttempts
      invariant forall a :: 0 <= a < calls - (if isSuccess then 1 else 0) ==> !analyze(a).success
      invariant isSuccess ==> calls >= 1 && analyze(calls - 1).success && complexity == analyze(calls - 1).value
      decreases MaxAttempts + 1 - calls, if isSuccess then 0 else 1
    {
      var reply := analyze(calls);
      isSuccess, complexity := reply.success, reply.value;
      count := count + 1;
      calls := calls + 1;
      if count > MaxAttempts {
        count := 0;
        isSuccess := false;
        break;
      }
    }
  }

  /** The complexity a function is given after the retry loop: the
      analyzer's value on success, otherwise `str(total_statements)`. */
  function ComplexityAfterRetry(isSuccess: bool, value: Option<string>, totalStatements: nat): (c: Option<string>)
    ensures !isSuccess ==> c == Some(NatToString(totalStatements))
    ensures isSuccess ==> c == value
  {
    if isSuccess then value else Some(NatToString(totalStatements))
  }

  /** The text a header shows for a complexity: the value itself, or the
      statement count when the value is `None`. */
  function ComplexityText(c: Option<string>, totalStatements: nat): string
  {
    match c
    case Some(s) => s
    case None => NatToString(totalStatements)
  }

  lemma PreorderAllSnoc(cs: seq<Cursor>, i: nat)
    requires i < |cs|
    ensures PreorderAll(cs[..i + 1]) == PreorderAll(cs[..i]) + Preorder(cs[i])
  {
    PreorderAllAppend(cs[..i], [cs[i]]);
    assert cs[..i + 1] == cs[..i] + [cs[i]];
    assert PreorderAll([cs[i]]) == Preorder(cs[i]) + PreorderAll([]);
  }

  lemma {:induction false} PreorderAllAppend(a: seq<Cursor>, b: seq<Cursor>)
    ensures PreorderAll(a + b) == PreorderAll(a) + PreorderAll(b)
  {
    if a == [] {
      assert a + b == b;
    } else {
      assert (a + b)[1..] == a[1..] + b;
      PreorderAllAppend(a[1..], b);
    }
  }

  /** The retry loop's net effect for one function: the first of the first
      five replies that succeeds gives the complexity; with none, the
      statement count as a string. */
  function FinalComplexity(analyze: nat -> Reply, totalStatements: nat, a: nat): Option<string>
    decreases MaxAttempts - a
  {
    if a >= MaxAttempts then Some(NatToString(totalStatements))
    else if analyze(a).success then analyze(a).value
    else FinalComplexity(analyze, totalStatements, a + 1)
  }

  lemma {:induction false} FinalComplexityOfRetry(analyze: nat -> Reply, totalStatements: nat, isSuccess: bool, value: Option<string>, calls: nat, a: nat)
    requires a <= MaxAttempts && 1 <= calls <= MaxAttempts + 1
    requires isSuccess <==> exists b :: 0 <= b < MaxAttempts && analyze(b).success
    requires isSuccess ==> calls <= MaxAttempts && analyze(calls - 1).success && value == analyze(calls - 1).value
    requires isSuccess ==> forall b :: 0 <= b < calls - 1 ==> !analyze(b).success
    requires forall b :: 0 <= b < a ==> !analyze(b).success
    ensures FinalComplexity(analyze, totalStatements, a) == ComplexityAfterRetry(isSuccess, value, totalStatements)
    decreases MaxAttempts - a
  {
    if a < MaxAttempts && !analyze(a).success {
      FinalComplexityOfRetry(analyze, totalStatements, isSuccess, value, calls, a + 1);
    }
  }

  /** A function no reply of the first five accepts falls back to its
      statement count. */
  lemma {:induction false} FallbackWhenAllFail(analyze: nat -> Reply, totalStatements: nat, a: nat)
    requires a <= MaxAttempts
    requires forall b :: a <= b < MaxAttempts ==> !analyze(b).success
    ensures FinalComplexity(analyze, totalStatements, a) == Some(NatToString(totalStatements))
    decreases MaxAttempts - a
  {
    if a < MaxAttempts {
      FallbackWhenAllFail(analyze, totalStatements, a + 1);
    }
  }

  /** The cursors of a list that the selection test keeps, in order. */
  function Selected(ns: seq<Cursor>, filePath: string): (sel: seq<Cursor>)
    ensures forall k :: 0 <= k < |sel| ==> IsCollected(sel[k], filePath) && sel[k] in ns
    ensures forall i :: 0 <= i < |ns| && IsCollected(ns[i], filePath) ==> ns[i] in sel
  {
    if ns == [] then []
    else (if IsCollected(ns[0], filePath) then [ns[0]] else []) + Selected(ns[1..], filePath)
  }
}

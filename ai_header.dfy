/** Ai/main.py: the earlier extraction script. It collects the same
    functions as the estimation script but keys its header only by plain
    name, emitting one map entry per collected function with no
    de-duplication and no set of names. */
module AiHeader {
  import opened Common
  import opened PyText
  import opened Cindex

  /** `FunctionInfo` of this script: no parameter key. */
  datatype AiFunction = AiFunction(
    functionName: string,
    functionBody: string,
    timeComplexity: Option<string>,
    totalStatement: nat)

  /** The record `visit` appends for a selected cursor; only slicing the
      source can raise here. */
  function MakeRecord(c: Cursor, lines: seq<string>): Result<AiFunction, PyError>
  {
    match GetSourceCode(lines, c.extent.start, c.extent.end)
    case Err(e) => Err(e)
    case Ok(code) => Ok(AiFunction(c.spelling, Strip(code), None, CountStatements(c)))
  }

  /** `functions` after appending the record of every selected cursor of a
      pre-order list; the first exception aborts. */
  function Collect(functions: seq<AiFunction>, ns: seq<Cursor>, filePath: string, lines: seq<string>): Result<seq<AiFunction>, PyError>
    decreases |ns|
  {
    if ns == [] then Ok(functions)
    else if IsCollected(ns[0], filePath) then
      match MakeRecord(ns[0], lines)
      case Err(e) => Err(e)
      case Ok(f) => Collect(functions + [f], ns[1..], filePath, lines)
    else Collect(functions, ns[1..], filePath, lines)
  }

  function CollectThen(r: Result<seq<AiFunction>, PyError>, ns: seq<Cursor>, filePath: string, lines: seq<string>): Result<seq<AiFunction>, PyError>
  {
    match r
    case Err(e) => Err(e)
    case Ok(fs) => Collect(fs, ns, filePath, lines)
  }

  lemma {:induction false} CollectAppend(functions: seq<AiFunction>, a: seq<Cursor>, b: seq<Cursor>, filePath: string, lines: seq<string>)
    ensures Collect(functions, a + b, filePath, lines) == CollectThen(Collect(functions, a, filePath, lines), b, filePath, lines)
    decreases |a|
  {
    if a == [] {
      assert a + b == b;
    } else {
      assert (a + b)[0] == a[0];
      assert (a + b)[1..] == a[1..] + b;
      if IsCollected(a[0], filePath) {
        if MakeRecord(a[0], lines).Ok? {
          CollectAppend(functions + [MakeRecord(a[0], lines).value], a[1..], b, filePath, lines);
        }
      } else {
        CollectAppend(functions, a[1..], b, filePath, lines);
      }
    }
  }

  lemma VisitStep(functions: seq<AiFunction>, node: Cursor, i: nat, filePath: string, lines: seq<string>)
    requires i < |node.children|
    ensures Collect(functions, [node] + PreorderAll(node.children[..i + 1]), filePath, lines) ==
            CollectThen(Collect(functions, [node] + PreorderAll(node.children[..i]), filePath, lines), Preorder(node.children[i]), filePath, lines)
  {
    PreorderAllSnoc(node.children, i);
    assert [node] + PreorderAll(node.children[..i + 1]) == ([node] + PreorderAll(node.children[..i])) + Preorder(node.children[i]);
    CollectAppend(functions, [node] + PreorderAll(node.children[..i]), Preorder(node.children[i]), filePath, lines);
  }

  lemma VisitStepErr(functions: seq<AiFunction>, node: Cursor, i: nat, filePath: string, lines: seq<string>)
    requires i < |node.children|
    requires Collect(functions, [node] + PreorderAll(node.children[..i + 1]), filePath, lines).Err?
    ensures Collect(functions, Preorder(node), filePath, lines) == Collect(functions, [node] + PreorderAll(node.children[..i + 1]), filePath, lines)
  {
    CollectAppend(functions, [node] + PreorderAll(node.children[..i + 1]), PreorderAll(node.children[i + 1..]), filePath, lines);
    PreorderAllAppend(node.children[..i + 1], node.children[i + 1..]);
    assert node.children[..i + 1] + node.children[i + 1..] == node.children;
    assert Preorder(node) == ([node] + PreorderAll(node.children[..i + 1])) + PreorderAll(node.children[i + 1..]);
  }

  /** `visit(node)`: the record of `node` when it is wanted, then the
      records of its subtree, in pre-order. */
  method Visit(node: Cursor, filePath: string, lines: seq<string>, functions: seq<AiFunction>)
    returns (r: Result<seq<AiFunction>, PyError>)
    ensures r == Collect(functions, Preorder(node), filePath, lines)
    decreases node
  {
    CollectAppend(functions, [node], PreorderAll(node.children), filePath, lines);
    assert [node][0] == node && [node][1..] == [];
    var acc := functions;
    if IsCollected(node, filePath) {
      var code := GetSourceCode(lines, node.extent.start, node.extent.end);
      if code.Err? {
        return Err(code.error);
      }
      acc := acc + [AiFunction(node.spelling, Strip(code.value), None, CountStatements(node))];
    }
    assert Collect(functions, [node], filePath, lines) == Ok(acc);
    assert [node] + PreorderAll(node.children[..0]) == [node];
    var i := 0;
    while i < |node.children|
      invariant 0 <= i <= |node.children|
      invariant Collect(functions, [node] + PreorderAll(node.children[..i]), filePath, lines) == Ok(acc)
    {
      var child := node.children[i];
      var sub := Visit(child, filePath, lines, acc);
      VisitStep(functions, node, i, filePath, lines);
      if sub.Err? {
        VisitStepErr(functions, node, i, filePath, lines);
        return sub;
      }
      acc := sub.value;
      i := i + 1;
    }
    assert node.children[..i] == node.children;
    r := Ok(acc);
  }

  /** `out` is `functions` followed by one record per cursor of `sel`,
      in order. */
  function RecordMaker(lines: seq<string>): Cursor -> Result<AiFunction, PyError>
  {
    c => MakeRecord(c, lines)
  }

  predicate IsSelectionOf(out: seq<AiFunction>, functions: seq<AiFunction>, sel: seq<Cursor>, lines: seq<string>)
  {
    SelectionBy(RecordMaker(lines), out, functions, sel)
  }

  lemma SelectionCons(functions: seq<AiFunction>, f: AiFunction, out: seq<AiFunction>, c: Cursor, tail: seq<Cursor>, lines: seq<string>)
    requires MakeRecord(c, lines) == Ok(f)
    requires IsSelectionOf(out, functions + [f], tail, lines)
    ensures IsSelectionOf(out, functions, [c] + tail, lines)
  {
    SelectionByCons(RecordMaker(lines), functions, f, out, c, tail);
  }

  /** Collecting from a pre-order list appends exactly one record per
      selected cursor, in order, after the records already present. */
  lemma {:induction false} CollectIsSelection(functions: seq<AiFunction>, ns: seq<Cursor>, filePath: string, lines: seq<string>)
    requires Collect(functions, ns, filePath, lines).Ok?
    ensures IsSelectionOf(Collect(functions, ns, filePath, lines).value, functions, Selected(ns, filePath), lines)
    decreases |ns|
  {
    if ns == [] {
      assert functions[..|functions|] == functions;
    } else if IsCollected(ns[0], filePath) {
      var f := MakeRecord(ns[0], lines).value;
      assert Collect(functions, ns, filePath, lines) == Collect(functions + [f], ns[1..], filePath, lines);
      CollectIsSelection(functions + [f], ns[1..], filePath, lines);
      assert Selected(ns, filePath) == [ns[0]] + Selected(ns[1..], filePath);
      SelectionCons(functions, f, Collect(functions, ns, filePath, lines).value, ns[0], Selected(ns[1..], filePath), lines);
    } else {
      assert Collect(functions, ns, filePath, lines) == Collect(functions, ns[1..], filePath, lines);
      assert Selected(ns, filePath) == Selected(ns[1..], filePath);
      CollectIsSelection(functions, ns[1..], filePath, lines);
    }
  }

  /** The main loop of this script: each function gets the outcome of its
      retry loop; `analyze(k, a)` is the analyzer's reply for function `k`
      on call `a`. */
  method AssignComplexities(functions: seq<AiFunction>, analyze: (nat, nat) -> Reply) returns (out: seq<AiFunction>)
    ensures |out| == |functions|
    ensures forall k :: 0 <= k < |out| ==>
      out[k] == functions[k].(timeComplexity := FinalComplexity((a: nat) => analyze(k, a), functions[k].totalStatement, 0))
  {
    out := [];
    var index := 0;
    while index < |functions|
      invariant 0 <= index <= |functions| && |out| == index
      invariant forall k :: 0 <= k < index ==>
        out[k] == functions[k].(timeComplexity := FinalComplexity((a: nat) => analyze(k, a), functions[k].totalStatement, 0))
    {
      var func := functions[index];
      var reply := (a: nat) => analyze(index, a);
      var isSuccess, timeComplexity, calls := AnalyzeWithRetry(reply);
      FinalComplexityOfRetry(reply, func.totalStatement, isSuccess, timeComplexity, calls, 0);
      func := func.(timeComplexity := ComplexityAfterRetry(isSuccess, timeComplexity, func.totalStatement));
      out := out + [func];
      index := index + 1;
    }
  }

  /** The lines of the header literal before the entries. */
  const Prelude: seq<string> := [
    "#ifndef CPP_FUNCTIONS_H",
    "#define CPP_FUNCTIONS_H",
    "",
    "#include <unordered_map>",
    "#include <string>",
    "",
    "// Inline global hashmap " + "mapping function names " + "to their time complexities.",
    "inline const std::" + "unordered_map<std::string, " + "std::string> cppFunctionsMap = {"]

  /** `'};\n\n'` then `'#endif // CPP_FUNCTIONS_H\n'`. */
  const Closing: seq<string> := ["};", "", "#endif // CPP_FUNCTIONS_H"]

  /** The entry for one function: its plain name and its complexity, or the
      statement count when no complexity was set. */
  function FunctionLine(f: AiFunction): string
  {
    "    {\"" + f.functionName + "\", \"" + ComplexityText(f.timeComplexity, f.totalStatement) + "\"},"
  }

  function FunctionLines(fs: seq<AiFunction>): (ls: seq<string>)
    ensures |ls| == |fs| && forall i :: 0 <= i < |fs| ==> ls[i] == FunctionLine(fs[i])
  {
    if fs == [] then [] else [FunctionLine(fs[0])] + FunctionLines(fs[1..])
  }

  function HeaderLines(fs: seq<AiFunction>): seq<string>
  {
    Prelude + FunctionLines(fs) + Closing
  }

  lemma HeaderPrefixSnoc(functions: seq<AiFunction>, i: nat)
    requires i < |functions|
    ensures Prelude + FunctionLines(functions[..i + 1]) == Prelude + FunctionLines(functions[..i]) + [FunctionLine(functions[i])]
  {
    var a := FunctionLines(functions[..i + 1]);
    var b := FunctionLines(functions[..i]) + [FunctionLine(functions[i])];
    assert |a| == |b|;
    forall k | 0 <= k < |a| ensures a[k] == b[k] {
      if k < i {
        assert functions[..i + 1][k] == functions[..i][k];
      }
    }
    assert a == b;
  }

  lemma ClosingText()
    ensures JoinLines(Closing) == "};\n\n" + "#endif // CPP_FUNCTIONS_H\n"
  {
    assert Closing[1..] == ["", "#endif // CPP_FUNCTIONS_H"];
    assert Closing[1..][1..] == ["#endif // CPP_FUNCTIONS_H"];
    assert Closing[1..][1..][1..] == [];
  }

  /** `saveAsCppHashmap(functions)`, returning the header text instead of
      writing it. */
  method SaveAsCppHashmap(functions: seq<AiFunction>) returns (headerContent: string)
    ensures headerContent == JoinLines(HeaderLines(functions))
  {
    headerContent := JoinLines(Prelude);
    assert Prelude + FunctionLines(functions[..0]) == Prelude;
    var i := 0;
    while i < |functions|
      invariant 0 <= i <= |functions|
      invariant headerContent == JoinLines(Prelude + FunctionLines(functions[..i]))
    {
      var func := functions[i];
      var line := FunctionLine(func);
      JoinLinesSnoc(Prelude + FunctionLines(functions[..i]), line);
      HeaderPrefixSnoc(functions, i);
      headerContent := headerContent + line + "\n";
      i := i + 1;
    }
    assert functions[..i] == functions;
    JoinLinesAppend(Prelude + FunctionLines(functions), Closing);
    ClosingText();
    headerContent := headerContent + "};\n\n";
    headerContent := headerContent + "#endif // CPP_FUNCTIONS_H\n";
  }

  lemma GuardLinesNoNewline()
    ensures NoNewline("#ifndef CPP_FUNCTIONS_H") && NoNewline("#define CPP_FUNCTIONS_H")
    ensures NoNewline("#endif // CPP_FUNCTIONS_H")
  {
  }

  lemma IncludeLinesNoNewline()
    ensures NoNewline("#include <unordered_map>") && NoNewline("#include <string>") && NoNewline("")
    ensures NoNewline("};")
  {
  }

  lemma CommentLineNoNewline()
    ensures NoNewline(Prelude[6])
  {
    assert NoNewline("// Inline global hashmap ");
    assert NoNewline("mapping function names ");
    assert NoNewline("to their time complexities.");
    NoNewlineConcat("// Inline global hashmap ", "mapping function names ");
    NoNewlineConcat("// Inline global hashmap " + "mapping function names ", "to their time complexities.");
  }

  lemma MapLineNoNewline()
    ensures NoNewline(Prelude[7])
  {
    assert NoNewline("inline const std::");
    assert NoNewline("unordered_map<std::string, ");
    assert NoNewline("std::string> cppFunctionsMap = {");
    NoNewlineConcat("inline const std::", "unordered_map<std::string, ");
    NoNewlineConcat("inline const std::" + "unordered_map<std::string, ", "std::string> cppFunctionsMap = {");
  }

  lemma FixedLinesNoNewline()
    ensures AllNoNewline(Prelude) && AllNoNewline(Closing)
  {
    GuardLinesNoNewline();
    IncludeLinesNoNewline();
    CommentLineNoNewline();
    MapLineNoNewline();
  }

  /** Read back line by line, the header has the eight prelude lines, then
      exactly one entry line per collected function, in list order and with
      duplicates kept, then the closing lines ending in the guard's
      `#endif`, when no name or complexity contains a newline. */
  lemma HeaderLinesRoundTrip(fs: seq<AiFunction>)
    requires forall f :: f in fs ==> NoNewline(f.functionName) && NoNewline(ComplexityText(f.timeComplexity, f.totalStatement))
    ensures var ls := SplitLines(JoinLines(HeaderLines(fs)));
            && |ls| == |fs| + 12
            && (forall k :: 0 <= k < |fs| ==> ls[8 + k] == FunctionLine(fs[k]))
            && ls[|fs| + 10] == "#endif // CPP_FUNCTIONS_H"
  {
    HeaderNoNewline(fs);
    SplitJoinIndex(HeaderLines(fs));
    HeaderLinesShape(fs);
  }

  lemma HeaderLinesShape(fs: seq<AiFunction>)
    ensures var hs := HeaderLines(fs);
            && |hs| == |fs| + 11
            && (forall k :: 0 <= k < |fs| ==> hs[8 + k] == FunctionLine(fs[k]))
            && hs[|fs| + 10] == "#endif // CPP_FUNCTIONS_H"
  {
    HeaderShapeOf(Prelude, fs, Closing);
  }

  lemma HeaderShapeOf(pre: seq<string>, fs: seq<AiFunction>, post: seq<string>)
    requires |pre| == 8 && |post| == 3
    ensures var hs := pre + FunctionLines(fs) + post;
            && |hs| == |fs| + 11
            && (forall k :: 0 <= k < |fs| ==> hs[8 + k] == FunctionLine(fs[k]))
            && hs[|fs| + 10] == post[2]
  {
    var hs := pre + FunctionLines(fs) + post;
    forall k | 0 <= k < |fs| ensures hs[8 + k] == FunctionLine(fs[k]) {
      assert hs[8 + k] == (pre + FunctionLines(fs))[8 + k];
    }
  }

  lemma HeaderNoNewline(fs: seq<AiFunction>)
    requires forall f :: f in fs ==> NoNewline(f.functionName) && NoNewline(ComplexityText(f.timeComplexity, f.totalStatement))
    ensures AllNoNewline(HeaderLines(fs))
  {
    forall i | 0 <= i < |fs| ensures NoNewline(FunctionLines(fs)[i]) {
      assert fs[i] in fs;
      FunctionLineNoNewline(fs[i]);
    }
    FixedLinesNoNewline();
    AllNoNewlineAppend(Prelude, FunctionLines(fs));
    AllNoNewlineAppend(Prelude + FunctionLines(fs), Closing);
  }

  lemma FunctionLineNoNewline(f: AiFunction)
    requires NoNewline(f.functionName) && NoNewline(ComplexityText(f.timeComplexity, f.totalStatement))
    ensures NoNewline(FunctionLine(f))
  {
    var c := ComplexityText(f.timeComplexity, f.totalStatement);
    assert NoNewline("    {\"") && NoNewline("\", \"") && NoNewline("\"},");
    NoNewlineConcat("    {\"", f.functionName);
    NoNewlineConcat("    {\"" + f.functionName, "\", \"");
    NoNewlineConcat("    {\"" + f.functionName + "\", \"", c);
    NoNewlineConcat("    {\"" + f.functionName + "\", \"" + c, "\"},");
  }
}

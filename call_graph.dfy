/** call_graph/main.cpp: the earlier tool. For every function of the main
    file other than `main` it appends a parameter-record struct to the
    struct file and rewrites the function into a task body, without the
    type suffix, the global-variable locks, the collected-set check or the
    epilogue of the later revision. */
module CallGraph {
  import opened Common
  import opened ClangAst
  import ObfuscatorRewriter

  /** Both callbacks ignore implicit declarations, functions with no
      definition anywhere (`!isDefined()`) and `main`. */
  predicate Skipped(f: FunctionDecl)
  {
    f.isImplicit || f.body.None? || f.name == "main"
  }

  // ---------------------------------------------------------------------
  // FunctionStructDumper

  function FieldLine(p: Param): string
  {
    "    " + p.ty.spelling + " " + p.name + ";"
  }

  function FieldLines(ps: seq<Param>): (ls: seq<string>)
    ensures |ls| == |ps| && forall i :: 0 <= i < |ps| ==> ls[i] == FieldLine(ps[i])
  {
    if ps == [] then [] else FieldLines(ps[..|ps| - 1]) + [FieldLine(ps[|ps| - 1])]
  }

  function StructHeader(f: FunctionDecl): string
  {
    "struct " + f.name + "_Struct {"
  }

  /** The two fields a non-void function's record gets. */
  function ResultFields(f: FunctionDecl): seq<string>
  {
    if f.ret.isVoid then []
    else ["    " + f.ret.spelling + " return_var;", "    bool " + f.name + "_done = false;"]
  }

  /** The lines of the struct written for `f`; the last, empty line is the
      blank line after `};`. */
  function StructLines(f: FunctionDecl): seq<string>
  {
    [StructHeader(f)] + FieldLines(f.params) + ResultFields(f) + ["};", ""]
  }

  /** The field lines, streamed one parameter at a time. */
  method WriteFields(params: seq<Param>) returns (text: string)
    ensures text == JoinLines(FieldLines(params))
  {
    text := "";
    var i := 0;
    while i < |params|
      invariant 0 <= i <= |params|
      invariant text == JoinLines(FieldLines(params[..i]))
    {
      var param := params[i];
      JoinLinesSnoc(FieldLines(params[..i]), FieldLine(param));
      assert params[..i + 1][..i] == params[..i];
      text := text + ("    " + param.ty.spelling + " " + param.name + ";") + "\n";
      i := i + 1;
    }
    assert params[..i] == params;
  }

  /** The two result fields of a non-void function, as text. */
  method WriteResultFields(f: FunctionDecl) returns (text: string)
    ensures text == JoinLines(ResultFields(f))
  {
    text := "";
    if f.ret.isVoid {
      assert ResultFields(f) == [];
    } else {
      var returnField := "    " + f.ret.spelling + " return_var;";
      var doneField := "    bool " + f.name + "_done = false;";
      text := text + returnField + "\n";
      text := text + doneField + "\n";
      assert ResultFields(f) == [returnField, doneField];
      assert [returnField, doneField][1..] == [doneField] && [doneField][1..] == [];
      assert JoinLines([doneField]) == doneField + "\n" + JoinLines([]);
      assert JoinLines([returnField, doneField]) == returnField + "\n" + JoinLines([doneField]);
    }
  }

  /** `FunctionStructDumper::run`: the text appended to the struct file. */
  method DumpStruct(f: FunctionDecl) returns (out: string)
    ensures out == if Skipped(f) then "" else JoinLines(StructLines(f))
  {
    if Skipped(f) {
      return "";
    }
    var header := "struct " + f.name + "_Struct {\n";
    var fields := WriteFields(f.params);
    var results := WriteResultFields(f);
    out := header + fields + results + "};\n\n";
    JoinLinesAppend([StructHeader(f)], FieldLines(f.params));
    JoinLinesAppend([StructHeader(f)] + FieldLines(f.params), ResultFields(f));
    JoinLinesAppend([StructHeader(f)] + FieldLines(f.params) + ResultFields(f), ["};", ""]);
    assert JoinLines([StructHeader(f)]) == header;
    assert JoinLines(["};", ""]) == "};\n\n" by {
      assert ["};", ""][1..] == [""] && [""][1..] == [];
    }
  }

  lemma FieldLinesNoNewline(ps: seq<Param>)
    requires forall i :: 0 <= i < |ps| ==> NoNewline(ps[i].ty.spelling) && NoNewline(ps[i].name)
    ensures AllNoNewline(FieldLines(ps))
  {
    forall i | 0 <= i < |ps| ensures NoNewline(FieldLines(ps)[i]) {
      FieldLineNoNewline(ps[i]);
    }
  }

  lemma FieldLineNoNewline(p: Param)
    requires NoNewline(p.ty.spelling) && NoNewline(p.name)
    ensures NoNewline(FieldLine(p))
  {
    assert NoNewline("    ") && NoNewline(" ") && NoNewline(";");
    NoNewlineConcat("    ", p.ty.spelling);
    NoNewlineConcat("    " + p.ty.spelling, " ");
    NoNewlineConcat("    " + p.ty.spelling + " ", p.name);
    NoNewlineConcat("    " + p.ty.spelling + " " + p.name, ";");
  }

  lemma ResultFieldsNoNewline(f: FunctionDecl)
    requires NoNewline(f.name) && NoNewline(f.ret.spelling)
    ensures AllNoNewline(ResultFields(f))
  {
    if !f.ret.isVoid {
      NoNewlineConcat("    ", f.ret.spelling);
      NoNewlineConcat("    " + f.ret.spelling, " return_var;");
      NoNewlineConcat("    bool ", f.name);
      NoNewlineConcat("    bool " + f.name, "_done = false;");
    }
  }

  /** Read back line by line, the struct of a function that is not skipped
      is its header, one field line per parameter in order, exactly two
      extra fields (`return_var`, then the done flag) when it is non-void
      and none when it is void, then `};` and a blank line. */
  lemma StructRoundTrip(f: FunctionDecl)
    requires NoNewline(f.name) && NoNewline(f.ret.spelling)
    requires forall i :: 0 <= i < |f.params| ==> NoNewline(f.params[i].ty.spelling) && NoNewline(f.params[i].name)
    ensures var ls := SplitLines(JoinLines(StructLines(f)));
            var n := |f.params|;
            var extra := if f.ret.isVoid then 0 else 2;
            && |ls| == n + extra + 4
            && ls[0] == "struct " + f.name + "_Struct {"
            && (forall i :: 0 <= i < n ==> ls[1 + i] == "    " + f.params[i].ty.spelling + " " + f.params[i].name + ";")
            && (!f.ret.isVoid ==> ls[n + 1] == "    " + f.ret.spelling + " return_var;"
                                  && ls[n + 2] == "    bool " + f.name + "_done = false;")
            && ls[n + extra + 1] == "};" && ls[n + extra + 2] == "" && ls[n + extra + 3] == ""
  {
    StructNoNewline(f);
    SplitJoinIndex(StructLines(f));
    StructLinesShape(f);
  }

  lemma StructLinesShape(f: FunctionDecl)
    ensures var hs := StructLines(f);
            var n := |f.params|;
            var extra := if f.ret.isVoid then 0 else 2;
            && |hs| == n + extra + 3
            && hs[0] == "struct " + f.name + "_Struct {"
            && (forall i :: 0 <= i < n ==> hs[1 + i] == "    " + f.params[i].ty.spelling + " " + f.params[i].name + ";")
            && (!f.ret.isVoid ==> hs[n + 1] == "    " + f.ret.spelling + " return_var;"
                                  && hs[n + 2] == "    bool " + f.name + "_done = false;")
            && hs[n + extra + 1] == "};" && hs[n + extra + 2] == ""
  {
    var hs := StructLines(f);
    var n := |f.params|;
    var front := [StructHeader(f)] + FieldLines(f.params);
    assert hs == front + ResultFields(f) + ["};", ""];
    forall i | 0 <= i < n ensures hs[1 + i] == FieldLine(f.params[i]) {
      assert hs[1 + i] == front[1 + i];
    }
  }

  lemma StructNoNewline(f: FunctionDecl)
    requires NoNewline(f.name) && NoNewline(f.ret.spelling)
    requires forall i :: 0 <= i < |f.params| ==> NoNewline(f.params[i].ty.spelling) && NoNewline(f.params[i].name)
    ensures AllNoNewline(StructLines(f))
  {
    NoNewlineConcat("struct ", f.name);
    NoNewlineConcat("struct " + f.name, "_Struct {");
    FieldLinesNoNewline(f.params);
    ResultFieldsNoNewline(f);
    AllNoNewlineAppend([StructHeader(f)], FieldLines(f.params));
    AllNoNewlineAppend([StructHeader(f)] + FieldLines(f.params), ResultFields(f));
    AllNoNewlineAppend([StructHeader(f)] + FieldLines(f.params) + ResultFields(f), ["};", ""]);
  }

  // ---------------------------------------------------------------------
  // The earlier FunctionRewriter

  /** The rewriter's state: the Rewriter calls issued and the function being
      rewritten. */
  datatype State = State(edits: seq<Edit>, current: Option<FunctionDecl>)

  /** A parameter reference of this revision: no type suffix. */
  function ParamRefText(fname: string, p: string): string
  {
    fname + "_params[param_index]." + p
  }

  function ReturnText(fname: string): string
  {
    fname + "_params[param_index].return_var = "
  }

  /** `functionName.find("operator") == 0`. */
  predicate IsOperatorName(name: string)
  {
    |name| >= 8 && name[..8] == "operator"
  }

  /** Callees whose calls this revision leaves alone. */
  predicate CallSkipped(c: Callee)
  {
    c.isImplicit || c.builtinId != 0 || !c.hasBodyHere || IsOperatorName(c.name)
  }

  /** The text inserted before the line of a call of `fn` in this revision:
      the test reads `if ( ` and the pool front is read from
      `_params.index.pool`. */
  function PushThreadText(fn: string, args: string): string
  {
    "int index; \n { \n unique_lock<mutex> lock(mutexes[thread_idx]);\n if ( " +
    fn + "_params_index_pool.empty()){\n index = " + fn +
    "_params.size();\n" + fn + "_params.emplace_back();\n }\n else { \n index = " +
    fn + "_params.index.pool.front(); \n" + fn + "_params_index_pool.pop(); \n }\n" +
    fn + "_params[index] = {" + args + "};\n }\n" +
    "pushToThread(" + fn + "_enumidx);\n"
  }

  function CallPrelude(c: Callee, argTexts: seq<string>): string
  {
    PushThreadText(c.name, JoinWith(argTexts, ", ")) + (if c.ret.isVoid then "" else ObfuscatorRewriter.WaitLoopText(c.name))
  }

  function DeclRefStep(s: State, decl: RefDecl, loc: SrcLoc): State
  {
    if s.current.Some? && decl.VarRef? && decl.isParm then
      s.(edits := s.edits + [ReplaceText(loc.offset, |decl.name|, ParamRefText(s.current.value.name, decl.name))])
    else s
  }

  /** `VisitCallExpr` of this revision: no collected-set check, no
      suffix, no callee bookkeeping, and no check that a function is being
      rewritten. */
  function CallStep(s: State, callee: Option<Callee>, range: CallRange, argTexts: seq<string>): State
  {
    match callee
    case None => s
    case Some(c) =>
      if CallSkipped(c) then s
      else
        s.(edits := s.edits + [InsertTextBefore(LineStart(range.begin), CallPrelude(c, argTexts)),
                               ObfuscatorRewriter.CallSiteEdit(c, range, c.name)])
  }

  lemma CallStepTaken(s: State, c: Callee, range: CallRange, argTexts: seq<string>, lineStart: int, prelude: string, site: Edit)
    requires !CallSkipped(c)
    requires lineStart == LineStart(range.begin) && prelude == CallPrelude(c, argTexts)
    requires site == ObfuscatorRewriter.CallSiteEdit(c, range, c.name)
    ensures CallStep(s, Some(c), range, argTexts) == State(s.edits + [InsertTextBefore(lineStart, prelude), site], s.current)
  {
  }

  function Step(s: State, n: Node): State
  {
    match n
    case DeclRefExpr(decl, loc) => DeclRefStep(s, decl, loc)
    case CallExpr(callee, range, argTexts, _) => CallStep(s, callee, range, argTexts)
    case _ => s
  }

  function Walk(s: State, ns: seq<Node>): State
    decreases |ns|
  {
    if ns == [] then s else Walk(Step(s, ns[0]), ns[1..])
  }

  lemma {:induction false} WalkAppend(s: State, a: seq<Node>, b: seq<Node>)
    ensures Walk(s, a + b) == Walk(Walk(s, a), b)
    decreases |a|
  {
    if a == [] {
      assert a + b == b;
    } else {
      assert (a + b)[0] == a[0];
      assert (a + b)[1..] == a[1..] + b;
      WalkAppend(Step(s, a[0]), a[1..], b);
    }
  }

  /** The return-type and parameter-list rewrites; there is no rename. */
  function SignatureEdits(f: FunctionDecl): seq<Edit>
  {
    [ReplaceText(f.retTypeBegin, |f.ret.spelling|, "void")]
    + (match f.parens
       case Some(lr) => if lr.0 < lr.1 then [ReplaceRange(lr.0, lr.1, ObfuscatorRewriter.NewParamList)] else []
       case None => [])
  }

  /** The `return` rewrites of a non-void function whose body is known. */
  function ReturnPart(f: FunctionDecl): seq<Edit>
  {
    if f.ret.isVoid || f.body.None? then []
    else ObfuscatorRewriter.ReturnEdits(TopLevelReturns(f.body.value.stmts), ReturnText(f.name))
  }

  /** `run` of this revision. */
  function RunSpec(s: State, f: FunctionDecl): State
  {
    if Skipped(f) then s
    else
      var prepared := s.(current := Some(f), edits := s.edits + SignatureEdits(f) + ReturnPart(f));
      Walk(prepared, TraversedNodes(f)).(current := None)
  }

  /** Implicit functions, functions with no definition, and `main` are not
      rewritten. */
  lemma RunSkipped(s: State, f: FunctionDecl)
    requires Skipped(f)
    ensures RunSpec(s, f) == s
  {
  }

  /** Calls of implicit, builtin or bodiless callees and of operators are
      left untouched. */
  lemma CallSkippedUntouched(s: State, c: Callee, range: CallRange, argTexts: seq<string>)
    requires CallSkipped(c)
    ensures CallStep(s, Some(c), range, argTexts) == s
  {
  }

  /** A call of a non-void callee that is not skipped: the prelude with the
      busy wait goes before its line and the call becomes a read of the
      `_return` field; a void call is removed through its semicolon, or
      only its tokens when no semicolon follows. */
  lemma CallRewrite(s: State, c: Callee, range: CallRange, argTexts: seq<string>)
    requires !CallSkipped(c)
    ensures var t := CallStep(s, Some(c), range, argTexts);
            && |t.edits| == |s.edits| + 2 && t.edits[..|s.edits|] == s.edits
            && t.edits[|s.edits|] == InsertTextBefore(LineStart(range.begin), CallPrelude(c, argTexts))
            && (!c.ret.isVoid ==> t.edits[|s.edits| + 1] == ReplaceRange(range.begin.offset, range.end, c.name + "_params[index]." + c.name + "_return"))
            && (c.ret.isVoid && range.semiAfter.Some? ==> t.edits[|s.edits| + 1] == RemoveRange(range.begin.offset, range.semiAfter.value))
            && (c.ret.isVoid && range.semiAfter.None? ==> t.edits[|s.edits| + 1] == RemoveRange(range.begin.offset, range.end))
  {
  }

  predicate Grows(s: State, t: State)
  {
    |s.edits| <= |t.edits| && t.edits[..|s.edits|] == s.edits && t.current == s.current
  }

  lemma GrowsTrans(a: State, b: State, c: State)
    requires Grows(a, b) && Grows(b, c)
    ensures Grows(a, c)
  {
    assert c.edits[..|b.edits|][..|a.edits|] == c.edits[..|a.edits|];
  }

  lemma {:induction false} WalkMonotone(s: State, ns: seq<Node>)
    ensures Grows(s, Walk(s, ns))
    decreases |ns|
  {
    if ns != [] {
      StepGrows(s, ns[0]);
      WalkMonotone(Step(s, ns[0]), ns[1..]);
      GrowsTrans(s, Step(s, ns[0]), Walk(s, ns));
    }
  }

  lemma AppendGrows(s: State, es: seq<Edit>)
    ensures Grows(s, s.(edits := s.edits + es))
  {
    assert (s.edits + es)[..|s.edits|] == s.edits;
  }

  /** One visitor step only appends edits and keeps the current function. */
  lemma StepGrows(s: State, n: Node)
    ensures Grows(s, Step(s, n))
  {
    match n
    case DeclRefExpr(decl, loc) =>
      assert Step(s, n) == DeclRefStep(s, decl, loc);
      DeclRefGrows(s, decl, loc);
    case CallExpr(callee, range, argTexts, _) =>
      assert Step(s, n) == CallStep(s, callee, range, argTexts);
      CallStepGrows(s, callee, range, argTexts);
    case _ =>
      assert Step(s, n) == s;
  }

  lemma DeclRefGrows(s: State, decl: RefDecl, loc: SrcLoc)
    ensures Grows(s, DeclRefStep(s, decl, loc))
  {
    if s.current.Some? && decl.VarRef? && decl.isParm {
      AppendGrows(s, [ReplaceText(loc.offset, |decl.name|, ParamRefText(s.current.value.name, decl.name))]);
    }
  }

  lemma CallStepGrows(s: State, callee: Option<Callee>, range: CallRange, argTexts: seq<string>)
    ensures Grows(s, CallStep(s, callee, range, argTexts))
  {
    if callee.Some? && !CallSkipped(callee.value) {
      var c := callee.value;
      AppendGrows(s, [InsertTextBefore(LineStart(range.begin), CallPrelude(c, argTexts)),
                      ObfuscatorRewriter.CallSiteEdit(c, range, c.name)]);
    }
  }

  /** An element of a prefix of the edits is among the edits. */
  lemma InGrown(e: Edit, s: State, t: State)
    requires Grows(s, t) && e in s.edits
    ensures e in t.edits
  {
    var i :| 0 <= i < |s.edits| && s.edits[i] == e;
    assert t.edits[..|s.edits|][i] == e;
  }

  /** Every reference to a parameter `p` met while `F` is rewritten issues
      its replacement by `F + "_params[param_index]." + p`. */
  lemma {:induction false} ParamRefsReplaced(s: State, ns: seq<Node>, k: nat)
    requires s.current.Some? && k < |ns| && ns[k].DeclRefExpr? && ns[k].decl.VarRef? && ns[k].decl.isParm
    ensures ReplaceText(ns[k].loc.offset, |ns[k].decl.name|, ParamRefText(s.current.value.name, ns[k].decl.name)) in Walk(s, ns).edits
    decreases |ns|
  {
    var s' := Step(s, ns[0]);
    StepGrows(s, ns[0]);
    assert Walk(s, ns) == Walk(s', ns[1..]);
    if k == 0 {
      var e := ReplaceText(ns[0].loc.offset, |ns[0].decl.name|, ParamRefText(s.current.value.name, ns[0].decl.name));
      assert s' == DeclRefStep(s, ns[0].decl, ns[0].loc);
      assert s'.edits == s.edits + [e];
      assert s'.edits[|s.edits|] == e;
      WalkMonotone(s', ns[1..]);
      InGrown(e, s', Walk(s', ns[1..]));
    } else {
      ParamRefsReplaced(s', ns[1..], k - 1);
    }
  }

  /** For a function that is not skipped: the first edits make the return
      type `void` and replace the parameter list, then, for a non-void
      function, come the rewrites of its top-level `return`s (one each, in
      order, to an assignment of `return_var`, as `ReturnEdits` states);
      afterwards no function is current. */
  lemma RunRewrites(s: State, f: FunctionDecl)
    requires !Skipped(f)
    ensures var t := RunSpec(s, f);
            var pre := s.edits + SignatureEdits(f) + ReturnPart(f);
            && |t.edits| >= |pre| && t.edits[..|pre|] == pre
            && |ReturnPart(f)| == (if f.ret.isVoid then 0 else |TopLevelReturns(f.body.value.stmts)|)
            && ObfuscatorRewriter.NoReturnRewriteFrom(t.edits, |pre|, ReturnText(f.name))
            && t.current.None?
  {
    var prepared := s.(current := Some(f), edits := s.edits + SignatureEdits(f) + ReturnPart(f));
    WalkMonotone(prepared, TraversedNodes(f));
    WalkAddsNoReturnRewrite(prepared, TraversedNodes(f), f.name);
  }

  /** A call's replacement never reads like a return rewrite: one ends in
      `n`, the other in a space. */
  lemma CallResultIsNotReturnText(fn: string, fname: string)
    ensures ObfuscatorRewriter.CallResultText(fn) != ReturnText(fname)
  {
    var c := ObfuscatorRewriter.CallResultText(fn);
    var r := ReturnText(fname);
    assert c[|c| - 1] == 'n';
    assert r[|r| - 1] == ' ';
  }

  lemma StepAddsNoReturnRewrite(s: State, n: Node, fname: string)
    ensures var t := Step(s, n);
            |s.edits| <= |t.edits| && ObfuscatorRewriter.NoReturnRewriteFrom(t.edits, |s.edits|, ReturnText(fname))
  {
    match n
    case DeclRefExpr(decl, loc) =>
      DeclRefGrows(s, decl, loc);
    case CallExpr(callee, range, argTexts, _) =>
      assert Step(s, n) == CallStep(s, callee, range, argTexts);
      CallStepAddsNoReturnRewrite(s, callee, range, argTexts, fname);
    case _ =>
  }

  lemma CallStepAddsNoReturnRewrite(s: State, callee: Option<Callee>, range: CallRange, argTexts: seq<string>, fname: string)
    ensures var t := CallStep(s, callee, range, argTexts);
            |s.edits| <= |t.edits| && ObfuscatorRewriter.NoReturnRewriteFrom(t.edits, |s.edits|, ReturnText(fname))
  {
    if callee.Some? && !CallSkipped(callee.value) {
      var c := callee.value;
      CallResultIsNotReturnText(c.name, fname);
      assert CallStep(s, callee, range, argTexts).edits
          == s.edits + [InsertTextBefore(LineStart(range.begin), CallPrelude(c, argTexts)), ObfuscatorRewriter.CallSiteEdit(c, range, c.name)];
    }
  }

  /** The traversal rewrites no `return`, nested or not. */
  lemma {:induction false} WalkAddsNoReturnRewrite(s: State, ns: seq<Node>, fname: string)
    ensures var t := Walk(s, ns);
            |s.edits| <= |t.edits| && ObfuscatorRewriter.NoReturnRewriteFrom(t.edits, |s.edits|, ReturnText(fname))
    decreases |ns|
  {
    if ns != [] {
      var s' := Step(s, ns[0]);
      StepAddsNoReturnRewrite(s, ns[0], fname);
      WalkAddsNoReturnRewrite(s', ns[1..], fname);
      WalkMonotone(s', ns[1..]);
      var w := Walk(s', ns[1..]);
      assert Walk(s, ns) == w;
      forall i | |s.edits| <= i < |w.edits| ensures !ObfuscatorRewriter.IsReturnRewrite(w.edits[i], ReturnText(fname)) {
        if i < |s'.edits| {
          assert w.edits[i] == w.edits[..|s'.edits|][i];
        }
      }
    }
  }

  /** Every reference to a parameter `p` in the body of a rewritten function
      `F` becomes `F + "_params[param_index]." + p`. */
  lemma RunParamRefs(s: State, f: FunctionDecl, k: nat)
    requires !Skipped(f) && k < |TraversedNodes(f)|
    requires TraversedNodes(f)[k].DeclRefExpr? && TraversedNodes(f)[k].decl.VarRef? && TraversedNodes(f)[k].decl.isParm
    ensures var n := TraversedNodes(f)[k];
            ReplaceText(n.loc.offset, |n.decl.name|, ParamRefText(f.name, n.decl.name)) in RunSpec(s, f).edits
  {
    var prepared := s.(current := Some(f), edits := s.edits + SignatureEdits(f) + ReturnPart(f));
    ParamRefsReplaced(prepared, TraversedNodes(f), k);
    assert RunSpec(s, f).edits == Walk(prepared, TraversedNodes(f)).edits;
  }

  /** The task push written before the line of a call, with the busy wait
      for a non-void callee. */
  method PushStatement(c: Callee, argTexts: seq<string>) returns (pushThreadStmt: string)
    ensures pushThreadStmt == CallPrelude(c, argTexts)
  {
    var functionName := c.name;
    var argsString := ObfuscatorRewriter.JoinArgs(argTexts);
    pushThreadStmt := PushThreadText(functionName, argsString);
    if !c.ret.isVoid {
      pushThreadStmt := pushThreadStmt + ObfuscatorRewriter.WaitLoopText(functionName);
    }
  }

  class FunctionRewriter {
    var edits: seq<Edit>
    var currentFunction: Option<FunctionDecl>

    function Snapshot(): State
      reads this
    {
      State(edits, currentFunction)
    }

    constructor()
      ensures Snapshot() == State([], None)
    {
      edits := [];
      currentFunction := None;
    }

    method VisitDeclRefExpr(decl: RefDecl, loc: SrcLoc)
      modifies this
      ensures Snapshot() == DeclRefStep(old(Snapshot()), decl, loc)
    {
      if currentFunction.None? {
        return;
      }
      if decl.VarRef? && decl.isParm {
        var functionName := currentFunction.value.name;
        var paramName := decl.name;
        var replacement := functionName + "_params[param_index]." + paramName;
        edits := edits + [ReplaceText(loc.offset, |paramName|, replacement)];
      }
    }

    method VisitCallExpr(callee: Option<Callee>, range: CallRange, argTexts: seq<string>)
      modifies this
      ensures Snapshot() == CallStep(old(Snapshot()), callee, range, argTexts)
    {
      if callee.None? {
        return;
      }
      var c := callee.value;
      if c.isImplicit || c.builtinId != 0 || !c.hasBodyHere {
        return;
      }
      var functionName := c.name;
      if IsOperatorName(functionName) {
        return;
      }
      var pushThreadStmt := PushStatement(c, argTexts);
      var lineStart := LineStart(range.begin);
      var callSite := ObfuscatorRewriter.CallSite(c, range, functionName);
      CallStepTaken(Snapshot(), c, range, argTexts, lineStart, pushThreadStmt, callSite);
      edits := edits + [InsertTextBefore(lineStart, pushThreadStmt), callSite];
    }

    method TraverseNode(n: Node)
      modifies this
      ensures Snapshot() == Walk(old(Snapshot()), Preorder(n))
      decreases n, 1
    {
      ghost var s0 := Snapshot();
      match n {
        case DeclRefExpr(decl, loc) => VisitDeclRefExpr(decl, loc);
        case CallExpr(callee, range, argTexts, _) => VisitCallExpr(callee, range, argTexts);
        case _ =>
      }
      assert Snapshot() == Walk(s0, [n]) by {
        assert [n][1..] == [];
      }
      if n.DeclRefExpr? {
        return;
      }
      TraverseAll(n.children);
      WalkAppend(s0, [n], PreorderAll(n.children));
    }

    /** The walk of a sequence of sibling nodes, in order: a function body's
        statements or a node's children. */
    method TraverseAll(stmts: seq<Node>)
      modifies this
      ensures Snapshot() == Walk(old(Snapshot()), PreorderAll(stmts))
      decreases stmts, 0
    {
      ghost var s0 := Snapshot();
      var i := 0;
      while i < |stmts|
        invariant 0 <= i <= |stmts|
        invariant Snapshot() == Walk(s0, PreorderAll(stmts[..i]))
      {
        TraverseNode(stmts[i]);
        PreorderAllSnoc(stmts, i);
        WalkAppend(s0, PreorderAll(stmts[..i]), Preorder(stmts[i]));
        i := i + 1;
      }
      assert stmts[..i] == stmts;
    }

    method Run(f: FunctionDecl)
      modifies this
      ensures Snapshot() == RunSpec(old(Snapshot()), f)
    {
      if f.isImplicit || f.body.None? || f.name == "main" {
        return;
      }
      ghost var s0 := Snapshot();
      currentFunction := Some(f);
      edits := edits + [ReplaceText(f.retTypeBegin, |f.ret.spelling|, "void")];
      if f.parens.Some? && f.parens.value.0 < f.parens.value.1 {
        edits := edits + [ReplaceRange(f.parens.value.0, f.parens.value.1, ObfuscatorRewriter.NewParamList)];
      }
      assert edits == s0.edits + SignatureEdits(f);
      if !f.ret.isVoid {
        var issued := ObfuscatorRewriter.ReturnRewrites(f.body.value.stmts, f.name + "_params[param_index].return_var = ");
        edits := edits + issued;
      } else {
        assert edits == s0.edits + SignatureEdits(f) + ReturnPart(f);
      }
      currentFunction := Some(f);
      TraverseAll(TraversedRoots(f));
      currentFunction := None;
    }
  }
}

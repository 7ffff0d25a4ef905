/** Obfuscator/obfuscator.cpp: the source-rewrite rules that turn every
    collected function into a task body. For such a function `F` the rules
    rename it with its parameter-type initials, give it the task signature
    `void F<suffix>(int thread_idx, int param_index)`, redirect parameters
    and `return`s to its parameter record, wrap each line that touches a
    global in a lock, turn each call of a collected function into
    "fill a record, push a task, (wait)" and release the records at the end.

    `State` is the rewriter's mutable state as a value and the step functions
    are its visitors; `FunctionRewriter` is the class whose methods perform
    those steps in place. */
module ObfuscatorRewriter {
  import opened Common
  import opened ClangAst

  /** The parameter list every task function gets. */
  const NewParamList: string := "(int thread_idx, int param_index)"

  /** The text opening and closing the lock around a line using a global. */
  const LockStart: string := "{ unique_lock<mutex> lock(mutexes[thread_idx]);"
  const LockEnd: string := " }"

  /** The definition's suffix: the first character of each non-empty
      parameter type string, in parameter order. */
  function DefSuffix(ps: seq<Param>): string
  {
    if ps == [] then ""
    else
      var t := ps[|ps| - 1].ty.spelling;
      DefSuffix(ps[..|ps| - 1]) + (if t == "" then "" else [t[0]])
  }

  /** `getAsString()[0]`: the first character, or the terminating NUL of an
      empty string. */
  function CallInitial(t: string): char
  {
    if t == "" then '\0' else t[0]
  }

  /** The suffix a call site appends: one character per callee parameter,
      with no check for an empty type string. */
  function CallSuffix(ps: seq<Param>): (r: string)
    ensures |r| == |ps|
    ensures forall i :: 0 <= i < |ps| ==> r[i] == CallInitial(ps[i].ty.spelling)
  {
    if ps == [] then ""
    else CallSuffix(ps[..|ps| - 1]) + [CallInitial(ps[|ps| - 1].ty.spelling)]
  }

  /** The definition suffix is exactly the type initials, one per parameter,
      when no type string is empty; otherwise it is shorter. */
  lemma {:induction false} DefSuffixSpec(ps: seq<Param>)
    ensures |DefSuffix(ps)| <= |ps|
    ensures (forall i :: 0 <= i < |ps| ==> ps[i].ty.spelling != "") ==>
      |DefSuffix(ps)| == |ps| && forall i :: 0 <= i < |ps| ==> DefSuffix(ps)[i] == ps[i].ty.spelling[0]
    ensures (exists i :: 0 <= i < |ps| && ps[i].ty.spelling == "") ==> |DefSuffix(ps)| < |ps|
  {
    if ps != [] {
      var init := ps[..|ps| - 1];
      DefSuffixSpec(init);
      assert forall i :: 0 <= i < |init| ==> init[i] == ps[i];
      if exists i :: 0 <= i < |ps| && ps[i].ty.spelling == "" {
        var i :| 0 <= i < |ps| && ps[i].ty.spelling == "";
        if i < |init| {
          assert init[i].ty.spelling == "";
        }
      }
    }
  }

  /** The name a definition gets and the name its call sites use agree
      exactly when no parameter type string is empty. */
  lemma SuffixesAgree(ps: seq<Param>)
    ensures DefSuffix(ps) == CallSuffix(ps) <==> forall i :: 0 <= i < |ps| ==> ps[i].ty.spelling != ""
  {
    DefSuffixSpec(ps);
    if forall i :: 0 <= i < |ps| ==> ps[i].ty.spelling != "" {
      assert forall i :: 0 <= i < |ps| ==> DefSuffix(ps)[i] == CallSuffix(ps)[i];
    }
  }

  /** A reference to parameter `p` of `F`. */
  function ParamRefText(fname: string, suffix: string, p: string): string
  {
    fname + suffix + "_params[param_index]." + p
  }

  /** What a top-level `return` becomes. */
  function ReturnText(fname: string, suffix: string): string
  {
    fname + suffix + "_params[param_index].return_var = "
  }

  /** The statements inserted before the line of a call of `fn`: take a
      record index from the pool (or grow the record vector), fill the record
      from the argument texts and push the task. */
  function PushThreadText(fn: string, args: string): string
  {
    "int index; \n { \n unique_lock<mutex> lock(mutexes[thread_idx]);\n if (" +
    fn + "_params_index_pool.empty()){\n index = " + fn +
    "_params.size();\n" + fn + "_params.emplace_back();\n }\n else { \n index = " +
    fn + "_params_index_pool.front(); \n" + fn + "_params_index_pool.pop(); \n }\n" +
    fn + "_params[index] = {" + args + "};\n }\n" +
    "pushToThread(" + fn + "_enumidx);\n"
  }

  /** The busy wait added after a call of a non-void `fn`. */
  function WaitLoopText(fn: string): string
  {
    "while (!" + fn + "_params[index]." + fn + "_done" + ") {\n if(!queues[thread_idx].empty()) execute(thread_idx); \n} \n"
  }

  /** What a call of a non-void `fn` is replaced by. */
  function CallResultText(fn: string): string
  {
    fn + "_params[index]." + fn + "_return"
  }

  /** One line of the epilogue: the record index goes back to the pool. */
  function PoolReleaseLine(callee: string): string
  {
    callee + "_params_index_pool" + ".push(index);"
  }

  /** The last line of a non-void task's epilogue. */
  function DoneFlagLine(fname: string, suffix: string): string
  {
    fname + suffix + "_params[param_index]." + fname + suffix + "_done = true;"
  }

  /** The pool releases, in the order the callees were recorded. */
  function PoolReleases(callees: seq<string>): string
  {
    if callees == [] then ""
    else PoolReleases(callees[..|callees| - 1]) + PoolReleaseLine(callees[|callees| - 1]) + "\n"
  }

  /** The text inserted before the closing brace of a function. */
  function EpilogueText(callees: seq<string>, f: FunctionDecl, suffix: string, isMain: bool): string
  {
    PoolReleases(callees) + (if !f.ret.isVoid && !isMain then DoneFlagLine(f.name, suffix) + "\n" else "")
  }

  function PoolReleaseLines(callees: seq<string>): (ls: seq<string>)
    ensures |ls| == |callees| && forall i :: 0 <= i < |callees| ==> ls[i] == PoolReleaseLine(callees[i])
  {
    if callees == [] then [] else PoolReleaseLines(callees[..|callees| - 1]) + [PoolReleaseLine(callees[|callees| - 1])]
  }

  lemma {:induction false} PoolReleasesAreLines(callees: seq<string>)
    ensures PoolReleases(callees) == JoinLines(PoolReleaseLines(callees))
  {
    if callees != [] {
      var init := callees[..|callees| - 1];
      PoolReleasesAreLines(init);
      JoinLinesSnoc(PoolReleaseLines(init), PoolReleaseLine(callees[|callees| - 1]));
    }
  }

  lemma PoolReleaseLineNoNewline(callee: string)
    requires NoNewline(callee)
    ensures NoNewline(PoolReleaseLine(callee))
  {
    NoNewlineConcat(callee, "_params_index_pool");
    NoNewlineConcat(callee + "_params_index_pool", ".push(index);");
  }

  lemma PoolReleaseLinesNoNewline(callees: seq<string>)
    requires forall i :: 0 <= i < |callees| ==> NoNewline(callees[i])
    ensures AllNoNewline(PoolReleaseLines(callees))
  {
    forall i | 0 <= i < |callees| ensures NoNewline(PoolReleaseLines(callees)[i]) {
      PoolReleaseLineNoNewline(callees[i]);
    }
  }

  lemma DoneFlagLineNoNewline(fname: string, suffix: string)
    requires NoNewline(fname) && NoNewline(suffix)
    ensures NoNewline(DoneFlagLine(fname, suffix))
  {
    NoNewlineConcat(fname, suffix);
    NoNewlineConcat(fname + suffix, "_params[param_index].");
    NoNewlineConcat(fname + suffix + "_params[param_index].", fname);
    NoNewlineConcat(fname + suffix + "_params[param_index]." + fname, suffix);
    NoNewlineConcat(fname + suffix + "_params[param_index]." + fname + suffix, "_done = true;");
  }

  /** The epilogue's lines. */
  function EpilogueLineSeq(callees: seq<string>, f: FunctionDecl, suffix: string, isMain: bool): seq<string>
  {
    PoolReleaseLines(callees) + (if !f.ret.isVoid && !isMain then [DoneFlagLine(f.name, suffix)] else [])
  }

  lemma EpilogueIsLines(callees: seq<string>, f: FunctionDecl, suffix: string, isMain: bool)
    ensures EpilogueText(callees, f, suffix, isMain) == JoinLines(EpilogueLineSeq(callees, f, suffix, isMain))
  {
    PoolReleasesAreLines(callees);
    if !f.ret.isVoid && !isMain {
      JoinLinesSnoc(PoolReleaseLines(callees), DoneFlagLine(f.name, suffix));
    } else {
      assert EpilogueLineSeq(callees, f, suffix, isMain) == PoolReleaseLines(callees);
    }
  }

  lemma EpilogueLineSeqNoNewline(callees: seq<string>, f: FunctionDecl, suffix: string, isMain: bool)
    requires forall i :: 0 <= i < |callees| ==> NoNewline(callees[i])
    requires NoNewline(f.name) && NoNewline(suffix)
    ensures AllNoNewline(EpilogueLineSeq(callees, f, suffix, isMain))
  {
    PoolReleaseLinesNoNewline(callees);
    if !f.ret.isVoid && !isMain {
      DoneFlagLineNoNewline(f.name, suffix);
      AllNoNewlineAppend(PoolReleaseLines(callees), [DoneFlagLine(f.name, suffix)]);
    } else {
      assert EpilogueLineSeq(callees, f, suffix, isMain) == PoolReleaseLines(callees);
    }
  }

  /** Read line by line, the epilogue is one pool release per recorded
      callee, in order and with duplicates kept, followed by the done-flag
      line for a non-void function other than `main`. */
  lemma EpilogueLines(callees: seq<string>, f: FunctionDecl, suffix: string, isMain: bool)
    requires forall i :: 0 <= i < |callees| ==> NoNewline(callees[i])
    requires NoNewline(f.name) && NoNewline(suffix)
    ensures SplitLines(EpilogueText(callees, f, suffix, isMain)) == EpilogueLineSeq(callees, f, suffix, isMain) + [""]
  {
    EpilogueIsLines(callees, f, suffix, isMain);
    EpilogueLineSeqNoNewline(callees, f, suffix, isMain);
    SplitJoinLines(EpilogueLineSeq(callees, f, suffix, isMain));
  }

  /** The rewriter's mutable state: the Rewriter calls issued so far, the
      function being rewritten, its suffix, the non-void callees met in its
      body and the lines already wrapped in a lock. */
  datatype State = State(
    edits: seq<Edit>,
    current: Option<FunctionDecl>,
    currentSuffix: string,
    nonVoidCallees: seq<string>,
    processedGlobalLines: set<nat>)

  /** `VisitDeclRefExpr`. */
  function DeclRefStep(s: State, decl: RefDecl, loc: SrcLoc, buffer: Option<string>): State
  {
    if s.current.None? then s
    else
      var s1 :=
        if decl.VarRef? && decl.isParm then
          s.(edits := s.edits + [ReplaceText(loc.offset, |decl.name|, ParamRefText(s.current.value.name, s.currentSuffix, decl.name))])
        else s;
      if decl.VarRef? && !decl.inSystemHeader && (decl.atFileScope || decl.hasGlobalStorage)
         && loc.line !in s1.processedGlobalLines then
        var s2 := s1.(processedGlobalLines := s1.processedGlobalLines + {loc.line});
        match buffer
        case None => s2
        case Some(b) =>
          s2.(edits := s2.edits + [InsertText(LineStart(loc), LockStart, true, true),
                                   InsertTextAfterToken(LineEnd(b, loc.offset), LockEnd)])
      else s1
  }

  /** The Rewriter call that disposes of the call expression itself. */
  function CallSiteEdit(c: Callee, range: CallRange, fn: string): Edit
  {
    if !c.ret.isVoid then ReplaceRange(range.begin.offset, range.end, CallResultText(fn))
    else
      match range.semiAfter
      case Some(semi) => RemoveRange(range.begin.offset, semi)
      case None => RemoveRange(range.begin.offset, range.end)
  }

  /** The text inserted before the line of a call of `c`. */
  function CallPrelude(c: Callee, argTexts: seq<string>): string
  {
    var fn := c.name + CallSuffix(c.params);
    PushThreadText(fn, JoinWith(argTexts, ", ")) + (if c.ret.isVoid then "" else WaitLoopText(fn))
  }

  /** `VisitCallExpr`. */
  function CallStep(s: State, callee: Option<Callee>, range: CallRange, argTexts: seq<string>, functions: set<string>): State
  {
    match callee
    case None => s
    case Some(c) =>
      if c.name !in functions then s
      else
        var fn := c.name + CallSuffix(c.params);
        s.(edits := s.edits + [InsertTextBefore(LineStart(range.begin), CallPrelude(c, argTexts)), CallSiteEdit(c, range, fn)],
           nonVoidCallees := if c.ret.isVoid then s.nonVoidCallees else s.nonVoidCallees + [fn])
  }

  /** The visitors' effect on one node. */
  function Step(s: State, n: Node, functions: set<string>, buffer: Option<string>): State
  {
    match n
    case DeclRefExpr(decl, loc) => DeclRefStep(s, decl, loc, buffer)
    case CallExpr(callee, range, argTexts, _) => CallStep(s, callee, range, argTexts, functions)
    case _ => s
  }

  /** The visitors' effect on a list of nodes met in that order. */
  function Walk(s: State, ns: seq<Node>, functions: set<string>, buffer: Option<string>): State
    decreases |ns|
  {
    if ns == [] then s else Walk(Step(s, ns[0], functions, buffer), ns[1..], functions, buffer)
  }

  lemma {:induction false} WalkAppend(s: State, a: seq<Node>, b: seq<Node>, functions: set<string>, buffer: Option<string>)
    ensures Walk(s, a + b, functions, buffer) == Walk(Walk(s, a, functions, buffer), b, functions, buffer)
    decreases |a|
  {
    if a == [] {
      assert a + b == b;
    } else {
      assert (a + b)[0] == a[0];
      assert (a + b)[1..] == a[1..] + b;
      WalkAppend(Step(s, a[0], functions, buffer), a[1..], b, functions, buffer);
    }
  }

  /** The return-type, name and parameter-list rewrites of a non-main
      function. */
  function SignatureEdits(f: FunctionDecl, suffix: string): seq<Edit>
  {
    [ReplaceText(f.retTypeBegin, |f.ret.spelling|, "void"),
     ReplaceText(f.nameBegin, |f.name|, f.name + suffix)]
    + (match f.parens
       case Some(lr) => if lr.0 < lr.1 then [ReplaceRange(lr.0, lr.1, NewParamList)] else []
       case None => [])
  }

  /** One rewrite per top-level `return`, over its first six characters. */
  function ReturnEdits(rs: seq<nat>, text: string): (es: seq<Edit>)
    ensures |es| == |rs|
    ensures forall k :: 0 <= k < |rs| ==> es[k] == ReplaceRange(rs[k], rs[k] + 6, text)
  {
    if rs == [] then [] else ReturnEdits(rs[..|rs| - 1], text) + [ReplaceRange(rs[|rs| - 1], rs[|rs| - 1] + 6, text)]
  }

  /** Phases (3) and (4) of `run`: traverse with an empty callee list, then
      insert the epilogue before the closing brace. */
  function Finish(s: State, f: FunctionDecl, suffix: string, isMain: bool, functions: set<string>, buffer: Option<string>): State
  {
    var s3 := Walk(s.(nonVoidCallees := []), TraversedNodes(f), functions, buffer);
    var s4 :=
      if f.body.Some? then
        s3.(edits := s3.edits + [InsertTextBefore(f.body.value.rbrace, EpilogueText(s3.nonVoidCallees, f, suffix, isMain))])
      else s3;
    s4.(current := None)
  }

  /** `run` for one matched function declaration. */
  function RunSpec(s: State, f: FunctionDecl, functions: set<string>, buffer: Option<string>): State
  {
    if f.name !in functions then s
    else if f.name == "main" then
      Finish(s.(current := Some(f)), f, "", true, functions, buffer)
    else
      var suffix := DefSuffix(f.params);
      var s1 := s.(current := Some(f), edits := s.edits + SignatureEdits(f, suffix), currentSuffix := suffix);
      if f.body.None? then s1.(current := None)
      else
        var s2 :=
          if !f.ret.isVoid then s1.(edits := s1.edits + ReturnEdits(TopLevelReturns(f.body.value.stmts), ReturnText(f.name, suffix)))
          else s1;
        Finish(s2, f, suffix, false, functions, buffer)
  }

  // ---------------------------------------------------------------------
  // Properties of the rules

  /** A call of a collected callee adds exactly two Rewriter calls: the
      task-push text (with the busy wait for a non-void callee) before the
      call's line, then the replacement of a non-void call by the record's
      result field, or the removal of a void call through its `;` when one
      follows it and of its tokens otherwise. A non-void callee is recorded
      for the epilogue under its suffixed name. */
  lemma CallRewrite(s: State, c: Callee, range: CallRange, argTexts: seq<string>, functions: set<string>)
    requires c.name in functions
    ensures var t := CallStep(s, Some(c), range, argTexts, functions);
            var fn := c.name + CallSuffix(c.params);
            && |t.edits| == |s.edits| + 2 && t.edits[..|s.edits|] == s.edits
            && t.edits[|s.edits|] == InsertTextBefore(LineStart(range.begin), CallPrelude(c, argTexts))
            && (!c.ret.isVoid ==> t.edits[|s.edits| + 1] == ReplaceRange(range.begin.offset, range.end, fn + "_params[index]." + fn + "_return"))
            && (c.ret.isVoid && range.semiAfter.Some? ==> t.edits[|s.edits| + 1] == RemoveRange(range.begin.offset, range.semiAfter.value))
            && (c.ret.isVoid && range.semiAfter.None? ==> t.edits[|s.edits| + 1] == RemoveRange(range.begin.offset, range.end))
            && t.nonVoidCallees == s.nonVoidCallees + (if c.ret.isVoid then [] else [fn])
            && t.current == s.current && t.currentSuffix == s.currentSuffix
  {
  }

  /** A function outside the collected set is not touched. */
  lemma RunNotCollected(s: State, f: FunctionDecl, functions: set<string>, buffer: Option<string>)
    requires f.name !in functions
    ensures RunSpec(s, f, functions, buffer) == s
  {
  }

  /** A call of a function outside the collected set is left untouched, and
      so is a call with no direct callee. */
  lemma CallNotCollected(s: State, callee: Option<Callee>, range: CallRange, argTexts: seq<string>, functions: set<string>)
    requires callee.None? || callee.value.name !in functions
    ensures CallStep(s, callee, range, argTexts, functions) == s
  {
  }

  /** What the visitors keep: issued edits stay, the function being
      rewritten and its suffix stay, wrapped lines stay wrapped. */
  predicate Grows(s: State, t: State)
  {
    && |s.edits| <= |t.edits| && t.edits[..|s.edits|] == s.edits
    && t.current == s.current && t.currentSuffix == s.currentSuffix
    && s.processedGlobalLines <= t.processedGlobalLines
  }

  lemma GrowsTrans(a: State, b: State, c: State)
    requires Grows(a, b) && Grows(b, c)
    ensures Grows(a, c)
  {
    assert c.edits[..|b.edits|][..|a.edits|] == c.edits[..|a.edits|];
  }

  lemma DeclRefGrows(s: State, decl: RefDecl, loc: SrcLoc, buffer: Option<string>)
    ensures Grows(s, DeclRefStep(s, decl, loc, buffer))
    ensures DeclRefStep(s, decl, loc, buffer).nonVoidCallees == s.nonVoidCallees
  {
    if s.current.Some? {
      var s1 :=
        if decl.VarRef? && decl.isParm then
          s.(edits := s.edits + [ReplaceText(loc.offset, |decl.name|, ParamRefText(s.current.value.name, s.currentSuffix, decl.name))])
        else s;
      assert Grows(s, s1);
      if decl.VarRef? && !decl.inSystemHeader && (decl.atFileScope || decl.hasGlobalStorage)
         && loc.line !in s1.processedGlobalLines {
        var s2 := s1.(processedGlobalLines := s1.processedGlobalLines + {loc.line});
        assert Grows(s1, s2);
        if buffer.Some? {
          var s3 := s2.(edits := s2.edits + [InsertText(LineStart(loc), LockStart, true, true),
                                             InsertTextAfterToken(LineEnd(buffer.value, loc.offset), LockEnd)]);
          assert Grows(s2, s3);
          GrowsTrans(s1, s2, s3);
        }
        GrowsTrans(s, s1, DeclRefStep(s, decl, loc, buffer));
      }
    }
  }

  /** The suffixed name a node adds to the callee list: that of a call of a
      non-void collected function. */
  function RecordedCallee(n: Node, functions: set<string>): seq<string>
  {
    if n.CallExpr? && n.callee.Some? && n.callee.value.name in functions && !n.callee.value.ret.isVoid
    then [n.callee.value.name + CallSuffix(n.callee.value.params)] else []
  }

  lemma StepGrows(s: State, n: Node, functions: set<string>, buffer: Option<string>)
    ensures Grows(s, Step(s, n, functions, buffer))
    ensures Step(s, n, functions, buffer).nonVoidCallees == s.nonVoidCallees + RecordedCallee(n, functions)
  {
    match n
    case DeclRefExpr(decl, loc) =>
      DeclRefGrows(s, decl, loc, buffer);
      assert s.nonVoidCallees + [] == s.nonVoidCallees;
    case CallExpr(callee, range, argTexts, _) =>
      assert Step(s, n, functions, buffer) == CallStep(s, callee, range, argTexts, functions);
      assert RecordedCallee(n, functions) ==
        if callee.Some? && callee.value.name in functions && !callee.value.ret.isVoid
        then [callee.value.name + CallSuffix(callee.value.params)] else [];
      CallStepGrows(s, callee, range, argTexts, functions);
    case _ =>
      assert s.nonVoidCallees + [] == s.nonVoidCallees;
  }

  lemma CallStepGrows(s: State, callee: Option<Callee>, range: CallRange, argTexts: seq<string>, functions: set<string>)
    ensures Grows(s, CallStep(s, callee, range, argTexts, functions))
    ensures CallStep(s, callee, range, argTexts, functions).nonVoidCallees ==
      s.nonVoidCallees + (if callee.Some? && callee.value.name in functions && !callee.value.ret.isVoid
                          then [callee.value.name + CallSuffix(callee.value.params)] else [])
  {
    if callee.Some? && callee.value.name in functions {
      var c := callee.value;
      var fn := c.name + CallSuffix(c.params);
      AppendGrows(s, [InsertTextBefore(LineStart(range.begin), CallPrelude(c, argTexts)), CallSiteEdit(c, range, fn)],
                  if c.ret.isVoid then s.nonVoidCallees else s.nonVoidCallees + [fn]);
      if c.ret.isVoid {
        assert s.nonVoidCallees + [] == s.nonVoidCallees;
      }
    } else {
      assert s.nonVoidCallees + [] == s.nonVoidCallees;
    }
  }

  lemma AppendGrows(s: State, es: seq<Edit>, nonVoidCallees: seq<string>)
    ensures Grows(s, s.(edits := s.edits + es, nonVoidCallees := nonVoidCallees))
  {
    assert (s.edits + es)[..|s.edits|] == s.edits;
  }

  lemma InGrown(e: Edit, s: State, t: State)
    requires Grows(s, t) && e in s.edits
    ensures e in t.edits
  {
    var i :| 0 <= i < |s.edits| && s.edits[i] == e;
    assert t.edits[..|s.edits|][i] == e;
  }

  /** A rewrite of a `return` to the assignment `text`. */
  predicate IsReturnRewrite(e: Edit, text: string)
  {
    e.ReplaceRange? && e.text == text
  }

  /** No edit from position `from` on is such a rewrite. */
  predicate NoReturnRewriteFrom(es: seq<Edit>, from: nat, text: string)
  {
    forall i :: from <= i < |es| ==> !IsReturnRewrite(es[i], text)
  }

  /** The replacement of a non-void call never reads like a return rewrite:
      one ends in `n`, the other in a space. */
  lemma CallResultIsNotReturnText(fn: string, fname: string, suffix: string)
    ensures CallResultText(fn) != ReturnText(fname, suffix)
  {
    var c := CallResultText(fn);
    var r := ReturnText(fname, suffix);
    assert c[|c| - 1] == 'n';
    assert r[|r| - 1] == ' ';
  }

  lemma DeclRefAddsNoReplaceRange(s: State, decl: RefDecl, loc: SrcLoc, buffer: Option<string>, text: string)
    ensures var t := DeclRefStep(s, decl, loc, buffer);
            |s.edits| <= |t.edits| && NoReturnRewriteFrom(t.edits, |s.edits|, text)
  {
    DeclRefGrows(s, decl, loc, buffer);
  }

  lemma CallStepAddsNoReturnRewrite(s: State, callee: Option<Callee>, range: CallRange, argTexts: seq<string>, functions: set<string>,
                                    fname: string, suffix: string)
    ensures var t := CallStep(s, callee, range, argTexts, functions);
            |s.edits| <= |t.edits| && NoReturnRewriteFrom(t.edits, |s.edits|, ReturnText(fname, suffix))
  {
    if callee.Some? && callee.value.name in functions {
      var c := callee.value;
      CallResultIsNotReturnText(c.name + CallSuffix(c.params), fname, suffix);
      var t := CallStep(s, callee, range, argTexts, functions);
      assert t.edits == s.edits + [InsertTextBefore(LineStart(range.begin), CallPrelude(c, argTexts)), CallSiteEdit(c, range, c.name + CallSuffix(c.params))];
    }
  }

  lemma StepAddsNoReturnRewrite(s: State, n: Node, functions: set<string>, buffer: Option<string>, fname: string, suffix: string)
    ensures var t := Step(s, n, functions, buffer);
            |s.edits| <= |t.edits| && NoReturnRewriteFrom(t.edits, |s.edits|, ReturnText(fname, suffix))
  {
    match n
    case DeclRefExpr(decl, loc) =>
      DeclRefAddsNoReplaceRange(s, decl, loc, buffer, ReturnText(fname, suffix));
    case CallExpr(callee, range, argTexts, _) =>
      assert Step(s, n, functions, buffer) == CallStep(s, callee, range, argTexts, functions);
      CallStepAddsNoReturnRewrite(s, callee, range, argTexts, functions, fname, suffix);
    case _ =>
  }

  /** A traversal rewrites no `return`, nested or not: it issues parameter
      rewrites, locks and call rewrites only. */
  lemma {:induction false} WalkAddsNoReturnRewrite(s: State, ns: seq<Node>, functions: set<string>, buffer: Option<string>,
                                                   fname: string, suffix: string)
    ensures var t := Walk(s, ns, functions, buffer);
            |s.edits| <= |t.edits| && NoReturnRewriteFrom(t.edits, |s.edits|, ReturnText(fname, suffix))
    decreases |ns|
  {
    if ns != [] {
      var s' := Step(s, ns[0], functions, buffer);
      StepAddsNoReturnRewrite(s, ns[0], functions, buffer, fname, suffix);
      WalkAddsNoReturnRewrite(s', ns[1..], functions, buffer, fname, suffix);
      WalkMonotone(s', ns[1..], functions, buffer);
      var w := Walk(s', ns[1..], functions, buffer);
      assert Walk(s, ns, functions, buffer) == w;
      forall i | |s.edits| <= i < |w.edits| ensures !IsReturnRewrite(w.edits[i], ReturnText(fname, suffix)) {
        if i < |s'.edits| {
          assert w.edits[i] == w.edits[..|s'.edits|][i];
        }
      }
    }
  }

  /** Walking never removes an issued edit, never changes the function
      being rewritten or its suffix, and never forgets a wrapped line. */
  lemma {:induction false} WalkMonotone(s: State, ns: seq<Node>, functions: set<string>, buffer: Option<string>)
    ensures Grows(s, Walk(s, ns, functions, buffer))
    decreases |ns|
  {
    if ns != [] {
      var s' := Step(s, ns[0], functions, buffer);
      StepGrows(s, ns[0], functions, buffer);
      WalkMonotone(s', ns[1..], functions, buffer);
      GrowsTrans(s, s', Walk(s, ns, functions, buffer));
    }
  }

  lemma ParamRefIssued(s: State, decl: RefDecl, loc: SrcLoc, buffer: Option<string>)
    requires s.current.Some? && decl.VarRef? && decl.isParm
    ensures ReplaceText(loc.offset, |decl.name|, ParamRefText(s.current.value.name, s.currentSuffix, decl.name))
              in DeclRefStep(s, decl, loc, buffer).edits
  {
    var e := ReplaceText(loc.offset, |decl.name|, ParamRefText(s.current.value.name, s.currentSuffix, decl.name));
    var s1 := s.(edits := s.edits + [e]);
    assert e == s1.edits[|s.edits|];
    DeclRefGrows(s, decl, loc, buffer);
    InGrown(e, s1, DeclRefStep(s, decl, loc, buffer));
  }

  /** Every reference to a parameter `p` met while `F` is being rewritten
      issues the replacement of `p` by `F + suffix + "_params[param_index]." + p`. */
  lemma {:induction false} ParamRefsReplaced(s: State, ns: seq<Node>, functions: set<string>, buffer: Option<string>, k: nat)
    requires s.current.Some? && k < |ns| && ns[k].DeclRefExpr? && ns[k].decl.VarRef? && ns[k].decl.isParm
    ensures ReplaceText(ns[k].loc.offset, |ns[k].decl.name|,
              ParamRefText(s.current.value.name, s.currentSuffix, ns[k].decl.name)) in Walk(s, ns, functions, buffer).edits
    decreases |ns|
  {
    var s' := Step(s, ns[0], functions, buffer);
    StepGrows(s, ns[0], functions, buffer);
    assert Walk(s, ns, functions, buffer) == Walk(s', ns[1..], functions, buffer);
    if k == 0 {
      var e := ReplaceText(ns[0].loc.offset, |ns[0].decl.name|, ParamRefText(s.current.value.name, s.currentSuffix, ns[0].decl.name));
      assert s' == DeclRefStep(s, ns[0].decl, ns[0].loc, buffer);
      ParamRefIssued(s, ns[0].decl, ns[0].loc, buffer);
      WalkMonotone(s', ns[1..], functions, buffer);
      InGrown(e, s', Walk(s', ns[1..], functions, buffer));
    } else {
      ParamRefsReplaced(s', ns[1..], functions, buffer, k - 1);
    }
  }

  /** An `InsertText` of the lock opening. */
  predicate IsLockOpen(e: Edit)
  {
    e.InsertText? && e.text == LockStart && e.insertAfter && e.indentNewLines
  }

  /** The number of lock openings among the edits. */
  function LockCount(es: seq<Edit>): nat
  {
    if es == [] then 0
    else LockCount(es[..|es| - 1]) + (if IsLockOpen(es[|es| - 1]) then 1 else 0)
  }

  lemma {:induction false} LockCountAppend(a: seq<Edit>, b: seq<Edit>)
    ensures LockCount(a + b) == LockCount(a) + LockCount(b)
    decreases |b|
  {
    if b != [] {
      assert (a + b)[..|a + b| - 1] == a + b[..|b| - 1];
      LockCountAppend(a, b[..|b| - 1]);
    } else {
      assert a + b == a;
    }
  }

  /** Edits none of which opens a lock. */
  lemma {:induction false} NoLocks(es: seq<Edit>)
    requires forall i :: 0 <= i < |es| ==> !IsLockOpen(es[i])
    ensures LockCount(es) == 0
  {
    if es != [] {
      NoLocks(es[..|es| - 1]);
    }
  }

  /** A variable the second branch of `VisitDeclRefExpr` wraps: one outside
      the system headers, at file scope or with global storage. */
  predicate IsGlobalVar(decl: RefDecl)
  {
    decl.VarRef? && !decl.inSystemHeader && (decl.atFileScope || decl.hasGlobalStorage)
  }

  /** The line of `n` when it refers to a global variable. */
  function GlobalLineOf(n: Node): set<nat>
  {
    if n.DeclRefExpr? && IsGlobalVar(n.decl) then {n.loc.line} else {}
  }

  /** The lines of the references to global variables among `ns`. */
  function GlobalRefLines(ns: seq<Node>): set<nat>
  {
    if ns == [] then {} else GlobalLineOf(ns[0]) + GlobalRefLines(ns[1..])
  }

  /** The two Rewriter calls that wrap the line of `loc` in a lock. */
  function LockPair(b: string, loc: SrcLoc): seq<Edit>
  {
    [InsertText(LineStart(loc), LockStart, true, true), InsertTextAfterToken(LineEnd(b, loc.offset), LockEnd)]
  }

  /** A global reference on a line not yet wrapped records the line and,
      after the parameter rewrite if any, wraps the line: the lock opening
      at the line's start and the closing after its last token. */
  lemma DeclRefWrapsFreshLine(s: State, decl: RefDecl, loc: SrcLoc, b: string)
    requires s.current.Some? && IsGlobalVar(decl) && loc.line !in s.processedGlobalLines
    ensures var t := DeclRefStep(s, decl, loc, Some(b));
            var n := |s.edits| + (if decl.isParm then 1 else 0);
            && |t.edits| == n + 2 && t.edits[..|s.edits|] == s.edits
            && t.edits[n..] == LockPair(b, loc)
            && t.processedGlobalLines == s.processedGlobalLines + {loc.line}
  {
    var t := DeclRefStep(s, decl, loc, Some(b));
    var n := |s.edits| + (if decl.isParm then 1 else 0);
    assert t.edits[..n][..|s.edits|] == t.edits[..|s.edits|];
  }

  /** A reference outside a function, to a local, a parameter, a function or
      a system-header variable, or on a line already wrapped, opens no lock
      and records no line. */
  lemma DeclRefAddsNoLock(s: State, decl: RefDecl, loc: SrcLoc, buffer: Option<string>)
    requires s.current.None? || !IsGlobalVar(decl) || loc.line in s.processedGlobalLines
    ensures var t := DeclRefStep(s, decl, loc, buffer);
            && t.processedGlobalLines == s.processedGlobalLines
            && |s.edits| <= |t.edits| <= |s.edits| + 1 && t.edits[..|s.edits|] == s.edits
            && LockCount(t.edits) == LockCount(s.edits)
  {
    if s.current.Some? && decl.VarRef? && decl.isParm {
      var r := [ReplaceText(loc.offset, |decl.name|, ParamRefText(s.current.value.name, s.currentSuffix, decl.name))];
      LockCountAppend(s.edits, r);
      NoLocks(r);
      assert (s.edits + r)[..|s.edits|] == s.edits;
    }
  }

  /** One reference records its line exactly when it is a global one inside
      a function, and opens one lock per newly recorded line when the buffer
      is readable and none otherwise. */
  lemma DeclRefLocks(s: State, decl: RefDecl, loc: SrcLoc, buffer: Option<string>)
    ensures var t := DeclRefStep(s, decl, loc, buffer);
            && t.processedGlobalLines == s.processedGlobalLines + (if s.current.Some? && IsGlobalVar(decl) then {loc.line} else {})
            && LockCount(t.edits) == LockCount(s.edits) + (if buffer.Some? then |t.processedGlobalLines| - |s.processedGlobalLines| else 0)
  {
    if s.current.None? || !IsGlobalVar(decl) || loc.line in s.processedGlobalLines {
      DeclRefAddsNoLock(s, decl, loc, buffer);
    } else {
      var r := if decl.isParm then [ReplaceText(loc.offset, |decl.name|, ParamRefText(s.current.value.name, s.currentSuffix, decl.name))] else [];
      LockCountAppend(s.edits, r);
      NoLocks(r);
      var s1 := s.(edits := s.edits + r);
      if buffer.Some? {
        var added := LockPair(buffer.value, loc);
        assert DeclRefStep(s, decl, loc, buffer).edits == s1.edits + added;
        LockCountAppend(s1.edits, added);
        assert added[..1] == [added[0]] && [added[0]][..0] == [];
        assert LockCount([added[0]]) == 1;
        assert LockCount(added) == 1;
      } else {
        assert DeclRefStep(s, decl, loc, buffer).edits == s1.edits;
      }
    }
  }

  lemma StepLocks(s: State, n: Node, functions: set<string>, buffer: Option<string>)
    requires s.current.Some?
    ensures var t := Step(s, n, functions, buffer);
            && t.processedGlobalLines == s.processedGlobalLines + GlobalLineOf(n)
            && LockCount(t.edits) == LockCount(s.edits) + (if buffer.Some? then |t.processedGlobalLines| - |s.processedGlobalLines| else 0)
  {
    match n
    case DeclRefExpr(decl, loc) =>
      DeclRefLocks(s, decl, loc, buffer);
    case CallExpr(callee, range, argTexts, _) =>
      assert Step(s, n, functions, buffer) == CallStep(s, callee, range, argTexts, functions);
      CallStepAddsNoLock(s, callee, range, argTexts, functions);
      assert s.processedGlobalLines + {} == s.processedGlobalLines;
    case _ =>
      assert s.processedGlobalLines + {} == s.processedGlobalLines;
  }

  lemma CallStepAddsNoLock(s: State, callee: Option<Callee>, range: CallRange, argTexts: seq<string>, functions: set<string>)
    ensures LockCount(CallStep(s, callee, range, argTexts, functions).edits) == LockCount(s.edits)
    ensures CallStep(s, callee, range, argTexts, functions).processedGlobalLines == s.processedGlobalLines
  {
    if callee.Some? && callee.value.name in functions {
      var c := callee.value;
      TwoNonInsertsAddNoLock(s.edits, InsertTextBefore(LineStart(range.begin), CallPrelude(c, argTexts)),
                             CallSiteEdit(c, range, c.name + CallSuffix(c.params)));
    }
  }

  lemma TwoNonInsertsAddNoLock(es: seq<Edit>, a: Edit, b: Edit)
    requires !a.InsertText? && !b.InsertText?
    ensures LockCount(es + [a, b]) == LockCount(es)
  {
    LockCountAppend(es, [a, b]);
    NoLocks([a, b]);
  }

  /** Over a traversal inside a function, the lines recorded are those
      recorded before plus the lines of the global references met, and the
      locks opened are exactly one per newly recorded line when the buffer
      is readable (none when it is not), so no line is wrapped twice. */
  lemma {:induction false} WalkLocks(s: State, ns: seq<Node>, functions: set<string>, buffer: Option<string>)
    requires s.current.Some?
    ensures var t := Walk(s, ns, functions, buffer);
            && t.processedGlobalLines == s.processedGlobalLines + GlobalRefLines(ns)
            && LockCount(t.edits) == LockCount(s.edits) + (if buffer.Some? then |t.processedGlobalLines| - |s.processedGlobalLines| else 0)
    decreases |ns|
  {
    if ns == [] {
      assert s.processedGlobalLines + {} == s.processedGlobalLines;
    } else {
      var s' := Step(s, ns[0], functions, buffer);
      StepLocks(s, ns[0], functions, buffer);
      StepGrows(s, ns[0], functions, buffer);
      WalkLocks(s', ns[1..], functions, buffer);
      assert Walk(s, ns, functions, buffer) == Walk(s', ns[1..], functions, buffer);
      assert GlobalRefLines(ns) == GlobalLineOf(ns[0]) + GlobalRefLines(ns[1..]);
      assert s.processedGlobalLines + GlobalLineOf(ns[0]) + GlobalRefLines(ns[1..])
          == s.processedGlobalLines + GlobalRefLines(ns);
    }
  }

  /** Inside a function, the first global reference on a line neither
      recorded before nor met earlier in the traversal gets its line
      wrapped: both lock edits are issued. */
  lemma {:induction false} WalkWrapsLine(s: State, ns: seq<Node>, functions: set<string>, b: string, k: nat)
    requires s.current.Some? && k < |ns| && ns[k].DeclRefExpr? && IsGlobalVar(ns[k].decl)
    requires ns[k].loc.line !in s.processedGlobalLines + GlobalRefLines(ns[..k])
    ensures InsertText(LineStart(ns[k].loc), LockStart, true, true) in Walk(s, ns, functions, Some(b)).edits
    ensures InsertTextAfterToken(LineEnd(b, ns[k].loc.offset), LockEnd) in Walk(s, ns, functions, Some(b)).edits
    decreases |ns|
  {
    var s' := Step(s, ns[0], functions, Some(b));
    StepGrows(s, ns[0], functions, Some(b));
    assert Walk(s, ns, functions, Some(b)) == Walk(s', ns[1..], functions, Some(b));
    WalkMonotone(s', ns[1..], functions, Some(b));
    if k == 0 {
      assert s' == DeclRefStep(s, ns[0].decl, ns[0].loc, Some(b));
      DeclRefWrapsFreshLine(s, ns[0].decl, ns[0].loc, b);
      var n := |s.edits| + (if ns[0].decl.isParm then 1 else 0);
      assert s'.edits[n] == InsertText(LineStart(ns[k].loc), LockStart, true, true);
      assert s'.edits[n + 1] == InsertTextAfterToken(LineEnd(b, ns[k].loc.offset), LockEnd);
      InGrown(InsertText(LineStart(ns[k].loc), LockStart, true, true), s', Walk(s', ns[1..], functions, Some(b)));
      InGrown(InsertTextAfterToken(LineEnd(b, ns[k].loc.offset), LockEnd), s', Walk(s', ns[1..], functions, Some(b)));
    } else {
      StepLocks(s, ns[0], functions, Some(b));
      assert ns[..k][1..] == ns[1..][..k - 1];
      assert GlobalRefLines(ns[..k]) == GlobalLineOf(ns[0]) + GlobalRefLines(ns[1..][..k - 1]);
      WalkWrapsLine(s', ns[1..], functions, b, k - 1);
    }
  }

  /** The names recorded for the epilogue: the suffixed name of every
      non-void collected callee, in visit order, duplicates kept. */
  function NonVoidCallNames(ns: seq<Node>, functions: set<string>): seq<string>
  {
    if ns == [] then [] else RecordedCallee(ns[0], functions) + NonVoidCallNames(ns[1..], functions)
  }

  lemma {:induction false} WalkRecordsCallees(s: State, ns: seq<Node>, functions: set<string>, buffer: Option<string>)
    ensures Walk(s, ns, functions, buffer).nonVoidCallees == s.nonVoidCallees + NonVoidCallNames(ns, functions)
    decreases |ns|
  {
    if ns != [] {
      var t := Step(s, ns[0], functions, buffer);
      StepGrows(s, ns[0], functions, buffer);
      WalkRecordsCallees(t, ns[1..], functions, buffer);
      assert Walk(s, ns, functions, buffer) == Walk(t, ns[1..], functions, buffer);
      assert NonVoidCallNames(ns, functions) == RecordedCallee(ns[0], functions) + NonVoidCallNames(ns[1..], functions);
      SeqAssoc(s.nonVoidCallees, RecordedCallee(ns[0], functions), NonVoidCallNames(ns[1..], functions));
    } else {
      assert s.nonVoidCallees + [] == s.nonVoidCallees;
    }
  }

  /** The epilogue of a collected function with a body releases exactly the
      records of the non-void collected calls in its own body, whatever
      callees an earlier function left behind, and it is the last edit. */
  lemma RunEpilogue(s: State, f: FunctionDecl, functions: set<string>, buffer: Option<string>)
    requires f.name in functions && f.body.Some?
    ensures var t := RunSpec(s, f, functions, buffer);
            var isMain := f.name == "main";
            var suffix := if isMain then "" else DefSuffix(f.params);
            && |t.edits| > |s.edits|
            && t.edits[|t.edits| - 1] ==
               InsertTextBefore(f.body.value.rbrace, EpilogueText(NonVoidCallNames(TraversedNodes(f), functions), f, suffix, isMain))
            && t.current.None?
  {
    var isMain := f.name == "main";
    var suffix := if isMain then "" else DefSuffix(f.params);
    if isMain {
      assert RunSpec(s, f, functions, buffer) == Finish(s.(current := Some(f)), f, suffix, isMain, functions, buffer);
      FinishEpilogue(s.(current := Some(f)), f, suffix, isMain, functions, buffer);
    } else {
      var s1 := s.(current := Some(f), edits := s.edits + SignatureEdits(f, suffix), currentSuffix := suffix);
      var s2 := if !f.ret.isVoid then s1.(edits := s1.edits + ReturnEdits(TopLevelReturns(f.body.value.stmts), ReturnText(f.name, suffix))) else s1;
      assert RunSpec(s, f, functions, buffer) == Finish(s2, f, suffix, isMain, functions, buffer);
      FinishEpilogue(s2, f, suffix, isMain, functions, buffer);
    }
  }

  /** `Finish` ends with the epilogue of the callees recorded by the
      traversal alone, and leaves no function current. */
  lemma FinishEpilogue(p: State, f: FunctionDecl, suffix: string, isMain: bool, functions: set<string>, buffer: Option<string>)
    requires f.body.Some?
    ensures var t := Finish(p, f, suffix, isMain, functions, buffer);
            && |t.edits| > |p.edits|
            && t.edits[|t.edits| - 1] ==
               InsertTextBefore(f.body.value.rbrace, EpilogueText(NonVoidCallNames(TraversedNodes(f), functions), f, suffix, isMain))
            && t.current.None?
  {
    WalkRecordsCallees(p.(nonVoidCallees := []), TraversedNodes(f), functions, buffer);
    WalkMonotone(p.(nonVoidCallees := []), TraversedNodes(f), functions, buffer);
    assert [] + NonVoidCallNames(TraversedNodes(f), functions) == NonVoidCallNames(TraversedNodes(f), functions);
  }

  /** For a collected function other than `main`: the first Rewriter calls
      make the return type `void`, rename it with its suffix and replace the
      parameter list; every later visit uses that suffix. */
  lemma RunSignature(s: State, f: FunctionDecl, functions: set<string>, buffer: Option<string>)
    requires f.name in functions && f.name != "main"
    ensures var t := RunSpec(s, f, functions, buffer);
            var sig := SignatureEdits(f, DefSuffix(f.params));
            && |t.edits| >= |s.edits| + |sig|
            && t.edits[..|s.edits| + |sig|] == s.edits + sig
            && t.currentSuffix == DefSuffix(f.params)
            && t.current.None?
  {
    var suffix := DefSuffix(f.params);
    var sig := SignatureEdits(f, suffix);
    var s1 := s.(current := Some(f), edits := s.edits + sig, currentSuffix := suffix);
    if f.body.Some? {
      var s2 :=
        if !f.ret.isVoid then s1.(edits := s1.edits + ReturnEdits(TopLevelReturns(f.body.value.stmts), ReturnText(f.name, suffix)))
        else s1;
      assert s2.edits[..|s1.edits|] == s1.edits;
      WalkMonotone(s2.(nonVoidCallees := []), TraversedNodes(f), functions, buffer);
      var s3 := Walk(s2.(nonVoidCallees := []), TraversedNodes(f), functions, buffer);
      var t := RunSpec(s, f, functions, buffer);
      assert t.edits[..|s3.edits|] == s3.edits;
      assert t.edits[..|s1.edits|] == s3.edits[..|s1.edits|] == s2.edits[..|s1.edits|];
    }
  }

  /** For a non-void collected function other than `main`, the edits of its
      run start with those issued before it, then its signature rewrites,
      then one rewrite of each top-level `return`, in order, to an
      assignment of the return field (`ReturnEdits`); a nested `return` is
      not among them, and no later edit of the run rewrites to that
      assignment. */
  lemma RunReturns(s: State, f: FunctionDecl, functions: set<string>, buffer: Option<string>)
    requires f.name in functions && f.name != "main" && f.body.Some? && !f.ret.isVoid
    ensures var t := RunSpec(s, f, functions, buffer);
            var suffix := DefSuffix(f.params);
            var a := s.edits + SignatureEdits(f, suffix);
            var rets := ReturnEdits(TopLevelReturns(f.body.value.stmts), ReturnText(f.name, suffix));
            && |a| + |rets| <= |t.edits| && t.edits[..|a| + |rets|] == a + rets
            && NoReturnRewriteFrom(t.edits, |a| + |rets|, ReturnText(f.name, suffix))
  {
    var suffix := DefSuffix(f.params);
    var s1 := s.(current := Some(f), edits := s.edits + SignatureEdits(f, suffix), currentSuffix := suffix);
    var rets := ReturnEdits(TopLevelReturns(f.body.value.stmts), ReturnText(f.name, suffix));
    var s2 := s1.(edits := s1.edits + rets);
    assert RunSpec(s, f, functions, buffer) == Finish(s2, f, suffix, false, functions, buffer);
    FinishGrows(s2, f, suffix, false, functions, buffer);
    FinishAddsNoReturnRewrite(s2, f, suffix, false, functions, buffer, f.name, suffix);
  }

  /** `Finish` only appends edits. */
  lemma FinishGrows(s: State, f: FunctionDecl, suffix: string, isMain: bool, functions: set<string>, buffer: Option<string>)
    ensures var t := Finish(s, f, suffix, isMain, functions, buffer);
            |s.edits| <= |t.edits| && t.edits[..|s.edits|] == s.edits
  {
    var s3 := Walk(s.(nonVoidCallees := []), TraversedNodes(f), functions, buffer);
    WalkMonotone(s.(nonVoidCallees := []), TraversedNodes(f), functions, buffer);
    var t := Finish(s, f, suffix, isMain, functions, buffer);
    assert t.edits[..|s3.edits|] == s3.edits;
    assert t.edits[..|s3.edits|][..|s.edits|] == t.edits[..|s.edits|];
  }

  /** `main` keeps its signature and its returns: its edits are those of its
      traversal and the epilogue only, it gets no done flag, and the suffix
      of the previous function stays in use for its parameter references. */
  lemma RunMain(s: State, f: FunctionDecl, functions: set<string>, buffer: Option<string>)
    requires f.name in functions && f.name == "main"
    ensures var t := RunSpec(s, f, functions, buffer);
            var w := Walk(s.(current := Some(f), nonVoidCallees := []), TraversedNodes(f), functions, buffer);
            && t.currentSuffix == s.currentSuffix
            && |s.edits| <= |w.edits| && w.edits[..|s.edits|] == s.edits
            && t.edits == w.edits + (if f.body.Some? then [InsertTextBefore(f.body.value.rbrace, PoolReleases(w.nonVoidCallees))] else [])
  {
    var s0 := s.(current := Some(f));
    assert s0.(nonVoidCallees := []) == s.(current := Some(f), nonVoidCallees := []);
    WalkMonotone(s0.(nonVoidCallees := []), TraversedNodes(f), functions, buffer);
    var w := Walk(s0.(nonVoidCallees := []), TraversedNodes(f), functions, buffer);
    assert EpilogueText(w.nonVoidCallees, f, "", true) == PoolReleases(w.nonVoidCallees) + "";
    assert PoolReleases(w.nonVoidCallees) + "" == PoolReleases(w.nonVoidCallees);
    assert RunSpec(s, f, functions, buffer) == Finish(s0, f, "", true, functions, buffer);
  }

  /** The nodes a run of a collected function visits: none for a function
      other than `main` without a body, since `run` returns before
      traversing it, otherwise those `TraverseDecl` visits. */
  function VisitedNodes(f: FunctionDecl): seq<Node>
  {
    if f.name != "main" && f.body.None? then [] else TraversedNodes(f)
  }

  /** The state after phases (1) and (2) of `run`: the function is current,
      and a function other than `main` has its suffix and its signature and
      return rewrites issued. */
  function Prepared(s: State, f: FunctionDecl): State
  {
    if f.name == "main" then s.(current := Some(f))
    else
      var suffix := DefSuffix(f.params);
      var s1 := s.(current := Some(f), edits := s.edits + SignatureEdits(f, suffix), currentSuffix := suffix);
      if !f.ret.isVoid && f.body.Some? then
        s1.(edits := s1.edits + ReturnEdits(TopLevelReturns(f.body.value.stmts), ReturnText(f.name, suffix)))
      else s1
  }

  /** A run that reaches phase (3) is `Finish` of the prepared state, which
      has the function current, keeps the lines recorded and opens no lock. */
  lemma RunIsFinish(s: State, f: FunctionDecl, functions: set<string>, buffer: Option<string>)
    requires f.name in functions && (f.name == "main" || f.body.Some?)
    ensures RunSpec(s, f, functions, buffer)
         == Finish(Prepared(s, f), f, if f.name == "main" then "" else DefSuffix(f.params), f.name == "main", functions, buffer)
    ensures Prepared(s, f).current == Some(f)
    ensures Prepared(s, f).currentSuffix == if f.name == "main" then s.currentSuffix else DefSuffix(f.params)
    ensures Prepared(s, f).processedGlobalLines == s.processedGlobalLines
    ensures LockCount(Prepared(s, f).edits) == LockCount(s.edits)
  {
    if f.name != "main" {
      var suffix := DefSuffix(f.params);
      LockCountAppend(s.edits, SignatureEdits(f, suffix));
      NoLocks(SignatureEdits(f, suffix));
      if !f.ret.isVoid {
        var rets := ReturnEdits(TopLevelReturns(f.body.value.stmts), ReturnText(f.name, suffix));
        LockCountAppend(s.edits + SignatureEdits(f, suffix), rets);
        NoLocks(rets);
      }
    }
  }

  /** Phases (3) and (4) rewrite no `return`. */
  lemma FinishAddsNoReturnRewrite(p: State, f: FunctionDecl, suffix: string, isMain: bool, functions: set<string>, buffer: Option<string>,
                                  fname: string, fsuffix: string)
    ensures var t := Finish(p, f, suffix, isMain, functions, buffer);
            |p.edits| <= |t.edits| && NoReturnRewriteFrom(t.edits, |p.edits|, ReturnText(fname, fsuffix))
  {
    FinishKeepsWalk(p, f, suffix, isMain, functions, buffer);
    WalkAddsNoReturnRewrite(p.(nonVoidCallees := []), TraversedNodes(f), functions, buffer, fname, fsuffix);
    var w := Walk(p.(nonVoidCallees := []), TraversedNodes(f), functions, buffer);
    var t := Finish(p, f, suffix, isMain, functions, buffer);
    forall i | |p.edits| <= i < |t.edits| ensures !IsReturnRewrite(t.edits[i], ReturnText(fname, fsuffix)) {
      if i < |w.edits| {
        assert t.edits[i] == t.edits[..|w.edits|][i];
      }
    }
  }

  /** `Finish` keeps the traversal's edits as a prefix, its recorded lines
      and its lock count: the epilogue is no lock. */
  lemma FinishKeepsWalk(p: State, f: FunctionDecl, suffix: string, isMain: bool, functions: set<string>, buffer: Option<string>)
    ensures var w := Walk(p.(nonVoidCallees := []), TraversedNodes(f), functions, buffer);
            var t := Finish(p, f, suffix, isMain, functions, buffer);
            && |w.edits| <= |t.edits| && t.edits[..|w.edits|] == w.edits
            && t.processedGlobalLines == w.processedGlobalLines
            && LockCount(t.edits) == LockCount(w.edits)
  {
    var w := Walk(p.(nonVoidCallees := []), TraversedNodes(f), functions, buffer);
    if f.body.Some? {
      var ep := [InsertTextBefore(f.body.value.rbrace, EpilogueText(w.nonVoidCallees, f, suffix, isMain))];
      LockCountAppend(w.edits, ep);
      NoLocks(ep);
      assert (w.edits + ep)[..|w.edits|] == w.edits;
    }
  }

  /** Over a whole run of a collected function, the lines recorded grow by
      the lines of the global references it visits (signature, then body), and one lock is opened
      per newly recorded line when the buffer is readable (none when it is
      not): every line is wrapped at most once, and only a line with a global
      reference is. */
  lemma RunLocks(s: State, f: FunctionDecl, functions: set<string>, buffer: Option<string>)
    requires f.name in functions
    ensures var t := RunSpec(s, f, functions, buffer);
            && t.processedGlobalLines == s.processedGlobalLines + GlobalRefLines(VisitedNodes(f))
            && LockCount(t.edits) == LockCount(s.edits) + (if buffer.Some? then |t.processedGlobalLines| - |s.processedGlobalLines| else 0)
  {
    if f.name != "main" && f.body.None? {
      LockCountAppend(s.edits, SignatureEdits(f, DefSuffix(f.params)));
      NoLocks(SignatureEdits(f, DefSuffix(f.params)));
      assert VisitedNodes(f) == [];
      assert s.processedGlobalLines + {} == s.processedGlobalLines;
    } else {
      var isMain := f.name == "main";
      var suffix := if isMain then "" else DefSuffix(f.params);
      RunIsFinish(s, f, functions, buffer);
      var p := Prepared(s, f);
      FinishKeepsWalk(p, f, suffix, isMain, functions, buffer);
      WalkLocks(p.(nonVoidCallees := []), TraversedNodes(f), functions, buffer);
    }
  }

  /** With a readable buffer, the first global reference of a collected
      function's visited nodes on a line neither recorded before nor met
      earlier in the traversal gets its line wrapped by the run. */
  lemma RunWrapsLine(s: State, f: FunctionDecl, functions: set<string>, b: string, k: nat)
    requires f.name in functions && k < |VisitedNodes(f)|
    requires VisitedNodes(f)[k].DeclRefExpr? && IsGlobalVar(VisitedNodes(f)[k].decl)
    requires VisitedNodes(f)[k].loc.line !in s.processedGlobalLines + GlobalRefLines(VisitedNodes(f)[..k])
    ensures InsertText(LineStart(VisitedNodes(f)[k].loc), LockStart, true, true) in RunSpec(s, f, functions, Some(b)).edits
    ensures InsertTextAfterToken(LineEnd(b, VisitedNodes(f)[k].loc.offset), LockEnd) in RunSpec(s, f, functions, Some(b)).edits
  {
    var ns := TraversedNodes(f);
    assert VisitedNodes(f) == ns;
    var isMain := f.name == "main";
    var suffix := if isMain then "" else DefSuffix(f.params);
    RunIsFinish(s, f, functions, Some(b));
    var p := Prepared(s, f);
    FinishKeepsWalk(p, f, suffix, isMain, functions, Some(b));
    WalkWrapsLine(p.(nonVoidCallees := []), ns, functions, b, k);
    var w := Walk(p.(nonVoidCallees := []), ns, functions, Some(b));
    var t := RunSpec(s, f, functions, Some(b));
    InPrefix(InsertText(LineStart(ns[k].loc), LockStart, true, true), w.edits, t.edits);
    InPrefix(InsertTextAfterToken(LineEnd(b, ns[k].loc.offset), LockEnd), w.edits, t.edits);
  }

  /** Every visited reference to a parameter `p` of a collected function
      `F` becomes `F + suffix + "_params[param_index]." + p`, where the suffix
      is `F`'s own for a function other than `main` and, for `main`, the one
      the previous run left behind. */
  lemma RunParamRefs(s: State, f: FunctionDecl, functions: set<string>, buffer: Option<string>, k: nat)
    requires f.name in functions && k < |VisitedNodes(f)|
    requires VisitedNodes(f)[k].DeclRefExpr? && VisitedNodes(f)[k].decl.VarRef? && VisitedNodes(f)[k].decl.isParm
    ensures var n := VisitedNodes(f)[k];
            var suffix := if f.name == "main" then s.currentSuffix else DefSuffix(f.params);
            ReplaceText(n.loc.offset, |n.decl.name|, ParamRefText(f.name, suffix, n.decl.name)) in RunSpec(s, f, functions, buffer).edits
  {
    var ns := TraversedNodes(f);
    assert VisitedNodes(f) == ns;
    var isMain := f.name == "main";
    RunIsFinish(s, f, functions, buffer);
    var p := Prepared(s, f);
    FinishKeepsWalk(p, f, if isMain then "" else DefSuffix(f.params), isMain, functions, buffer);
    ParamRefsReplaced(p.(nonVoidCallees := []), ns, functions, buffer, k);
    var w := Walk(p.(nonVoidCallees := []), ns, functions, buffer);
    var suffix := if isMain then s.currentSuffix else DefSuffix(f.params);
    InPrefix(ReplaceText(ns[k].loc.offset, |ns[k].decl.name|, ParamRefText(f.name, suffix, ns[k].decl.name)),
             w.edits, RunSpec(s, f, functions, buffer).edits);
  }

  // ---------------------------------------------------------------------
  // The rewriter object

  class FunctionRewriter {
    /** The collected function names (`FunctionCollector`'s set). */
    const functions: set<string>
    /** The main file's buffer, `None` when `getBufferData` reports it invalid. */
    const buffer: Option<string>

    var edits: seq<Edit>
    var currentFunction: Option<FunctionDecl>
    var currentSuffix: string
    var nonVoidCallees: seq<string>
    var processedGlobalLines: set<nat>

    function Snapshot(): State
      reads this
    {
      State(edits, currentFunction, currentSuffix, nonVoidCallees, processedGlobalLines)
    }

    constructor(functions: set<string>, buffer: Option<string>)
      ensures this.functions == functions && this.buffer == buffer
      ensures Snapshot() == State([], None, "", [], {})
    {
      this.functions := functions;
      this.buffer := buffer;
      edits := [];
      currentFunction := None;
      currentSuffix := "";
      nonVoidCallees := [];
      processedGlobalLines := {};
    }

    method VisitDeclRefExpr(decl: RefDecl, loc: SrcLoc)
      modifies this
      ensures Snapshot() == DeclRefStep(old(Snapshot()), decl, loc, buffer)
    {
      if currentFunction.None? {
        return;
      }
      if decl.VarRef? && decl.isParm {
        var functionName := currentFunction.value.name;
        var paramName := decl.name;
        var replacement := functionName + currentSuffix + "_params[param_index]." + paramName;
        edits := edits + [ReplaceText(loc.offset, |paramName|, replacement)];
      }
      if decl.VarRef? {
        if decl.inSystemHeader {
          return;
        }
        if decl.atFileScope || decl.hasGlobalStorage {
          var line := loc.line;
          if line !in processedGlobalLines {
            processedGlobalLines := processedGlobalLines + {line};
            var lineStart := loc.offset - loc.column + 1;
            if buffer.Some? {
              var lineEndOffset := FindLineEnd(buffer.value, loc.offset);
              edits := edits + [InsertText(lineStart, LockStart, true, true)];
              edits := edits + [InsertTextAfterToken(lineEndOffset, LockEnd)];
            }
          }
        }
      }
    }

    method VisitCallExpr(callee: Option<Callee>, range: CallRange, argTexts: seq<string>)
      modifies this
      ensures Snapshot() == CallStep(old(Snapshot()), callee, range, argTexts, functions)
    {
      if callee.None? {
        return;
      }
      var c := callee.value;
      if c.name !in functions {
        return;
      }
      var functionName := CallName(c);
      var pushThreadStmt := PushStatement(c, functionName, argTexts);
      if !c.ret.isVoid {
        nonVoidCallees := nonVoidCallees + [functionName];
      }
      var lineStart := LineStart(range.begin);
      var callSite := CallSite(c, range, functionName);
      edits := edits + [InsertTextBefore(lineStart, pushThreadStmt), callSite];
    }

    /** The visitor walk of one node and its subtree. */
    method TraverseNode(n: Node)
      modifies this
      ensures Snapshot() == Walk(old(Snapshot()), Preorder(n), functions, buffer)
      decreases n, 1
    {
      ghost var s0 := Snapshot();
      match n {
        case DeclRefExpr(decl, loc) => VisitDeclRefExpr(decl, loc);
        case CallExpr(callee, range, argTexts, _) => VisitCallExpr(callee, range, argTexts);
        case _ =>
      }
      assert Snapshot() == Walk(s0, [n], functions, buffer) by {
        assert [n][1..] == [];
      }
      if n.DeclRefExpr? {
        return;
      }
      TraverseAll(n.children);
      WalkAppend(s0, [n], PreorderAll(n.children), functions, buffer);
    }

    /** The walk of a sequence of sibling nodes, in order: a function body's
        statements or a node's children. */
    method TraverseAll(stmts: seq<Node>)
      modifies this
      ensures Snapshot() == Walk(old(Snapshot()), PreorderAll(stmts), functions, buffer)
      decreases stmts, 0
    {
      ghost var s0 := Snapshot();
      var i := 0;
      while i < |stmts|
        invariant 0 <= i <= |stmts|
        invariant Snapshot() == Walk(s0, PreorderAll(stmts[..i]), functions, buffer)
      {
        TraverseNode(stmts[i]);
        PreorderAllSnoc(stmts, i);
        WalkAppend(s0, PreorderAll(stmts[..i]), Preorder(stmts[i]), functions, buffer);
        i := i + 1;
      }
      assert stmts[..i] == stmts;
    }

    /** The traversal and the epilogue, common to every collected function
        that reaches them. */
    method FinishRun(f: FunctionDecl, suffix: string, isMain: bool)
      modifies this
      ensures Snapshot() == Finish(old(Snapshot()), f, suffix, isMain, functions, buffer)
    {
      nonVoidCallees := [];
      TraverseAll(TraversedRoots(f));
      if f.body.Some? {
        var extraCode := BuildEpilogue(nonVoidCallees, f, suffix, isMain);
        edits := edits + [InsertTextBefore(f.body.value.rbrace, extraCode)];
      }
      currentFunction := None;
    }

    /** `run` for one matched declaration. */
    method Run(f: FunctionDecl)
      modifies this
      ensures Snapshot() == RunSpec(old(Snapshot()), f, functions, buffer)
    {
      if f.name !in functions {
        return;
      }
      var isMain := f.name == "main";
      currentFunction := Some(f);
      if isMain {
        FinishRun(f, "", true);
        return;
      }
      ghost var s0 := old(Snapshot());
      edits := edits + [ReplaceText(f.retTypeBegin, |f.ret.spelling|, "void")];
      var originalName := f.name;
      var suffix := ComputeSuffix(f.params);
      currentSuffix := suffix;
      var newName := originalName + suffix;
      edits := edits + [ReplaceText(f.nameBegin, |originalName|, newName)];
      if f.parens.Some? && f.parens.value.0 < f.parens.value.1 {
        edits := edits + [ReplaceRange(f.parens.value.0, f.parens.value.1, NewParamList)];
      }
      assert Snapshot() == s0.(current := Some(f), edits := s0.edits + SignatureEdits(f, suffix), currentSuffix := suffix);
      if f.body.None? {
        currentFunction := None;
        return;
      }
      if !f.ret.isVoid {
        var issued := ReturnRewrites(f.body.value.stmts, f.name + suffix + "_params[param_index].return_var = ");
        edits := edits + issued;
      }
      FinishRun(f, suffix, false);
    }
  }

  /** The `return` rewrites of a non-void function, one per top-level
      `return` statement. */
  method ReturnRewrites(stmts: seq<Node>, replacement: string) returns (issued: seq<Edit>)
    ensures issued == ReturnEdits(TopLevelReturns(stmts), replacement)
  {
    issued := [];
    var j := 0;
    while j < |stmts|
      invariant 0 <= j <= |stmts|
      invariant issued == ReturnEdits(TopLevelReturns(stmts[..j]), replacement)
    {
      TopLevelReturnsSnoc(stmts, j);
      if stmts[j].ReturnStmt? {
        var retStart := stmts[j].begin;
        ReturnEditsSnoc(TopLevelReturns(stmts[..j]), retStart, replacement);
        issued := issued + [ReplaceRange(retStart, retStart + 6, replacement)];
      } else {
        assert TopLevelReturns(stmts[..j + 1]) == TopLevelReturns(stmts[..j]);
      }
      j := j + 1;
    }
    assert stmts[..j] == stmts;
  }

  /** The task push written before the line of a call of `c`, spelt
      `functionName`, with the busy wait for a non-void callee. */
  method PushStatement(c: Callee, functionName: string, argTexts: seq<string>) returns (pushThreadStmt: string)
    requires functionName == c.name + CallSuffix(c.params)
    ensures pushThreadStmt == CallPrelude(c, argTexts)
  {
    var argsString := JoinArgs(argTexts);
    pushThreadStmt := PushThreadText(functionName, argsString);
    if !c.ret.isVoid {
      pushThreadStmt := pushThreadStmt + WaitLoopText(functionName);
    }
  }

  /** The edit at the call itself: a non-void call becomes a read of the
      callee's result; a void call is removed with its `;` when one follows. */
  method CallSite(c: Callee, range: CallRange, functionName: string) returns (callSite: Edit)
    ensures callSite == CallSiteEdit(c, range, functionName)
  {
    if !c.ret.isVoid {
      callSite := ReplaceRange(range.begin.offset, range.end, CallResultText(functionName));
    } else if range.semiAfter.Some? {
      callSite := RemoveRange(range.begin.offset, range.semiAfter.value);
    } else {
      callSite := RemoveRange(range.begin.offset, range.end);
    }
  }

  /** The argument list of a call: the argument texts joined by `", "`. */
  method JoinArgs(argTexts: seq<string>) returns (argsString: string)
    ensures argsString == JoinWith(argTexts, ", ")
  {
    argsString := "";
    var i := 0;
    while i < |argTexts|
      invariant 0 <= i <= |argTexts|
      invariant argsString == JoinWith(argTexts[..i], ", ")
    {
      if i > 0 {
        argsString := argsString + ", ";
      }
      argsString := argsString + argTexts[i];
      assert argTexts[..i + 1][..i] == argTexts[..i];
      i := i + 1;
    }
    assert argTexts[..i] == argTexts;
  }

  /** The callee's name as the call site spells it: one type initial per
      parameter appended. */
  method CallName(c: Callee) returns (functionName: string)
    ensures functionName == c.name + CallSuffix(c.params)
  {
    functionName := c.name;
    var j := 0;
    while j < |c.params|
      invariant 0 <= j <= |c.params|
      invariant functionName == c.name + CallSuffix(c.params[..j])
    {
      var typeStr := c.params[j].ty.spelling;
      functionName := functionName + [if typeStr == "" then '\0' else typeStr[0]];
      assert c.params[..j + 1][..j] == c.params[..j];
      j := j + 1;
    }
    assert c.params[..j] == c.params;
  }

  /** The definition's suffix, skipping empty type strings. */
  method ComputeSuffix(params: seq<Param>) returns (suffix: string)
    ensures suffix == DefSuffix(params)
  {
    suffix := "";
    var i := 0;
    while i < |params|
      invariant 0 <= i <= |params|
      invariant suffix == DefSuffix(params[..i])
    {
      var typeStr := params[i].ty.spelling;
      if typeStr != "" {
        suffix := suffix + [typeStr[0]];
      }
      assert params[..i + 1][..i] == params[..i];
      i := i + 1;
    }
    assert params[..i] == params;
  }

  /** The epilogue text, built one pool release at a time. */
  method BuildEpilogue(callees: seq<string>, f: FunctionDecl, suffix: string, isMain: bool) returns (extraCode: string)
    ensures extraCode == EpilogueText(callees, f, suffix, isMain)
  {
    extraCode := "";
    var k := 0;
    while k < |callees|
      invariant 0 <= k <= |callees|
      invariant extraCode == PoolReleases(callees[..k])
    {
      assert callees[..k + 1][..k] == callees[..k];
      ReleaseText(callees[k]);
      extraCode := extraCode + (callees[k] + "_params_index_pool.push(index);\n");
      k := k + 1;
    }
    assert callees[..k] == callees;
    if !f.ret.isVoid && !isMain {
      DoneFlagText(f.name, suffix);
      extraCode := extraCode + (f.name + suffix + "_params[param_index]." + f.name + suffix + "_done = true;\n");
    } else {
      assert extraCode + "" == extraCode;
    }
  }

  lemma ReleaseText(callee: string)
    ensures callee + "_params_index_pool.push(index);\n" == PoolReleaseLine(callee) + "\n"
  {
    var a := "_params_index_pool";
    var b := ".push(index);";
    assert a + b + "\n" == "_params_index_pool.push(index);\n";
    SeqAssoc(callee, a, b);
    SeqAssoc(callee + a, b, "\n");
    SeqAssoc(callee, a, b + "\n");
    SeqAssoc(a, b, "\n");
  }

  lemma DoneFlagText(fname: string, suffix: string)
    ensures fname + suffix + "_params[param_index]." + fname + suffix + "_done = true;\n" == DoneFlagLine(fname, suffix) + "\n"
  {
    var d := "_done = true;";
    assert d + "\n" == "_done = true;\n";
    SeqAssoc(fname + suffix + "_params[param_index]." + fname + suffix, d, "\n");
  }

  lemma ReturnEditsSnoc(rs: seq<nat>, r: nat, text: string)
    ensures ReturnEdits(rs + [r], text) == ReturnEdits(rs, text) + [ReplaceRange(r, r + 6, text)]
  {
    assert (rs + [r])[..|rs|] == rs;
  }
}

/** How the generated code and the code it talks to fit together, across
    the revisions: which names written by one rule are the names read by
    another, and where they are not. Each revision is modelled as written;
    these lemmas state the agreements and the disagreements. */
module Protocol {
  import opened Common
  import opened ClangAst
  import ObfuscatorRewriter
  import CallGraph

  predicate OccursAt(s: string, t: string, k: nat)
  {
    k + |t| <= |s| && s[k..k + |t|] == t
  }

  /** `t` occurs in `s`. */
  ghost predicate Contains(s: string, t: string)
  {
    exists k: nat :: OccursAt(s, t, k)
  }

  lemma EndsWith(a: string, t: string)
    ensures Contains(a + t, t)
  {
    assert OccursAt(a + t, t, |a|);
  }

  lemma ContainsInPrefix(p: string, s: string, t: string)
    requires Contains(p, t) && p <= s
    ensures Contains(s, t)
  {
    var k: nat :| OccursAt(p, t, k);
    assert s[k..k + |t|] == p[k..k + |t|];
    assert OccursAt(s, t, k);
  }

  /** The number of arguments of a non-empty argument list with no nested
      parentheses: one more than its commas. */
  function ArgumentCount(args: string): nat
  {
    if args == [] then 1 else ArgumentCount(args[..|args| - 1]) + (if args[|args| - 1] == ',' then 1 else 0)
  }

  lemma {:induction false} NoCommaOneArgument(args: string)
    requires ',' !in args
    ensures ArgumentCount(args) == 1
  {
    if args != [] {
      assert args[|args| - 1] in args;
      NoCommaOneArgument(args[..|args| - 1]);
    }
  }

  /** Both rewriter revisions end the task push with `pushToThread(` and a
      single argument, the function's enumerator, while the runtime's
      `pushToThread` (`TaskRuntime.Runtime.PushToThread`) takes the function
      id, a line number and a parameter index. */
  lemma GeneratedPushHasOneArgument(fn: string, args: string)
    requires ',' !in fn
    ensures Contains(ObfuscatorRewriter.PushThreadText(fn, args), "pushToThread(" + fn + "_enumidx);")
    ensures Contains(CallGraph.PushThreadText(fn, args), "pushToThread(" + fn + "_enumidx);")
    ensures ArgumentCount(fn + "_enumidx") == 1
  {
    LaterPushCall(fn, args);
    OlderPushCall(fn, args);
    assert ',' !in "_enumidx";
    NoCommaOneArgument(fn + "_enumidx");
  }

  lemma LaterPushCall(fn: string, args: string)
    ensures Contains(ObfuscatorRewriter.PushThreadText(fn, args), "pushToThread(" + fn + "_enumidx);")
  {
    PushCallAtEnd(
      "int index; \n { \n unique_lock<mutex> lock(mutexes[thread_idx]);\n if (" +
      fn + "_params_index_pool.empty()){\n index = " + fn +
      "_params.size();\n" + fn + "_params.emplace_back();\n }\n else { \n index = " +
      fn + "_params_index_pool.front(); \n" + fn + "_params_index_pool.pop(); \n }\n" +
      fn + "_params[index] = {" + args + "};\n }\n", fn);
  }

  lemma OlderPushCall(fn: string, args: string)
    ensures Contains(CallGraph.PushThreadText(fn, args), "pushToThread(" + fn + "_enumidx);")
  {
    PushCallAtEnd(
      "int index; \n { \n unique_lock<mutex> lock(mutexes[thread_idx]);\n if ( " +
      fn + "_params_index_pool.empty()){\n index = " + fn +
      "_params.size();\n" + fn + "_params.emplace_back();\n }\n else { \n index = " +
      fn + "_params.index.pool.front(); \n" + fn + "_params_index_pool.pop(); \n }\n" +
      fn + "_params[index] = {" + args + "};\n }\n", fn);
  }

  /** Text ending in the push line contains the push call. */
  lemma PushCallAtEnd(p: string, fn: string)
    ensures Contains(p + "pushToThread(" + fn + "_enumidx);\n", "pushToThread(" + fn + "_enumidx);")
  {
    var call := "pushToThread(" + fn + "_enumidx);";
    var s := p + "pushToThread(" + fn + "_enumidx);\n";
    assert s == p + call + "\n";
    assert s[|p|..|p| + |call|] == call;
    assert OccursAt(s, call, |p|);
  }

  /** A rewritten `return` stores into the record's `return_var`, but a call
      site of a non-void function reads `<fn>_return`, a different field, and
      the record struct declares `return_var` and `<fn>_done` only. */
  lemma ResultFieldMismatch(fn: string, suffix: string)
    ensures fn + "_return" != "return_var"
    ensures fn + "_return" != fn + "_done"
    ensures ObfuscatorRewriter.ReturnText(fn, suffix) == fn + suffix + "_params[param_index]." + "return_var" + " = "
    ensures ObfuscatorRewriter.CallResultText(fn) == fn + "_params[index]." + fn + "_return"
  {
    var a := fn + "_return";
    assert a[|a| - 1] == 'n';
    assert "return_var"[9] == 'r';
    var b := fn + "_done";
    if |a| == |b| {
      assert false;
    }
  }

  const OlderHead: string := "int index; \n { \n unique_lock<mutex> lock(mutexes[thread_idx]);\n if ( "
  const PoolTest: string := "_params_index_pool.empty()){\n index = "

  /** The older push text tests `<fn>_params_index_pool`. */
  lemma OlderTestsPool(fn: string, args: string)
    ensures Contains(CallGraph.PushThreadText(fn, args), fn + PoolTest)
  {
    var older := CallGraph.PushThreadText(fn, args);
    SeqAssoc(OlderHead, fn, PoolTest);
    EndsWith(OlderHead, fn + PoolTest);
    assert OlderHead + fn + PoolTest <= older;
    ContainsInPrefix(OlderHead + fn + PoolTest, older, fn + PoolTest);
  }

  /** The older push text reads the front of `<fn>_params.index.pool`. */
  lemma OlderReadsDottedPool(fn: string, args: string)
    ensures Contains(CallGraph.PushThreadText(fn, args), fn + "_params.index.pool.front(); \n")
  {
    var older := CallGraph.PushThreadText(fn, args);
    var q := OlderHead + fn + PoolTest + fn +
      "_params.size();\n" + fn + "_params.emplace_back();\n }\n else { \n index = ";
    var front := "_params.index.pool.front(); \n";
    SeqAssoc(q, fn, front);
    EndsWith(q, fn + front);
    assert q + fn + front <= older;
    ContainsInPrefix(q + fn + front, older, fn + front);
  }

  /** The later push text reads the front of the pool it tests. */
  lemma LaterReadsTestedPool(fn: string, args: string)
    ensures Contains(ObfuscatorRewriter.PushThreadText(fn, args), fn + "_params_index_pool.front(); \n")
  {
    var later := ObfuscatorRewriter.PushThreadText(fn, args);
    var q := "int index; \n { \n unique_lock<mutex> lock(mutexes[thread_idx]);\n if (" +
      fn + PoolTest + fn +
      "_params.size();\n" + fn + "_params.emplace_back();\n }\n else { \n index = ";
    var front := "_params_index_pool.front(); \n";
    SeqAssoc(q, fn, front);
    EndsWith(q, fn + front);
    assert q + fn + front <= later;
    ContainsInPrefix(q + fn + front, later, fn + front);
  }

  /** In the older rewriter's push text the pool is tested as
      `<fn>_params_index_pool` but its front is read from
      `<fn>_params.index.pool`, a different name; the later revision reads
      the front from the pool it tests, and the two texts differ in length
      only by the space after `if (`. */
  lemma PoolNameMismatch(fn: string, args: string)
    ensures fn + "_params.index.pool" != fn + "_params_index_pool"
    ensures Contains(CallGraph.PushThreadText(fn, args), fn + PoolTest)
    ensures Contains(CallGraph.PushThreadText(fn, args), fn + "_params.index.pool.front(); \n")
    ensures Contains(ObfuscatorRewriter.PushThreadText(fn, args), fn + "_params_index_pool.front(); \n")
    ensures |CallGraph.PushThreadText(fn, args)| == |ObfuscatorRewriter.PushThreadText(fn, args)| + 1
  {
    var dotted := fn + "_params.index.pool";
    var plain := fn + "_params_index_pool";
    assert dotted[|fn| + 7] == '.' && plain[|fn| + 7] == '_';
    OlderTestsPool(fn, args);
    OlderReadsDottedPool(fn, args);
    LaterReadsTestedPool(fn, args);
  }

  /** The flag a call site of the later rewriter polls,
      `<callee><call suffix>_done`, is the flag the callee's epilogue sets,
      `<name><definition suffix>_done`, exactly when every parameter type of
      the callee has a non-empty spelling. */
  lemma DoneFlagAgreement(c: Callee, f: FunctionDecl)
    requires c.name == f.name && c.params == f.params
    ensures (c.name + ObfuscatorRewriter.CallSuffix(c.params) + "_done" ==
             f.name + ObfuscatorRewriter.DefSuffix(f.params) + "_done")
        <==> forall i :: 0 <= i < |f.params| ==> f.params[i].ty.spelling != ""
  {
    ObfuscatorRewriter.SuffixesAgree(f.params);
    var cs := ObfuscatorRewriter.CallSuffix(c.params);
    var ds := ObfuscatorRewriter.DefSuffix(f.params);
    if c.name + cs + "_done" == f.name + ds + "_done" {
      assert |cs| == |ds|;
      forall k | 0 <= k < |cs| ensures cs[k] == ds[k] {
        assert (c.name + cs + "_done")[|c.name| + k] == cs[k];
        assert (f.name + ds + "_done")[|f.name| + k] == ds[k];
      }
      assert cs == ds;
    }
  }

  /** The epilogue's done-flag line sets the field the call site polls when
      the suffixes agree. */
  lemma DoneFlagWritesPolledField(c: Callee, f: FunctionDecl)
    requires c.name == f.name && c.params == f.params
    requires forall i :: 0 <= i < |f.params| ==> f.params[i].ty.spelling != ""
    ensures var fn := c.name + ObfuscatorRewriter.CallSuffix(c.params);
      ObfuscatorRewriter.DoneFlagLine(f.name, ObfuscatorRewriter.DefSuffix(f.params)) ==
        fn + "_params[param_index]." + fn + "_done = true;"
      && Contains(ObfuscatorRewriter.WaitLoopText(fn), fn + "_done")
  {
    ObfuscatorRewriter.SuffixesAgree(f.params);
    var fn := c.name + ObfuscatorRewriter.CallSuffix(c.params);
    var pre := "while (!" + fn + "_params[index].";
    SeqAssoc(pre, fn, "_done");
    EndsWith(pre, fn + "_done");
    ContainsInPrefix(pre + fn + "_done", ObfuscatorRewriter.WaitLoopText(fn), fn + "_done");
  }
}

# Thesis obfuscator, modelled in Dafny

The repository turns a C++ program into a multi-threaded one. The pipeline has four parts:

- **Analysis scripts.** Two Python scripts (`Estimation/main.py`, `Ai/main.py`) extract every user-defined top-level function. They count its statements and ask a language model for its time complexity, retrying a bounded number of times. The result goes into a C++ header of function → complexity entries.
- **Function registry.** A clang-based collector (`call_graph/FunctionCollector.cpp`) records the names of the functions the main file defines.
- **Source rewriter.** It comes in two revisions: the later one in `Obfuscator/obfuscator.cpp`, the earlier one in `call_graph/main.cpp`. In the later revision each collected function becomes a task:
  - its return type becomes `void`, and its name gets a suffix of its parameter types' first characters;
  - its parameters become `(int thread_idx, int param_index)`;
  - parameter references read a per-function parameter record;
  - top-level `return`s store into that record;
  - lines touching globals are wrapped in a lock;
  - each call of a collected function becomes "fill a record, push a task, and, for a non-void callee, busy-wait on its `done` flag";
  - an epilogue before the closing brace releases the record indices taken and, for a non-void function, sets its `done` flag.

  The earlier revision does not check the collected set: it rewrites every defined, non-implicit function other than `main`, and leaves alone only calls of implicit, builtin, bodiless-here and `operator…` callees. It adds no type suffix, wraps no global line and writes no epilogue, but it does write the parameter-record structs.
- **Task runtime.** The rewritten program links against `Input/obfuscator.cpp`. It has one FIFO task queue and one load counter per worker, a load balancer, and an in-flight counter that gates shutdown.

The model states these parts as Dafny values, functions, methods and classes, and proves their contracts. The modules are:

- **`Common`**: line joining and splitting, separator joins, decimal rendering, `Option`/`Result`.
- **`PyText`**: Python slicing, negative indexing, `strip` and `split`.
- **`Cindex`**: the libclang cursor tree, `get_source_code`, `count_statements`, the collection filter and the retry loop.
- **`Estimation`**, **`AiHeader`**: the two scripts.
- **`ClangAst`**: the part of the clang AST and the Rewriter calls that the rewriters use.
- **`ObfuscatorRewriter`**, **`CallGraph`**: the two rewriter revisions. Each has a pure step function per visitor over a value `State`. The class `FunctionRewriter` has methods proved equal to those step functions.
- **`FunctionCollector`**: the registry.
- **`TaskRuntime`**: the runtime, as a `Runtime` class over arrays.
- **`Protocol`**: lemmas relating the text one part generates to the names another part reads.

Each revision is modelled as written, and where they disagree the model keeps both. Four places where the parts of the code do not fit together are modelled as written:

- **The busy-wait result field.** The earlier revision's struct writer gives a non-void function's record the field `return_var`, and both revisions rewrite a top-level `return` into a store to `return_var`. The generated call site reads `<fn>_params[index].<fn>_return` instead, a field that no generated code writes (`Protocol.ResultFieldMismatch`).
- **The push call.** The generated call site calls `pushToThread(<fn>_enumidx)` with one argument. The runtime's `pushToThread` in `Input/obfuscator.cpp` takes three parameters (`Protocol.GeneratedPushHasOneArgument`).
- **Pool releases.** A call site takes a record index from `<fn>_params_index_pool`. The index goes back to the pool only in the caller's epilogue, just before the caller's closing brace, as one release per recorded non-void call, not when the callee finishes (`ObfuscatorRewriter.RunEpilogue`, `ObfuscatorRewriter.EpilogueLines`, `ObfuscatorRewriter.PoolReleasesAreLines`).
- **The older pool name.** The earlier revision's call site tests `<fn>_params_index_pool` for emptiness but reads the index from `<fn>_params.index.pool.front()`, a different name. The later revision reads the pool it tests (`Protocol.PoolNameMismatch`).

## Model

| member | source | states |
|---|---|---|
| Common.JoinWithVerbatim | Obfuscator/obfuscator.cpp:176-182 | each argument text appears verbatim in the `", "`-joined argument string, at its offset |
| Common.NatToStringRoundTrip | Estimation/main.py:182 | the decimal rendering used for `str(total statements)` parses back to the number and has no leading zero |
| Common.SplitJoinLines | Estimation/main.py:216-228 | lines without newlines joined with `\n` terminators split back into the same lines |
| PyText.Slice | Estimation/main.py:64 | Python slicing clamps both bounds and agrees with Dafny slicing on in-range bounds |
| PyText.Index | Estimation/main.py:68 | `lines[-1]` style indexing succeeds exactly for `-len <= i < len` and counts negative indices from the end |
| PyText.StripSpec | Estimation/main.py:83 | `strip()` yields a contiguous slice with only whitespace cut from each side and no whitespace at either end |
| PyText.StripIdempotent | Estimation/main.py:83 | stripping twice is stripping once |
| PyText.WordsEmpty | Estimation/main.py:87 | `split()` gives no words exactly for an all-whitespace string |
| PyText.WordsSplitAtSpace | Estimation/main.py:87 | `split()` at a whitespace character is the concatenation of the words of both sides |
| Cindex.SourceCodeIsFileSpan | Estimation/main.py:62-69 | for a span inside the file, `get_source_code` is the file text between the two 1-based line/column positions, end exclusive |
| Cindex.SingleLineSpan | Estimation/main.py:63-64 | a single-line span is the slice of that line from `start.column-1` up to `end.column-1` |
| Cindex.MultiLineSpan | Estimation/main.py:65-69 | a multi-line span is lines `start.line..end.line` with the first cut from `start.column-1` and the last before `end.column-1` |
| Cindex.CountStatementsIsPreorderCount | Estimation/main.py:110-132 | `count_statements` is the number of nodes of the eight listed kinds in the subtree |
| Cindex.CountAtLeastChild | Estimation/main.py:129-130 | a node's count is at least any child's count |
| Cindex.Selected | Estimation/main.py:80 | every collected cursor is a top-level, user-file, defined, non-`main` function declaration from the visited nodes, and every such cursor among them is collected |
| Cindex.AnalyzeWithRetry | Estimation/main.py:159-169 | at most six analyzer calls; success exactly when one of the first five succeeds, with that call's value; a sixth call's result is discarded |
| Cindex.FinalComplexityOfRetry | Ai/main.py:135-151 | the complexity the retry loop leaves is the first success among the five counted attempts, or the statement count |
| Cindex.FallbackWhenAllFail | Ai/main.py:147-151 | when every attempt fails the complexity is the statement count |
| Estimation.ParamInitial | Estimation/main.py:87-88 | the first character of the last whitespace-separated word of a type exists exactly when the type is not all whitespace (otherwise `IndexError`) |
| Estimation.ParamsSuffixShape | Estimation/main.py:85-89 | the suffix succeeds exactly when no type is blank, and then has one character per parameter, each that parameter's initial |
| Estimation.KeyIsBareNameIffNoParams | Estimation/main.py:90-92 | the key equals the bare name exactly when there are no parameters |
| Estimation.ParamInitialOfQualified | Estimation/main.py:87 | qualifiers before the last word of a type do not change its initial |
| Estimation.BuildKey | Estimation/main.py:85-92 | the loop builds `name_<initials>` (or `name`) and fails exactly when the suffix fails |
| Estimation.ParamsErrorPersists | Estimation/main.py:86-88 | a blank type anywhere makes the whole key computation fail |
| Estimation.Select | Estimation/main.py:80-101 | one node's contribution to the function list is its record when it passes the filter |
| Estimation.Visit | Estimation/main.py:71-104 | the recursive visit appends the records of the selected nodes in preorder |
| Estimation.ExtractFromIsSelection | Estimation/main.py:71-107 | the extracted list is the previous list followed by one record per selected cursor, in preorder |
| Estimation.AssignComplexities | Estimation/main.py:154-182 | every function gets the retry loop's complexity from its own analyzer replies and nothing else changes |
| Estimation.UniqueEntriesKeys | Estimation/main.py:206-214 | every entry key belongs to some function and every function's key has an entry |
| Estimation.UniqueEntriesDistinct | Estimation/main.py:210 | entry keys are pairwise distinct |
| Estimation.UniqueEntriesFirstWins | Estimation/main.py:210-213 | a key's entry carries the complexity of the first function with that key |
| Estimation.CollectUnique | Estimation/main.py:206-214 | the dictionary, its insertion order and the name set match the first-seen entries and the set of plain names |
| Estimation.WriteEntries | Estimation/main.py:216-217 | one `{"key", "complexity"},` line per entry in order |
| Estimation.WriteNames | Estimation/main.py:224-225 | one quoted-name line per name in the given set order |
| Estimation.SaveAsCppFile | Estimation/main.py:195-228 | the header text is the prelude, the unique entries, the name set and `#endif`, line by line |
| Estimation.HeaderLinesRoundTrip | Estimation/main.py:196-228 | the header splits back into exactly its lines |
| AiHeader.Visit | Ai/main.py:63-87 | the recursive visit appends the records of the selected nodes in preorder |
| AiHeader.CollectIsSelection | Ai/main.py:63-90 | the collected list is one record per selected cursor, in preorder |
| AiHeader.AssignComplexities | Ai/main.py:135-151 | every function gets the retry loop's complexity from its own analyzer replies |
| AiHeader.FunctionLines | Ai/main.py:171-174 | one entry line per function, in list order, keyed by the plain name, duplicates kept |
| AiHeader.SaveAsCppHashmap | Ai/main.py:160-176 | the header text is the prelude, one line per function and the closing lines |
| AiHeader.HeaderLinesRoundTrip | Ai/main.py:161-176 | the header has `len(functions) + 12` lines, entry `k` at line `8 + k`, and ends with `#endif // CPP_FUNCTIONS_H` |
| ClangAst.Preorder | Obfuscator/obfuscator.cpp:91 | the traversal meets a node first and then its subtree |
| ClangAst.TraversedSignatureThenBody | Obfuscator/obfuscator.cpp:91 | `TraverseDecl` visits the signature's expressions (default arguments, parameter array bounds) first, for a prototype too, then the body's nodes in preorder only for the definition |
| ClangAst.LineEnd | Obfuscator/obfuscator.cpp:147-149 | the line end is the first newline at or after the offset, or the buffer size |
| ClangAst.FindLineEnd | Obfuscator/obfuscator.cpp:147-149 | the scan stops at that line end |
| ClangAst.TopLevelReturnsSpec | Obfuscator/obfuscator.cpp:77-79 | the positions taken are exactly the begins of the body's top-level `return` statements, one per statement, in statement order (`ReturnIndices` lists those statements: each one a `return`, strictly increasing, none missed) |
| ObfuscatorRewriter.CallSuffix | Obfuscator/obfuscator.cpp:184-190 | the call-site suffix has one character per parameter: the type's first character, `'\0'` for an empty spelling |
| ObfuscatorRewriter.DefSuffixSpec | Obfuscator/obfuscator.cpp:46-50 | the definition suffix is each parameter type's first character in order, empty types skipped, so it is shorter exactly when some type is empty |
| ObfuscatorRewriter.SuffixesAgree | Obfuscator/obfuscator.cpp:184-190 | the definition's and the call site's suffix agree exactly when every parameter type is non-empty |
| ObfuscatorRewriter.ComputeSuffix | Obfuscator/obfuscator.cpp:46-52 | the loop computes the definition suffix |
| ObfuscatorRewriter.CallName | Obfuscator/obfuscator.cpp:171-190 | the loop computes the callee name plus the call-site suffix |
| ObfuscatorRewriter.JoinArgs | Obfuscator/obfuscator.cpp:175-182 | the argument loop joins the argument texts with `", "` |
| ObfuscatorRewriter.ReturnEdits | Obfuscator/obfuscator.cpp:77-84 | one rewrite per top-level `return`, in order, each over its six characters |
| ObfuscatorRewriter.ReturnRewrites | Obfuscator/obfuscator.cpp:76-86 | the loop issues exactly those rewrites |
| ObfuscatorRewriter.BuildEpilogue | Obfuscator/obfuscator.cpp:96-103 | the loop builds the pool releases followed by the done-flag line when it applies |
| ObfuscatorRewriter.PoolReleasesAreLines | Obfuscator/obfuscator.cpp:97-99 | the releases are one `<callee>_params_index_pool.push(index);` line per recorded callee, in order |
| ObfuscatorRewriter.EpilogueLines | Obfuscator/obfuscator.cpp:94-104 | the epilogue splits into the release lines, then the done-flag line exactly for a non-void non-main function |
| ObfuscatorRewriter.RunNotCollected | Obfuscator/obfuscator.cpp:32-33 | a function outside the collected set leaves the state unchanged |
| ObfuscatorRewriter.CallNotCollected | Obfuscator/obfuscator.cpp:167-172 | a call with no direct callee, or of an uncollected callee, is left untouched |
| ObfuscatorRewriter.CallRewrite | Obfuscator/obfuscator.cpp:192-233 | a collected call adds the push text before its line and then the replacement by `<fn>_params[index].<fn>_return` (non-void) or the removal through `;`, else of its tokens (void); a non-void callee is recorded |
| ObfuscatorRewriter.DeclRefGrows | Obfuscator/obfuscator.cpp:111-162 | a reference only appends Rewriter calls and lock lines and records no callee |
| ObfuscatorRewriter.StepGrows | Obfuscator/obfuscator.cpp:111-236 | each visit only appends and records exactly the non-void collected callee it meets |
| ObfuscatorRewriter.WalkMonotone | Obfuscator/obfuscator.cpp:91 | the traversal never removes or changes an earlier Rewriter call |
| ObfuscatorRewriter.ParamRefsReplaced | Obfuscator/obfuscator.cpp:116-121 | every parameter reference met becomes `F + suffix + "_params[param_index]." + p` over the parameter's name |
| ObfuscatorRewriter.DeclRefWrapsFreshLine | Obfuscator/obfuscator.cpp:125-156 | inside a function, a reference to a global variable on a line not yet recorded (buffer readable) records the line and appends, after the parameter rewrite if any, exactly the lock opening at the line start and the lock closing after the line end |
| ObfuscatorRewriter.DeclRefAddsNoLock | Obfuscator/obfuscator.cpp:111-135 | outside a function, for a local, parameter, system-header or non-variable reference, or on a line already recorded, the recorded lines stay the same and no lock is added (at most the parameter rewrite) |
| ObfuscatorRewriter.DeclRefLocks | Obfuscator/obfuscator.cpp:125-157 | a reference records its line exactly when it is a global variable reference inside a function, and adds one lock per newly recorded line when the buffer is readable, none otherwise |
| ObfuscatorRewriter.WalkLocks | Obfuscator/obfuscator.cpp:89-157 | over a traversal, the recorded lines grow by exactly the lines of its global references, and the locks added are one per newly recorded line (none when the buffer is unreadable) |
| ObfuscatorRewriter.WalkWrapsLine | Obfuscator/obfuscator.cpp:89-156 | a global reference on a line not recorded before it in the traversal gets its line wrapped: both lock edits are issued |
| ObfuscatorRewriter.RunLocks | Obfuscator/obfuscator.cpp:30-109 | over a whole run, the recorded lines grow by exactly the global-reference lines of the visited nodes (signature, then body; none for a bodiless function other than `main`), and each newly recorded line gets one lock when the buffer is readable; each line is therefore wrapped at most once |
| ObfuscatorRewriter.RunWrapsLine | Obfuscator/obfuscator.cpp:30-109 | in a run, every visited global reference, in the signature or the body, whose line was not recorded before it has both lock edits of its line issued |
| ObfuscatorRewriter.RunParamRefs | Obfuscator/obfuscator.cpp:89-121 | in a run, every visited parameter reference is replaced by `F + DefSuffix(params) + "_params[param_index]." + p`, or, for `main`, with the suffix left by the previous function |
| ObfuscatorRewriter.WalkRecordsCallees | Obfuscator/obfuscator.cpp:199-204 | the recorded callees are the non-void collected calls met, in visit order, duplicates kept |
| ObfuscatorRewriter.RunEpilogue | Obfuscator/obfuscator.cpp:90-105 | the last Rewriter call of a run is the epilogue before the closing brace, over the callees of this function only |
| ObfuscatorRewriter.RunSignature | Obfuscator/obfuscator.cpp:38-66 | a non-main function first gets the return type replaced by `void`, the name by name plus suffix, and the parameter list by `(int thread_idx, int param_index)` |
| ObfuscatorRewriter.RunReturns | Obfuscator/obfuscator.cpp:74-86 | a non-void function's edits start with the earlier edits, its signature rewrites, then one rewrite per top-level `return` (position, six characters, `F + suffix + "_params[param_index].return_var = "`), in order, and no later edit of the run is such a `return_var` rewrite |
| ObfuscatorRewriter.RunMain | Obfuscator/obfuscator.cpp:35-39 | `main` keeps its signature, its returns and the previous suffix, gets no done flag, and its body is still traversed |
| ObfuscatorRewriter.FunctionRewriter.constructor | Obfuscator/obfuscator.cpp:28 | a new rewriter has issued nothing and has no current function |
| ObfuscatorRewriter.FunctionRewriter.VisitDeclRefExpr | Obfuscator/obfuscator.cpp:111-162 | the visitor's new state is the reference step of the old one |
| ObfuscatorRewriter.FunctionRewriter.VisitCallExpr | Obfuscator/obfuscator.cpp:166-236 | the visitor's new state is the call step of the old one |
| ObfuscatorRewriter.FunctionRewriter.TraverseNode | Obfuscator/obfuscator.cpp:91 | visiting a subtree is the step walk over its preorder |
| ObfuscatorRewriter.FunctionRewriter.TraverseAll | Obfuscator/obfuscator.cpp:91 | visiting statements in order is the walk over their preorders |
| ObfuscatorRewriter.FunctionRewriter.FinishRun | Obfuscator/obfuscator.cpp:89-107 | clearing the callees, traversing, inserting the epilogue and clearing the current function |
| ObfuscatorRewriter.FunctionRewriter.Run | Obfuscator/obfuscator.cpp:30-109 | the match callback's new state is the specification of `run` applied to the old one |
| CallGraph.FieldLines | call_graph/main.cpp:34-36 | one `    <type> <name>;` line per parameter, in order |
| CallGraph.WriteFields | call_graph/main.cpp:34-36 | the parameter loop writes exactly those lines |
| CallGraph.WriteResultFields | call_graph/main.cpp:38-41 | the two extra fields of a non-void function, none for a void one |
| CallGraph.DumpStruct | call_graph/main.cpp:22-46 | a skipped function writes nothing, and any other writes its struct lines |
| CallGraph.StructRoundTrip | call_graph/main.cpp:33-43 | the struct has `struct <name>_Struct {`, one field line per parameter, then `return_var` and `<name>_done = false` for non-void, then `};` and a blank line |
| CallGraph.RunSkipped | call_graph/main.cpp:58-60 | implicit, undefined and `main` functions are not rewritten |
| CallGraph.CallSkippedUntouched | call_graph/main.cpp:122-129 | calls of implicit, builtin or bodiless callees and of `operator…` are left untouched |
| CallGraph.CallRewrite | call_graph/main.cpp:144-191 | any other call gets the push text and then the replacement by `<name>_params[index].<name>_return` or the removal through `;`, else of its tokens |
| CallGraph.WalkMonotone | call_graph/main.cpp:93 | the traversal only appends Rewriter calls |
| CallGraph.ParamRefsReplaced | call_graph/main.cpp:102-109 | every parameter reference becomes `F + "_params[param_index]." + p`, no suffix |
| CallGraph.RunParamRefs | call_graph/main.cpp:91-110 | in a run, every visited parameter reference is replaced by `F + "_params[param_index]." + p`, no suffix |
| CallGraph.RunRewrites | call_graph/main.cpp:62-94 | the run issues the `void` return type, the new parameter list and one `return_var` rewrite per top-level return of a non-void function, before the traversal, and no later edit of the run is such a rewrite |
| CallGraph.FunctionRewriter.constructor | call_graph/main.cpp:54 | a new rewriter has issued nothing |
| CallGraph.FunctionRewriter.VisitDeclRefExpr | call_graph/main.cpp:99-112 | the visitor's new state is the reference step |
| CallGraph.FunctionRewriter.VisitCallExpr | call_graph/main.cpp:115-194 | the visitor's new state is the call step |
| CallGraph.FunctionRewriter.TraverseNode | call_graph/main.cpp:93 | visiting a subtree is the walk over its preorder |
| CallGraph.FunctionRewriter.TraverseAll | call_graph/main.cpp:93 | visiting statements in order is the walk over their preorders |
| CallGraph.FunctionRewriter.Run | call_graph/main.cpp:56-96 | the callback's new state is the specification of `run` |
| FunctionCollector.DefinedNamesSpec | call_graph/FunctionCollector.cpp:55-61 | a name is collected exactly when some matched declaration of it is a definition |
| FunctionCollector.FunctionCollector.constructor | call_graph/FunctionCollector.cpp:18 | a fresh collector has an empty path and no names |
| FunctionCollector.FunctionCollector.Run | call_graph/FunctionCollector.cpp:55-61 | a definition's name is inserted, a prototype's is not, the set only grows and re-inserting changes nothing |
| FunctionCollector.FunctionCollector.ExecuteASTTraversal | call_graph/FunctionCollector.cpp:27-47 | with no path it reports an error and collects nothing; otherwise it adds the defined names of the parsed file |
| FunctionCollector.FunctionCollector.SetSourceFile | call_graph/FunctionCollector.cpp:21-24 | the path is overwritten and then the traversal runs |
| FunctionCollector.FunctionCollector.GetCollectedFunctions | call_graph/FunctionCollector.cpp:50-52 | returns the accumulated set and changes nothing |
| TaskRuntime.DispatchRoundTrip | Input/obfuscator.cpp:143-160 | each function's enumerator dispatches to that function and an id outside 0..4 dispatches nothing |
| TaskRuntime.Wrap32 | Input/obfuscator.cpp:115 | a load update is congruent mod 2^32 to the sum, stays 32-bit, and is the sum when that fits |
| TaskRuntime.ThresholdUpTo | Input/obfuscator.cpp:82-88 | an index is a threshold candidate exactly when `5·N·load <= 4·sum` |
| TaskRuntime.AtMostUpTo | Input/obfuscator.cpp:96-102 | an index is a fallback candidate exactly when its load is at most the median |
| TaskRuntime.SortAscSpec | Input/obfuscator.cpp:92-93 | the sorted copy is ascending and a permutation of the loads |
| TaskRuntime.MedianBoundsMinimum | Input/obfuscator.cpp:90-94 | some load is at most `sortedValues[N/2]` |
| TaskRuntime.CandidatesNonEmpty | Input/obfuscator.cpp:90-106 | the candidate list is never empty and holds only valid worker indices |
| TaskRuntime.CandidateLoadBound | Input/obfuscator.cpp:77-103 | a candidate is under 80% of the mean whenever some worker is, and otherwise at most the median |
| TaskRuntime.AllEqualAllCandidates | Input/obfuscator.cpp:77-103 | with all loads equal, every worker is a candidate |
| TaskRuntime.ThresholdIndices | Input/obfuscator.cpp:82-88 | the threshold loop collects exactly the threshold candidates, in order |
| TaskRuntime.AtMostIndices | Input/obfuscator.cpp:96-102 | the fallback loop collects exactly the fallback candidates, in order |
| TaskRuntime.ChooseWorker | Input/obfuscator.cpp:77-106 | the pick is one of the candidates |
| TaskRuntime.TotalQueuedZero | Input/obfuscator.cpp:51-52 | no task queued anywhere means every queue is empty |
| TaskRuntime.Runtime.constructor | Input/obfuscator.cpp:34-40 | after `initialize` every load counter is 0, every queue is empty and nothing is in flight |
| TaskRuntime.Runtime.GetBalancedRandomIndex | Input/obfuscator.cpp:66-107 | the result is a valid worker index among the candidates of the current loads |
| TaskRuntime.Runtime.PushToThread | Input/obfuscator.cpp:109-119 | exactly one queue gets the task at its back, that worker's load grows by `line_no` with wrap-around, and one more task is in flight; nothing else changes |
| TaskRuntime.Runtime.TaskFinished | Input/obfuscator.cpp:121-129 | one task fewer in flight, with a notification exactly when none remains |
| TaskRuntime.Runtime.Execute | Input/obfuscator.cpp:131-163 | an empty queue changes nothing; otherwise the front task is removed, dispatched on its id with its parameter index, and finished |
| TaskRuntime.Runtime.WorkerIteration | Input/obfuscator.cpp:165-179 | a worker waits while idle, leaves only when stop is set and its own queue is empty, and otherwise executes its front task |
| TaskRuntime.Runtime.Exit | Input/obfuscator.cpp:48-64 | the stop flag is set only once nothing is in flight, and then every queue is empty |
| Protocol.GeneratedPushHasOneArgument | Obfuscator/obfuscator.cpp:192-197 | both rewriter revisions emit `pushToThread(<fn>_enumidx);` with one argument, against the three parameters of the runtime's `pushToThread` |
| Protocol.ResultFieldMismatch | Obfuscator/obfuscator.cpp:221-223 | a call site reads `<fn>_return`, which is neither the `return_var` that returns write nor the `done` flag |
| Protocol.PoolNameMismatch | call_graph/main.cpp:145-151 | the older text tests `<fn>_params_index_pool` but reads the front of `<fn>_params.index.pool`; the later text reads the pool it tests |
| Protocol.DoneFlagAgreement | Obfuscator/obfuscator.cpp:199-201 | the flag a call site polls is the flag the callee's epilogue sets exactly when every parameter type spelling is non-empty |
| Protocol.DoneFlagWritesPolledField | Obfuscator/obfuscator.cpp:102 | with non-empty type spellings, the done-flag line sets the polled field and the wait loop polls it |

## Left out

- **Clang tooling.** `ClangTool`, the options parser, the match finder, the frontend actions and the AST consumers are left out. The rewriters take an abstract function declaration and record the Rewriter calls they would issue. Applying those calls to the text, offset arithmetic beyond the line start and end, macro expansion locations and the `isExpansionInMainFile` matcher are not modelled.
- **Signature expressions.** A declaration's `signature` is given as the list of expression subtrees that `RecursiveASTVisitor` walks in its type location. Deriving them from a declarator (default arguments, parameter array bounds, `decltype` and `noexcept` operands, trailing return types) is not modelled.
- **Non-compound function bodies.** Such a body is not modelled: every body is a sequence of top-level statements with a closing brace.
- **`main` without a body.** When `main` has no body anywhere, the later rewriter dereferences a null body. The model issues no epilogue in that case.
- **The registry singleton.** The collector singleton, its unused local matcher and the global set reference the rewriter reads at start-up are left out. The rewriter takes the collected set as a constructor argument.
- **FunctionCollector.FunctionCollector.SetSourceFile:** the collector's header (`call_graph/FunctionCollector.h:23`) declares `collectFunctions`, which the later rewriter calls (`Obfuscator/obfuscator.cpp:306`). The collector's source file defines `setSourceFile` instead, with no `collectFunctions`. The model takes the `setSourceFile` body as the operation the rewriter invokes, so the missing definition, a link error, is not modelled.
- **I/O.** Reading source files, walking directories, writing the headers and structs, and console output are left out. The generated text is a returned string. The dumper's file-open failure, which writes nothing, is not modelled.
- **The language-model analyzer.** It is a function from (function index, attempt) to a reply of success and value.
- **Script error handling.** The `try`/`except` around statement counting and Python's recursion limit are not modelled. `os.path.abspath` comparison is equality of the given paths.
- **The unused `limit` flag.** Its early `break` is dead code.
- **Timing and ETA.** The wall-clock timing and ETA arithmetic are floating point and are left out, with their printing.
- **Python set order.** The iteration order of the Estimation name set is a parameter that enumerates the set.
- **Concurrency in the runtime.** Threads, their creation and joining, mutexes, condition-variable waits and notifications, and atomics are sequential steps. A wait that would block is a step that changes nothing. Liveness is not modelled.
- **The dispatched task bodies.** `funcA` to `funcE_ii` are not shown. `Execute` reports which function it dispatches and does not run it.
- **TaskRuntime.Runtime.GetBalancedRandomIndex:** the `mt19937` draw is an unspecified choice among the candidates. The threshold is the exact integer comparison `5·N·load <= 4·sum`. Rounding of `0.8` in binary floating point at the boundary is not modelled.
- **TaskRuntime.Runtime.Execute:** the in-flight counter is an unbounded integer, so its wrap-around after 2^31 tasks is not modelled.

Declaration-only files are not part of this model: `Input/obfuscator.hpp` and `call_graph/FunctionCollector.h`. Neither is `Obfuscator/cpp_functions.h`, a static table, or `Ai/OUTPUT/main.cpp`, which only prints that table. The definitions above take only `OBFUSCATION_THREADS = 2` and the order of the `FunctionID` enumeration from the header.

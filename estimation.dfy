/** Estimation/main.py: collect every user function of a file with its
    stripped source text, its statement count and an overload key, ask the
    complexity analyzer about each (with retries), and emit the
    `cpp_functions.h` header with one entry per distinct key. */
module Estimation {
  import opened Common
  import opened PyText
  import opened Cindex

  /** `FunctionInfo`: name, stripped body, complexity (None until set),
      statement count and the name-with-parameter-initials key. */
  datatype FunctionInfo = FunctionInfo(
    functionName: string,
    functionBody: string,
    timeComplexity: Option<string>,
    totalStatement: nat,
    functionNameWithParams: string)

  /** `param.type.spelling.split()[-1][0]`: the first character of the last
      word of a parameter's type; a type with no word raises IndexError. */
  function ParamInitial(typeSpelling: string): (r: Result<char, PyError>)
    ensures r.Ok? <==> !AllSpace(typeSpelling)
  {
    WordsEmpty(typeSpelling);
    var ws := Words(typeSpelling);
    if ws == [] then Err(IndexError) else Ok(ws[|ws| - 1][0])
  }

  /** `''.join(param_types)` for the loop over `node.get_arguments()`. */
  function ParamsSuffix(types: seq<string>): Result<string, PyError>
  {
    if types == [] then Ok("")
    else
      match ParamsSuffix(types[..|types| - 1])
      case Err(e) => Err(e)
      case Ok(s) =>
        match ParamInitial(types[|types| - 1])
        case Err(e) => Err(e)
        case Ok(c) => Ok(s + [c])
  }

  /** `f"{name}{f'_{suffix}' if suffix else ''}"` */
  function KeyFor(name: string, suffix: string): string
  {
    if suffix == "" then name else name + "_" + suffix
  }

  /** The suffix has one character per parameter, the initial of that
      parameter's last type word, and it exists exactly when every type has
      a word. */
  lemma {:induction false} ParamsSuffixShape(types: seq<string>)
    ensures ParamsSuffix(types).Ok? <==> forall i :: 0 <= i < |types| ==> !AllSpace(types[i])
    ensures ParamsSuffix(types).Ok? ==>
      var s := ParamsSuffix(types).value;
      && |s| == |types|
      && forall i :: 0 <= i < |types| ==> ParamInitial(types[i]) == Ok(s[i])
  {
    if types != [] {
      var init := types[..|types| - 1];
      ParamsSuffixShape(init);
      assert forall i :: 0 <= i < |init| ==> init[i] == types[i];
    }
  }

  /** The key is the bare name exactly when the function has no parameters. */
  lemma KeyIsBareNameIffNoParams(name: string, types: seq<string>)
    requires ParamsSuffix(types).Ok?
    ensures KeyFor(name, ParamsSuffix(types).value) == name <==> types == []
  {
    ParamsSuffixShape(types);
    var s := ParamsSuffix(types).value;
    if s != "" {
      assert |name + "_" + s| > |name|;
    }
  }

  /** Qualifiers before the last type word do not matter: the initial of
      `"unsigned int"` is the initial of `"int"`. */
  lemma ParamInitialOfQualified(qualifier: string, sep: char, typeWord: string)
    requires IsSpace(sep) && !AllSpace(typeWord)
    ensures ParamInitial(qualifier + [sep] + typeWord) == ParamInitial(typeWord)
  {
    WordsSplitAtSpace(qualifier, sep, typeWord);
    WordsEmpty(typeWord);
    WordsEmpty(qualifier + [sep] + typeWord);
  }

  /** The loop of `visit` over `node.get_arguments()`, building the key. */
  method BuildKey(name: string, argTypes: seq<string>) returns (r: Result<string, PyError>)
    ensures r.Ok? <==> ParamsSuffix(argTypes).Ok?
    ensures r.Ok? ==> r.value == KeyFor(name, ParamsSuffix(argTypes).value)
  {
    var paramTypes: string := "";
    var i := 0;
    while i < |argTypes|
      invariant 0 <= i <= |argTypes|
      invariant ParamsSuffix(argTypes[..i]) == Ok(paramTypes)
    {
      var words := Words(argTypes[i]);
      assert argTypes[..i + 1][..i] == argTypes[..i];
      if words == [] {
        ParamsErrorPersists(argTypes, i + 1);
        return Err(IndexError);
      }
      var paramType := words[|words| - 1];
      paramTypes := paramTypes + [paramType[0]];
      i := i + 1;
    }
    assert argTypes[..i] == argTypes;
    r := Ok(KeyFor(name, paramTypes));
  }

  lemma {:induction false} ParamsErrorPersists(types: seq<string>, n: nat)
    requires 1 <= n <= |types| && ParamsSuffix(types[..n]).Err?
    ensures ParamsSuffix(types).Err?
    decreases |types| - n
  {
    if n < |types| {
      assert types[..n + 1][..n] == types[..n];
      ParamsErrorPersists(types, n + 1);
    } else {
      assert types[..n] == types;
    }
  }

  /** The record `visit` appends for a selected cursor; building it can
      raise IndexError (source slicing or key building). */
  function MakeInfo(c: Cursor, lines: seq<string>): Result<FunctionInfo, PyError>
  {
    match GetSourceCode(lines, c.extent.start, c.extent.end)
    case Err(e) => Err(e)
    case Ok(code) =>
      match ParamsSuffix(c.argTypes)
      case Err(e) => Err(e)
      case Ok(suffix) =>
        Ok(FunctionInfo(c.spelling, Strip(code), None, CountStatements(c), KeyFor(c.spelling, suffix)))
  }

  /** `functions` after appending, in order, the record of every selected
      cursor of a pre-order list; the first exception aborts. */
  function ExtractFrom(functions: seq<FunctionInfo>, ns: seq<Cursor>, filePath: string, lines: seq<string>): Result<seq<FunctionInfo>, PyError>
    decreases |ns|
  {
    if ns == [] then Ok(functions)
    else if IsCollected(ns[0], filePath) then
      match MakeInfo(ns[0], lines)
      case Err(e) => Err(e)
      case Ok(f) => ExtractFrom(functions + [f], ns[1..], filePath, lines)
    else ExtractFrom(functions, ns[1..], filePath, lines)
  }

  function Then(r: Result<seq<FunctionInfo>, PyError>, ns: seq<Cursor>, filePath: string, lines: seq<string>): Result<seq<FunctionInfo>, PyError>
  {
    match r
    case Err(e) => Err(e)
    case Ok(fs) => ExtractFrom(fs, ns, filePath, lines)
  }

  lemma {:induction false} ExtractFromAppend(functions: seq<FunctionInfo>, a: seq<Cursor>, b: seq<Cursor>, filePath: string, lines: seq<string>)
    ensures ExtractFrom(functions, a + b, filePath, lines) == Then(ExtractFrom(functions, a, filePath, lines), b, filePath, lines)
    decreases |a|
  {
    if a == [] {
      assert a + b == b;
    } else {
      assert (a + b)[0] == a[0];
      assert (a + b)[1..] == a[1..] + b;
      if IsCollected(a[0], filePath) {
        if MakeInfo(a[0], lines).Ok? {
          ExtractFromAppend(functions + [MakeInfo(a[0], lines).value], a[1..], b, filePath, lines);
        }
      } else {
        ExtractFromAppend(functions, a[1..], b, filePath, lines);
      }
    }
  }

  /** The first half of `visit(node)`: the record of `node` itself, when
      it is a wanted function, appended to `functions`. */
  method Select(node: Cursor, filePath: string, lines: seq<string>, functions: seq<FunctionInfo>)
    returns (r: Result<seq<FunctionInfo>, PyError>)
    ensures r == ExtractFrom(functions, [node], filePath, lines)
  {
    assert [node][0] == node && [node][1..] == [];
    if IsCollected(node, filePath) {
      var code := GetSourceCode(lines, node.extent.start, node.extent.end);
      if code.Err? {
        return Err(code.error);
      }
      var key := BuildKey(node.spelling, node.argTypes);
      if key.Err? {
        assert MakeInfo(node, lines).Err?;
        ghost var e: PyError := ExtractFrom(functions, [node], filePath, lines).error;
        assert e == IndexError;
        return Err(IndexError);
      }
      var info := FunctionInfo(node.spelling, Strip(code.value), None, CountStatements(node), key.value);
      r := Ok(functions + [info]);
    } else {
      r := Ok(functions);
    }
  }

  lemma VisitStep(functions: seq<FunctionInfo>, node: Cursor, i: nat, filePath: string, lines: seq<string>)
    requires i < |node.children|
    ensures ExtractFrom(functions, [node] + PreorderAll(node.children[..i + 1]), filePath, lines) ==
            Then(ExtractFrom(functions, [node] + PreorderAll(node.children[..i]), filePath, lines), Preorder(node.children[i]), filePath, lines)
  {
    PreorderAllSnoc(node.children, i);
    assert [node] + PreorderAll(node.children[..i + 1]) == ([node] + PreorderAll(node.children[..i])) + Preorder(node.children[i]);
    ExtractFromAppend(functions, [node] + PreorderAll(node.children[..i]), Preorder(node.children[i]), filePath, lines);
  }

  lemma VisitStepErr(functions: seq<FunctionInfo>, node: Cursor, i: nat, filePath: string, lines: seq<string>)
    requires i < |node.children|
    requires ExtractFrom(functions, [node] + PreorderAll(node.children[..i + 1]), filePath, lines).Err?
    ensures ExtractFrom(functions, Preorder(node), filePath, lines) == ExtractFrom(functions, [node] + PreorderAll(node.children[..i + 1]), filePath, lines)
  {
    ExtractFromAppend(functions, [node] + PreorderAll(node.children[..i + 1]), PreorderAll(node.children[i + 1..]), filePath, lines);
    PreorderAllAppend(node.children[..i + 1], node.children[i + 1..]);
    assert node.children[..i + 1] + node.children[i + 1..] == node.children;
    assert Preorder(node) == ([node] + PreorderAll(node.children[..i + 1])) + PreorderAll(node.children[i + 1..]);
  }

  /** `visit(node)`: selects `node` if it is a wanted function, appending its
      record to `functions`, then visits every child in order. The result is
      `functions` extended by the records of the selected cursors of the
      whole subtree, in pre-order, or the first exception raised. */
  method Visit(node: Cursor, filePath: string, lines: seq<string>, functions: seq<FunctionInfo>)
    returns (r: Result<seq<FunctionInfo>, PyError>)
    ensures r == ExtractFrom(functions, Preorder(node), filePath, lines)
    decreases node
  {
    ExtractFromAppend(functions, [node], PreorderAll(node.children), filePath, lines);
    var self := Select(node, filePath, lines, functions);
    if self.Err? {
      return self;
    }
    var acc := self.value;
    assert [node] + PreorderAll(node.children[..0]) == [node];
    var i := 0;
    while i < |node.children|
      invariant 0 <= i <= |node.children|
      invariant ExtractFrom(functions, [node] + PreorderAll(node.children[..i]), filePath, lines) == Ok(acc)
    {
      var child := node.children[i];
      var sub := Visit(child, filePath, lines, acc);
      VisitStep(functions, node, i, filePath, lines);
      if sub.Err? {
        VisitStepErr(functions, node, i, filePath, lines);
        return sub;
      }
      acc := sub.value;
      i := i + 1;
    }
    assert node.children[..i] == node.children;
    r := Ok(acc);
  }

  /** `out` is `functions` followed by one record per cursor of `sel`, in
      order. */
  function InfoMaker(lines: seq<string>): Cursor -> Result<FunctionInfo, PyError>
  {
    c => MakeInfo(c, lines)
  }

  predicate IsSelectionOf(out: seq<FunctionInfo>, functions: seq<FunctionInfo>, sel: seq<Cursor>, lines: seq<string>)
  {
    SelectionBy(InfoMaker(lines), out, functions, sel)
  }

  lemma SelectionCons(functions: seq<FunctionInfo>, f: FunctionInfo, out: seq<FunctionInfo>, c: Cursor, tail: seq<Cursor>, lines: seq<string>)
    requires MakeInfo(c, lines) == Ok(f)
    requires IsSelectionOf(out, functions + [f], tail, lines)
    ensures IsSelectionOf(out, functions, [c] + tail, lines)
  {
    SelectionByCons(InfoMaker(lines), functions, f, out, c, tail);
  }

  /** Only selected cursors produce records, one each, in traversal order,
      after the records already present. */
  lemma {:induction false} ExtractFromIsSelection(functions: seq<FunctionInfo>, ns: seq<Cursor>, filePath: string, lines: seq<string>)
    requires ExtractFrom(functions, ns, filePath, lines).Ok?
    ensures IsSelectionOf(ExtractFrom(functions, ns, filePath, lines).value, functions, Selected(ns, filePath), lines)
    decreases |ns|
  {
    if ns == [] {
      assert functions[..|functions|] == functions;
    } else if IsCollected(ns[0], filePath) {
      var f := MakeInfo(ns[0], lines).value;
      assert ExtractFrom(functions, ns, filePath, lines) == ExtractFrom(functions + [f], ns[1..], filePath, lines);
      ExtractFromIsSelection(functions + [f], ns[1..], filePath, lines);
      assert Selected(ns, filePath) == [ns[0]] + Selected(ns[1..], filePath);
      SelectionCons(functions, f, ExtractFrom(functions, ns, filePath, lines).value, ns[0], Selected(ns[1..], filePath), lines);
    } else {
      assert ExtractFrom(functions, ns, filePath, lines) == ExtractFrom(functions, ns[1..], filePath, lines);
      assert Selected(ns, filePath) == Selected(ns[1..], filePath);
      ExtractFromIsSelection(functions, ns[1..], filePath, lines);
    }
  }

  /** The script's main loop: every function gets the complexity of its
      retry loop; nothing else of a record changes. `analyze(k, a)` is the
      analyzer's reply for function `k` on call `a`. */
  method AssignComplexities(functions: seq<FunctionInfo>, analyze: (nat, nat) -> Reply) returns (out: seq<FunctionInfo>)
    ensures |out| == |functions|
    ensures forall k :: 0 <= k < |out| ==>
      out[k] == functions[k].(timeComplexity := FinalComplexity((a: nat) => analyze(k, a), functions[k].totalStatement, 0))
  {
    out := [];
    var index := 0;
    while index < |functions|
      invariant 0 <= index <= |functions| && |out| == index
      invariant forall k :: 0 <= k < index ==>
        out[k] == functions[k].(timeComplexity := FinalComplexity((a: nat) => analyze(k, a), functions[k].totalStatement, 0))
    {
      var func := functions[index];
      var reply := (a: nat) => analyze(index, a);
      var isSuccess, timeComplexity, calls := AnalyzeWithRetry(reply);
      FinalComplexityOfRetry(reply, func.totalStatement, isSuccess, timeComplexity, calls, 0);
      func := func.(timeComplexity := ComplexityAfterRetry(isSuccess, timeComplexity, func.totalStatement));
      out := out + [func];
      index := index + 1;
    }
  }

  /** An entry of `unique_functions`: key and the complexity text. */
  datatype Entry = Entry(key: string, complexity: string)

  /** The complexity `saveAsCppFile` records for a function: the analyzer's
      answer, or the statement count when there is none. */
  function EntryComplexity(f: FunctionInfo): string
  {
    ComplexityText(f.timeComplexity, f.totalStatement)
  }

  predicate HasKey(es: seq<Entry>, key: string)
  {
    exists i :: 0 <= i < |es| && es[i].key == key
  }

  /** `unique_functions` in insertion order after the loop over `fs`. */
  function UniqueEntries(fs: seq<FunctionInfo>): seq<Entry>
  {
    if fs == [] then []
    else
      var u := UniqueEntries(fs[..|fs| - 1]);
      var f := fs[|fs| - 1];
      if HasKey(u, f.functionNameWithParams) then u
      else u + [Entry(f.functionNameWithParams, EntryComplexity(f))]
  }

  predicate SomeFunctionHasKey(fs: seq<FunctionInfo>, key: string)
  {
    exists k :: 0 <= k < |fs| && fs[k].functionNameWithParams == key
  }

  /** Every key recorded belongs to some function, and every function's key
      is recorded. */
  lemma {:induction false} UniqueEntriesKeys(fs: seq<FunctionInfo>)
    ensures forall i :: 0 <= i < |UniqueEntries(fs)| ==> SomeFunctionHasKey(fs, UniqueEntries(fs)[i].key)
    ensures forall k :: 0 <= k < |fs| ==> HasKey(UniqueEntries(fs), fs[k].functionNameWithParams)
  {
    if fs != [] {
      var init := fs[..|fs| - 1];
      UniqueEntriesKeys(init);
      var u := UniqueEntries(init);
      var f := fs[|fs| - 1];
      var u' := UniqueEntries(fs);
      assert u' == if HasKey(u, f.functionNameWithParams) then u else u + [Entry(f.functionNameWithParams, EntryComplexity(f))];
      assert forall k :: 0 <= k < |init| ==> init[k] == fs[k];
      forall i | 0 <= i < |u'| ensures SomeFunctionHasKey(fs, u'[i].key) {
        if i < |u| {
          assert u'[i] == u[i];
          assert SomeFunctionHasKey(init, u[i].key);
          var k :| 0 <= k < |init| && init[k].functionNameWithParams == u[i].key;
          assert fs[k].functionNameWithParams == u'[i].key;
        } else {
          assert fs[|fs| - 1].functionNameWithParams == u'[i].key;
        }
      }
      forall k | 0 <= k < |fs| ensures HasKey(u', fs[k].functionNameWithParams) {
        if k < |init| {
          assert HasKey(u, init[k].functionNameWithParams);
          var i :| 0 <= i < |u| && u[i].key == init[k].functionNameWithParams;
          assert u'[i] == u[i];
          assert u'[i].key == fs[k].functionNameWithParams;
        } else if !HasKey(u, f.functionNameWithParams) {
          assert u'[|u|].key == f.functionNameWithParams;
        } else {
          var i :| 0 <= i < |u| && u[i].key == f.functionNameWithParams;
          assert u'[i].key == fs[k].functionNameWithParams;
        }
      }
    }
  }

  /** No key is recorded twice. */
  lemma {:induction false} UniqueEntriesDistinct(fs: seq<FunctionInfo>)
    ensures forall i, j :: 0 <= i < j < |UniqueEntries(fs)| ==> UniqueEntries(fs)[i].key != UniqueEntries(fs)[j].key
  {
    if fs != [] {
      var init := fs[..|fs| - 1];
      UniqueEntriesDistinct(init);
      var u := UniqueEntries(init);
      var f := fs[|fs| - 1];
      if !HasKey(u, f.functionNameWithParams) {
        assert forall i :: 0 <= i < |u| ==> u[i].key != f.functionNameWithParams;
      }
    }
  }

  /** No function before the `k`-th carries its key. */
  predicate FirstWithKey(fs: seq<FunctionInfo>, k: nat)
    requires k < |fs|
  {
    forall m :: 0 <= m < k ==> fs[m].functionNameWithParams != fs[k].functionNameWithParams
  }

  /** A key's complexity is that of the first function carrying the key;
      later duplicates are dropped. */
  lemma UniqueEntriesFirstWins(fs: seq<FunctionInfo>)
    ensures forall k, i ::
      (0 <= k < |fs| && 0 <= i < |UniqueEntries(fs)| && FirstWithKey(fs, k) && UniqueEntries(fs)[i].key == fs[k].functionNameWithParams)
      ==> UniqueEntries(fs)[i].complexity == EntryComplexity(fs[k])
  {
    forall k, i | 0 <= k < |fs| && 0 <= i < |UniqueEntries(fs)| && FirstWithKey(fs, k) && UniqueEntries(fs)[i].key == fs[k].functionNameWithParams
      ensures UniqueEntries(fs)[i].complexity == EntryComplexity(fs[k])
    {
      FirstWinsAt(fs, k, i);
    }
  }

  lemma {:induction false} FirstWinsAt(fs: seq<FunctionInfo>, k: nat, i: nat)
    requires k < |fs| && i < |UniqueEntries(fs)| && FirstWithKey(fs, k)
    requires UniqueEntries(fs)[i].key == fs[k].functionNameWithParams
    ensures UniqueEntries(fs)[i].complexity == EntryComplexity(fs[k])
  {
    var init := fs[..|fs| - 1];
    var u := UniqueEntries(init);
    var f := fs[|fs| - 1];
    assert UniqueEntries(fs) == if HasKey(u, f.functionNameWithParams) then u else u + [Entry(f.functionNameWithParams, EntryComplexity(f))];
    if k < |init| {
      UniqueEntriesKeys(init);
      assert init[k] == fs[k];
      assert HasKey(u, init[k].functionNameWithParams);
      assert i < |u| && UniqueEntries(fs)[i] == u[i];
      assert FirstWithKey(init, k) by {
        forall m | 0 <= m < k ensures init[m].functionNameWithParams != init[k].functionNameWithParams {
          assert init[m] == fs[m];
        }
      }
      FirstWinsAt(init, k, i);
    } else {
      FirstKeyIsNew(fs, k);
      assert i == |u|;
    }
  }

  /** The first function with its key finds no entry for it among the
      entries of the functions before it. */
  lemma FirstKeyIsNew(fs: seq<FunctionInfo>, k: nat)
    requires k == |fs| - 1 && FirstWithKey(fs, k)
    ensures !HasKey(UniqueEntries(fs[..k]), fs[k].functionNameWithParams)
  {
    var init := fs[..k];
    var u := UniqueEntries(init);
    var key := fs[k].functionNameWithParams;
    UniqueEntriesKeys(init);
    forall j | 0 <= j < |u| ensures u[j].key != key {
      assert SomeFunctionHasKey(init, u[j].key);
      forall m | 0 <= m < |init| ensures init[m].functionNameWithParams != key {
        assert init[m] == fs[m];
      }
    }
  }

  /** The lines of the header literal before the map entries. */
  const MapPrelude: seq<string> := [
    "#ifndef CPP_FUNCTIONS_H",
    "#define CPP_FUNCTIONS_H",
    "",
    "#include <unordered_map>",
    "#include <unordered_set>",
    "#include <string>",
    "",
    "inline const std::" + "unordered_map<std::string, " + "std::string> cppFunctionsMap = {"]

  /** The lines between the map entries and the name entries. */
  const SetPrelude: seq<string> := [
    "};",
    "",
    "inline const std::" + "unordered_set<std::string> " + "cppFunctionNamesSet = {"]

  /** The closing lines: `'};\n\n'` then `'#endif\n'`. */
  const Closing: seq<string> := ["};", "", "#endif"]

  function EntryLine(e: Entry): string
  {
    "    {\"" + e.key + "\", \"" + e.complexity + "\"},"
  }

  function NameLine(name: string): string
  {
    "    \"" + name + "\","
  }

  function EntryLines(es: seq<Entry>): (ls: seq<string>)
    ensures |ls| == |es| && forall i :: 0 <= i < |es| ==> ls[i] == EntryLine(es[i])
  {
    if es == [] then [] else [EntryLine(es[0])] + EntryLines(es[1..])
  }

  function NameLines(ns: seq<string>): (ls: seq<string>)
    ensures |ls| == |ns| && forall i :: 0 <= i < |ns| ==> ls[i] == NameLine(ns[i])
  {
    if ns == [] then [] else [NameLine(ns[0])] + NameLines(ns[1..])
  }

  /** The generated header as a list of lines. */
  function HeaderLines(es: seq<Entry>, names: seq<string>): seq<string>
  {
    MapPrelude + EntryLines(es) + SetPrelude + NameLines(names) + Closing
  }

  function Names(fs: seq<FunctionInfo>): set<string>
  {
    set f | f in fs :: f.functionName
  }

  /** A dictionary with its insertion order holds exactly the entries `es`. */
  ghost predicate Mirrors(dict: map<string, string>, keys: seq<string>, es: seq<Entry>)
  {
    && |keys| == |es|
    && (forall j :: 0 <= j < |keys| ==> keys[j] == es[j].key && keys[j] in dict && dict[keys[j]] == es[j].complexity)
    && (forall k :: k in dict <==> HasKey(es, k))
  }

  lemma MirrorsInsert(dict: map<string, string>, keys: seq<string>, es: seq<Entry>, key: string, complexity: string)
    requires Mirrors(dict, keys, es) && key !in dict
    ensures Mirrors(dict[key := complexity], keys + [key], es + [Entry(key, complexity)])
  {
    var es' := es + [Entry(key, complexity)];
    forall k ensures k in dict[key := complexity] <==> HasKey(es', k) {
      if HasKey(es, k) {
        var m :| 0 <= m < |es| && es[m].key == k;
        assert es'[m] == es[m];
      }
      if HasKey(es', k) && k != key {
        var m :| 0 <= m < |es'| && es'[m].key == k;
        assert es'[m] == es[m];
      }
      assert es'[|es|].key == key;
    }
  }

  lemma UniqueEntriesSnoc(fs: seq<FunctionInfo>, i: nat)
    requires i < |fs|
    ensures UniqueEntries(fs[..i + 1]) ==
      var u := UniqueEntries(fs[..i]);
      if HasKey(u, fs[i].functionNameWithParams) then u
      else u + [Entry(fs[i].functionNameWithParams, EntryComplexity(fs[i]))]
  {
    assert fs[..i + 1][..i] == fs[..i];
  }

  lemma NamesSnoc(fs: seq<FunctionInfo>, i: nat)
    requires i < |fs|
    ensures Names(fs[..i + 1]) == Names(fs[..i]) + {fs[i].functionName}
  {
    assert fs[..i + 1] == fs[..i] + [fs[i]];
  }

  /** The loop of `saveAsCppFile` over `functions`: `unique_functions` (a
      map plus its insertion order) and `function_names_set`. */
  method CollectUnique(functions: seq<FunctionInfo>)
    returns (uniqueFunctions: map<string, string>, keyOrder: seq<string>, functionNamesSet: set<string>)
    ensures |keyOrder| == |UniqueEntries(functions)|
    ensures forall j :: 0 <= j < |keyOrder| ==>
      keyOrder[j] == UniqueEntries(functions)[j].key && keyOrder[j] in uniqueFunctions
      && uniqueFunctions[keyOrder[j]] == UniqueEntries(functions)[j].complexity
    ensures forall k :: k in uniqueFunctions <==> HasKey(UniqueEntries(functions), k)
    ensures functionNamesSet == Names(functions)
  {
    uniqueFunctions := map[];
    keyOrder := [];
    functionNamesSet := {};
    var i := 0;
    while i < |functions|
      invariant 0 <= i <= |functions|
      invariant Mirrors(uniqueFunctions, keyOrder, UniqueEntries(functions[..i]))
      invariant functionNamesSet == Names(functions[..i])
    {
      var func := functions[i];
      var key := func.functionNameWithParams;
      UniqueEntriesSnoc(functions, i);
      NamesSnoc(functions, i);
      if key !in uniqueFunctions {
        var complexity := EntryComplexity(func);
        MirrorsInsert(uniqueFunctions, keyOrder, UniqueEntries(functions[..i]), key, complexity);
        uniqueFunctions := uniqueFunctions[key := complexity];
        keyOrder := keyOrder + [key];
      }
      functionNamesSet := functionNamesSet + {func.functionName};
      i := i + 1;
    }
    assert functions[..i] == functions;
  }

  /** The entries of a key order, with their recorded complexities. */
  function EntriesOf(keys: seq<string>, dict: map<string, string>): (es: seq<Entry>)
    requires forall j :: 0 <= j < |keys| ==> keys[j] in dict
    ensures |es| == |keys| && forall j :: 0 <= j < |keys| ==> es[j] == Entry(keys[j], dict[keys[j]])
  {
    if keys == [] then [] else [Entry(keys[0], dict[keys[0]])] + EntriesOf(keys[1..], dict)
  }

  /** The loop of `saveAsCppFile` over `unique_functions.items()`. */
  method WriteEntries(keyOrder: seq<string>, uniqueFunctions: map<string, string>) returns (text: string)
    requires forall j :: 0 <= j < |keyOrder| ==> keyOrder[j] in uniqueFunctions
    ensures text == JoinLines(EntryLines(EntriesOf(keyOrder, uniqueFunctions)))
  {
    ghost var es := EntriesOf(keyOrder, uniqueFunctions);
    text := "";
    var j := 0;
    while j < |keyOrder|
      invariant 0 <= j <= |keyOrder|
      invariant text == JoinLines(EntryLines(es[..j]))
    {
      var key := keyOrder[j];
      var line := EntryLine(Entry(key, uniqueFunctions[key]));
      JoinLinesSnoc(EntryLines(es[..j]), line);
      EntryLinesSnoc(es, j);
      text := text + line + "\n";
      j := j + 1;
    }
    assert es[..j] == es;
  }

  /** The loop of `saveAsCppFile` over `function_names_set`. */
  method WriteNames(nameOrder: seq<string>) returns (text: string)
    ensures text == JoinLines(NameLines(nameOrder))
  {
    text := "";
    var n := 0;
    while n < |nameOrder|
      invariant 0 <= n <= |nameOrder|
      invariant text == JoinLines(NameLines(nameOrder[..n]))
    {
      var line := NameLine(nameOrder[n]);
      JoinLinesSnoc(NameLines(nameOrder[..n]), line);
      NameLinesSnoc(nameOrder, n);
      text := text + line + "\n";
      n := n + 1;
    }
    assert nameOrder[..n] == nameOrder;
  }

  /** `saveAsCppFile(functions)`, returning the header text instead of
      writing it. `nameOrder` is the iteration order of the Python set of
      plain names, which the language leaves unspecified: it lists each
      name once. */
  method SaveAsCppFile(functions: seq<FunctionInfo>, nameOrder: seq<string>) returns (headerContent: string)
    requires forall n :: n in nameOrder <==> n in Names(functions)
    requires forall i, j :: 0 <= i < j < |nameOrder| ==> nameOrder[i] != nameOrder[j]
    ensures headerContent == JoinLines(HeaderLines(UniqueEntries(functions), nameOrder))
  {
    var uniqueFunctions, keyOrder, functionNamesSet := CollectUnique(functions);
    var entries := WriteEntries(keyOrder, uniqueFunctions);
    var names := WriteNames(nameOrder);
    ghost var es := UniqueEntries(functions);
    assert EntriesOf(keyOrder, uniqueFunctions) == es;
    headerContent := JoinLines(MapPrelude) + entries + JoinLines(SetPrelude) + names + "};\n\n" + "#endif\n";
    HeaderText(es, nameOrder);
  }

  lemma HeaderText(es: seq<Entry>, names: seq<string>)
    ensures JoinLines(HeaderLines(es, names)) ==
      JoinLines(MapPrelude) + JoinLines(EntryLines(es)) + JoinLines(SetPrelude) + JoinLines(NameLines(names)) + "};\n\n" + "#endif\n"
  {
    var a := JoinLines(MapPrelude) + JoinLines(EntryLines(es)) + JoinLines(SetPrelude) + JoinLines(NameLines(names));
    ClosingText();
    JoinLinesAppend(MapPrelude, EntryLines(es));
    JoinLinesAppend(MapPrelude + EntryLines(es), SetPrelude);
    JoinLinesAppend(MapPrelude + EntryLines(es) + SetPrelude, NameLines(names));
    JoinLinesAppend(MapPrelude + EntryLines(es) + SetPrelude + NameLines(names), Closing);
    assert a + ("};\n\n" + "#endif\n") == a + "};\n\n" + "#endif\n";
  }

  lemma ClosingText()
    ensures JoinLines(Closing) == "};\n\n" + "#endif\n"
  {
    assert Closing[1..] == ["", "#endif"];
    assert Closing[1..][1..] == ["#endif"];
    assert Closing[1..][1..][1..] == [];
  }

  lemma EntryLinesSnoc(es: seq<Entry>, j: nat)
    requires j < |es|
    ensures EntryLines(es[..j + 1]) == EntryLines(es[..j]) + [EntryLine(es[j])]
  {
    assert |EntryLines(es[..j + 1])| == j + 1;
  }

  lemma NameLinesSnoc(ns: seq<string>, j: nat)
    requires j < |ns|
    ensures NameLines(ns[..j + 1]) == NameLines(ns[..j]) + [NameLine(ns[j])]
  {
    assert |NameLines(ns[..j + 1])| == j + 1;
  }

  lemma GuardLinesNoNewline()
    ensures NoNewline("#ifndef CPP_FUNCTIONS_H") && NoNewline("#define CPP_FUNCTIONS_H") && NoNewline("#endif")
    ensures NoNewline("") && NoNewline("};")
  {
  }

  lemma IncludeLinesNoNewline()
    ensures NoNewline("#include <unordered_map>") && NoNewline("#include <unordered_set>")
    ensures NoNewline("#include <string>")
  {
  }

  lemma MapLineNoNewline()
    ensures NoNewline(MapPrelude[7])
  {
    assert NoNewline("inline const std::");
    assert NoNewline("unordered_map<std::string, ");
    assert NoNewline("std::string> cppFunctionsMap = {");
    NoNewlineConcat("inline const std::", "unordered_map<std::string, ");
    NoNewlineConcat("inline const std::" + "unordered_map<std::string, ", "std::string> cppFunctionsMap = {");
  }

  lemma SetLineNoNewline()
    ensures NoNewline(SetPrelude[2])
  {
    assert NoNewline("inline const std::");
    assert NoNewline("unordered_set<std::string> ");
    assert NoNewline("cppFunctionNamesSet = {");
    NoNewlineConcat("inline const std::", "unordered_set<std::string> ");
    NoNewlineConcat("inline const std::" + "unordered_set<std::string> ", "cppFunctionNamesSet = {");
  }

  lemma FixedLinesNoNewline()
    ensures AllNoNewline(MapPrelude) && AllNoNewline(SetPrelude) && AllNoNewline(Closing)
  {
    GuardLinesNoNewline();
    IncludeLinesNoNewline();
    MapLineNoNewline();
    SetLineNoNewline();
  }

  /** Read back line by line, the header is the prelude, one line per unique
      key, the set prelude, one line per name and the closing lines, as long
      as no key, complexity or name contains a newline. */
  lemma HeaderLinesRoundTrip(fs: seq<FunctionInfo>, nameOrder: seq<string>)
    requires forall f :: f in fs ==> NoNewline(f.functionNameWithParams) && NoNewline(EntryComplexity(f))
    requires forall n :: n in nameOrder ==> NoNewline(n)
    ensures SplitLines(JoinLines(HeaderLines(UniqueEntries(fs), nameOrder))) == HeaderLines(UniqueEntries(fs), nameOrder) + [""]
  {
    var es := UniqueEntries(fs);
    UniqueEntriesKeys(fs);
    forall i | 0 <= i < |es| ensures NoNewline(EntryLines(es)[i]) {
      assert SomeFunctionHasKey(fs, es[i].key);
      var k :| 0 <= k < |fs| && fs[k].functionNameWithParams == es[i].key;
      assert fs[k] in fs;
      EntryComplexityNoNewline(fs, es, i);
      NoNewlineConcat("    {\"", es[i].key);
      NoNewlineConcat("    {\"" + es[i].key, "\", \"");
      NoNewlineConcat("    {\"" + es[i].key + "\", \"", es[i].complexity);
      NoNewlineConcat("    {\"" + es[i].key + "\", \"" + es[i].complexity, "\"},");
    }
    forall i | 0 <= i < |nameOrder| ensures NoNewline(NameLines(nameOrder)[i]) {
      assert nameOrder[i] in nameOrder;
      NoNewlineConcat("    \"", nameOrder[i]);
      NoNewlineConcat("    \"" + nameOrder[i], "\",");
    }
    FixedLinesNoNewline();
    AllNoNewlineAppend(MapPrelude, EntryLines(es));
    AllNoNewlineAppend(MapPrelude + EntryLines(es), SetPrelude);
    AllNoNewlineAppend(MapPrelude + EntryLines(es) + SetPrelude, NameLines(nameOrder));
    AllNoNewlineAppend(MapPrelude + EntryLines(es) + SetPrelude + NameLines(nameOrder), Closing);
    SplitJoinLines(HeaderLines(es, nameOrder));
  }

  lemma {:induction false} EntryComplexityNoNewline(fs: seq<FunctionInfo>, es: seq<Entry>, i: nat)
    requires es == UniqueEntries(fs) && i < |es|
    requires forall f :: f in fs ==> NoNewline(EntryComplexity(f))
    ensures NoNewline(es[i].complexity)
  {
    var init := fs[..|fs| - 1];
    var u := UniqueEntries(init);
    forall f | f in init ensures NoNewline(EntryComplexity(f)) {
      var k :| 0 <= k < |init| && init[k] == f;
      assert fs[k] == f;
    }
    if i < |u| {
      EntryComplexityNoNewline(init, u, i);
    } else {
      assert fs[|fs| - 1] in fs;
    }
  }
}

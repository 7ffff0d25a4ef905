/** call_graph/FunctionCollector.cpp: the registry of user-defined function
    names. It is handed every function declaration of the main file, in
    matching order, and keeps the names of those declarations that are
    definitions; the rewriter's collected set is this set. */
module FunctionCollector {
  import opened Common
  import opened ClangAst

  /** The names of the declarations, among `ds`, that are definitions. */
  function DefinedNames(ds: seq<FunctionDecl>): set<string>
  {
    if ds == [] then {}
    else DefinedNames(ds[..|ds| - 1]) + (if ds[|ds| - 1].isDefinition then {ds[|ds| - 1].name} else {})
  }

  /** A name is collected exactly when some declaration of it is a
      definition; prototypes alone never put a name in the set. */
  lemma {:induction false} DefinedNamesSpec(ds: seq<FunctionDecl>, name: string)
    ensures name in DefinedNames(ds) <==> exists i :: 0 <= i < |ds| && ds[i].isDefinition && ds[i].name == name
  {
    if ds != [] {
      var init := ds[..|ds| - 1];
      DefinedNamesSpec(init, name);
      if exists i :: 0 <= i < |init| && init[i].isDefinition && init[i].name == name {
        var i :| 0 <= i < |init| && init[i].isDefinition && init[i].name == name;
        assert ds[i] == init[i];
      }
      if exists i :: 0 <= i < |ds| && ds[i].isDefinition && ds[i].name == name {
        var i :| 0 <= i < |ds| && ds[i].isDefinition && ds[i].name == name;
        if i < |init| {
          assert init[i] == ds[i];
        }
      }
    }
  }

  class FunctionCollector {
    var sourceFilePath: string
    var userDefinedFunctions: set<string>

    /** A fresh collector has no path and no names; it does not traverse. */
    constructor()
      ensures sourceFilePath == "" && userDefinedFunctions == {}
    {
      sourceFilePath := "";
      userDefinedFunctions := {};
    }

    /** The match callback: the name goes in only for a definition; the set
        only grows, and inserting a name already present leaves it as it
        was. */
    method Run(fd: FunctionDecl)
      modifies this
      ensures userDefinedFunctions == old(userDefinedFunctions) + (if fd.isDefinition then {fd.name} else {})
      ensures old(userDefinedFunctions) <= userDefinedFunctions
      ensures fd.name in old(userDefinedFunctions) ==> userDefinedFunctions == old(userDefinedFunctions)
      ensures sourceFilePath == old(sourceFilePath)
    {
      if fd.isDefinition {
        userDefinedFunctions := userDefinedFunctions + {fd.name};
      }
    }

    /** `executeASTTraversal`. `parsed` is the outcome of parsing the stored
        path: the main file's function declarations in matching order, or
        `None` when the options parser fails. With no path set it reports
        an error and collects nothing. */
    method ExecuteASTTraversal(parsed: Option<seq<FunctionDecl>>) returns (reportedError: bool)
      modifies this
      ensures reportedError <==> old(sourceFilePath) == ""
      ensures sourceFilePath == old(sourceFilePath)
      ensures userDefinedFunctions ==
        if old(sourceFilePath) == "" || parsed.None? then old(userDefinedFunctions)
        else old(userDefinedFunctions) + DefinedNames(parsed.value)
    {
      if sourceFilePath == "" {
        return true;
      }
      reportedError := false;
      if parsed.None? {
        return;
      }
      var decls := parsed.value;
      var i := 0;
      while i < |decls|
        invariant 0 <= i <= |decls|
        invariant sourceFilePath == old(sourceFilePath)
        invariant userDefinedFunctions == old(userDefinedFunctions) + DefinedNames(decls[..i])
      {
        Run(decls[i]);
        assert decls[..i + 1][..i] == decls[..i];
        i := i + 1;
      }
      assert decls[..i] == decls;
    }

    /** `setSourceFile`: overwrite the path, then traverse. */
    method SetSourceFile(filePath: string, parsed: Option<seq<FunctionDecl>>) returns (reportedError: bool)
      modifies this
      ensures sourceFilePath == filePath
      ensures reportedError <==> filePath == ""
      ensures userDefinedFunctions ==
        if filePath == "" || parsed.None? then old(userDefinedFunctions)
        else old(userDefinedFunctions) + DefinedNames(parsed.value)
    {
      sourceFilePath := filePath;
      reportedError := ExecuteASTTraversal(parsed);
    }

    /** `getCollectedFunctions`: the accumulated set, read only. */
    method GetCollectedFunctions() returns (functions: set<string>)
      ensures functions == userDefinedFunctions
    {
      functions := userDefinedFunctions;
    }
  }
}

/**
 * What the two builders share: the artifact's name, cleaning the output
 * directory, unpacking the configured entry point, the text of the generated
 * `__main__.py`, and the shebang line put in front of the archive.
 */
module Artifacts {
  import opened Wrappers
  import opened Strings
  import opened Os
  import opened Zip
  import Utils
  import Config

  /** A file `recurse_included_files` yields: where it is on disk and its path inside the archive. */
  datatype IncludedFile = IncludedFile(path: Path, distributionPath: string)

  // ================================================================ the artifact

  /** `f"{project_name}-{version}.pyz"`. */
  function ArtifactName(projectName: string, version: string): (n: string)
    ensures StartsWith(n, projectName + "-")
    ensures EndsWith(n, ".pyz")
    ensures |n| == |projectName| + |version| + 5 && n[|projectName| + 1..|n| - 4] == version
  {
    assert projectName + "-" + version + ".pyz" == (projectName + "-") + (version + ".pyz");
    EndsWithConcat(projectName + "-" + version, ".pyz");
    projectName + "-" + version + ".pyz"
  }

  /**
   * `pathlib` sees `.pyz` as the artifact's suffix, whatever dots the name and
   * version hold, so the temporary file `atomic_write` makes beside it ends in `.pyz` too.
   */
  lemma ArtifactSuffix(projectName: string, version: string)
    ensures Utils.Suffix(ArtifactName(projectName, version)) == ".pyz"
  {
    var n := ArtifactName(projectName, version);
    var i := |n| - 4;
    assert n[i..] == ".pyz";
    assert n[i] == '.' && '.' !in n[i + 1..] by {
      assert n[i + 1..] == "pyz";
    }
    assert 0 < i < |n| - 1;
    var r := Utils.Suffix(n);
    assert r != [];
    assert |r| == 4;
  }

  /** An entry of a directory listing that `clean` removes. */
  predicate IsArtifact(p: Path, directory: seq<string>)
  {
    p.dir == directory && EndsWith(p.name, ".pyz")
  }

  /** `nodes` without the artifacts of `directory` except those whose name is in `spared`. */
  function CleanedExcept(nodes: Nodes, directory: seq<string>, spared: set<string>): Nodes
  {
    map p | p in nodes && !(IsArtifact(p, directory) && p.name !in spared) :: nodes[p]
  }

  /** What `clean` leaves: every entry of `directory` whose name ends with `.pyz` is gone. */
  function Cleaned(nodes: Nodes, directory: seq<string>): (r: Nodes)
    ensures forall p :: p in r <==> p in nodes && !IsArtifact(p, directory)
    ensures forall p :: p in r ==> r[p] == nodes[p]
  {
    CleanedExcept(nodes, directory, {})
  }

  /** `a` is `b` with some paths removed. */
  predicate Restricts(a: Nodes, b: Nodes)
  {
    forall p :: p in a ==> p in b && a[p] == b[p]
  }

  /** Cleaning twice removes nothing more. */
  lemma CleanIdempotent(nodes: Nodes, directory: seq<string>)
    ensures Cleaned(Cleaned(nodes, directory), directory) == Cleaned(nodes, directory)
  {
    var once := Cleaned(nodes, directory);
    assert Cleaned(once, directory).Keys == once.Keys;
  }

  /** The artifact a build writes into `directory` is one that cleaning removes. */
  lemma CleanRemovesArtifact(nodes: Nodes, directory: seq<string>, projectName: string, version: string)
    ensures Path(directory, ArtifactName(projectName, version)) !in Cleaned(nodes, directory)
  {
    assert IsArtifact(Path(directory, ArtifactName(projectName, version)), directory);
  }

  /**
   * `clean(directory, versions)`: removes every entry of the directory whose name
   * ends with `.pyz`, in listing order, whatever the versions. `os.listdir` raises
   * for a missing directory or a file; `os.remove` raises for a directory named
   * `*.pyz`, after the entries removed before it are gone.
   */
  method Clean(fs: FileSystem, directory: seq<string>) returns (r: Outcome<Error>)
    modifies fs
    ensures !IsDirectory(old(fs.nodes), directory) ==>
      r == Fail(ListdirError(old(fs.nodes), directory)) && fs.nodes == old(fs.nodes)
    ensures r.Pass? <==>
      (IsDirectory(old(fs.nodes), directory)
       && forall p :: p in old(fs.nodes) && IsArtifact(p, directory) ==> old(fs.nodes)[p].File?)
    ensures r.Pass? ==> fs.nodes == Cleaned(old(fs.nodes), directory)
    ensures r.Fail? ==> Restricts(fs.nodes, old(fs.nodes)) && Restricts(Cleaned(old(fs.nodes), directory), fs.nodes)
    ensures r.Fail? && IsDirectory(old(fs.nodes), directory) ==>
      exists q :: q in old(fs.nodes) && IsArtifact(q, directory) && old(fs.nodes)[q].Directory?
                  && r == Fail(IsADirectoryError(q))
  {
    if !IsDirectory(fs.nodes, directory) {
      return Fail(ListdirError(fs.nodes, directory));
    }
    ghost var before := fs.nodes;
    var names := set p | p in fs.nodes && p.dir == directory :: p.name;
    var todo := names;
    assert fs.nodes == CleanedExcept(before, directory, todo);
    while todo != {}
      invariant todo <= names
      invariant fs.nodes == CleanedExcept(before, directory, todo)
      invariant forall p :: p in before && IsArtifact(p, directory) && p.name !in todo ==> before[p].File?
      decreases todo
    {
      var name :| name in todo;
      var p := Path(directory, name);
      assert p in before;
      todo := todo - {name};
      if EndsWith(name, ".pyz") {
        var removed := fs.Unlink(p);
        if removed.Fail? {
          return removed;
        }
        assert fs.nodes == CleanedExcept(before, directory, todo);
      } else {
        assert CleanedExcept(before, directory, todo) == CleanedExcept(before, directory, todo + {name});
      }
    }
    r := Pass;
  }

  // ================================================================ the archive's entries

  /**
   * The entries one `add_file` call per included file appends, in order, given
   * what each call appends or raises: the first call that raises ends the loop.
   */
  function AddAll(files: seq<IncludedFile>, add: IncludedFile -> Result<Entry, Error>): Result<seq<Entry>, Error>
  {
    if files == [] then Ok([])
    else
      match AddAll(files[..|files| - 1], add)
      case Err(e) => Err(e)
      case Ok(es) =>
        match add(files[|files| - 1])
        case Err(e) => Err(e)
        case Ok(entry) => Ok(es + [entry])
  }

  /** All files are added exactly when each one can be, and then entry `i` is the one for file `i`. */
  lemma {:induction false} AddAllOk(files: seq<IncludedFile>, add: IncludedFile -> Result<Entry, Error>)
    ensures AddAll(files, add).Ok? <==> forall i :: 0 <= i < |files| ==> add(files[i]).Ok?
    ensures AddAll(files, add).Ok? ==>
      |AddAll(files, add).value| == |files|
      && forall i :: 0 <= i < |files| ==> AddAll(files, add).value[i] == add(files[i]).value
    decreases |files|
  {
    if files != [] {
      var init := files[..|files| - 1];
      AddAllOk(init, add);
      assert forall i :: 0 <= i < |init| ==> init[i] == files[i];
    }
  }

  /** When adding fails, the error is that of the first file that cannot be added. */
  lemma {:induction false} AddAllFirstError(files: seq<IncludedFile>, add: IncludedFile -> Result<Entry, Error>)
    requires AddAll(files, add).Err?
    ensures exists k :: 0 <= k < |files| && add(files[k]).Err? && AddAll(files, add).error == add(files[k]).error
                        && forall j :: 0 <= j < k ==> add(files[j]).Ok?
    decreases |files|
  {
    var init := files[..|files| - 1];
    assert forall i :: 0 <= i < |init| ==> init[i] == files[i];
    if AddAll(init, add).Err? {
      AddAllFirstError(init, add);
      var k :| 0 <= k < |init| && add(init[k]).Err? && AddAll(init, add).error == add(init[k]).error
               && forall j :: 0 <= j < k ==> add(init[j]).Ok?;
      assert add(files[k]).Err?;
    } else {
      AddAllOk(init, add);
      var k := |files| - 1;
      assert forall j :: 0 <= j < k ==> add(files[j]).Ok?;
    }
  }

  /** Two ways of adding that agree on every file give the same entries. */
  lemma {:induction false} AddAllAgree(files: seq<IncludedFile>, add: IncludedFile -> Result<Entry, Error>,
                                       add': IncludedFile -> Result<Entry, Error>)
    requires forall i :: 0 <= i < |files| ==> add(files[i]) == add'(files[i])
    ensures AddAll(files, add) == AddAll(files, add')
    decreases |files|
  {
    if files != [] {
      var init := files[..|files| - 1];
      assert forall i :: 0 <= i < |init| ==> init[i] == files[i];
      AddAllAgree(init, add, add');
    }
  }

  /** Two filesystems hold the same included sources: same kind, bytes and mode, whatever their times. */
  predicate SameSources(nodes: Nodes, nodes': Nodes, files: seq<IncludedFile>)
  {
    forall i :: 0 <= i < |files| ==>
      (files[i].path in nodes <==> files[i].path in nodes')
      && (files[i].path in nodes ==>
            (nodes[files[i].path].File? <==> nodes'[files[i].path].File?)
            && (nodes[files[i].path].File? ==>
                  nodes[files[i].path].content == nodes'[files[i].path].content
                  && nodes[files[i].path].mode == nodes'[files[i].path].mode))
  }

  /** Once a prefix of the files fails, so do all the files. */
  lemma {:induction false} AddAllAfterError(files: seq<IncludedFile>, k: nat, add: IncludedFile -> Result<Entry, Error>)
    requires k <= |files| && AddAll(files[..k], add).Err?
    ensures AddAll(files, add) == AddAll(files[..k], add)
    decreases |files| - k
  {
    if k < |files| {
      assert files[..k + 1][..k] == files[..k];
      AddAllAfterError(files, k + 1, add);
    } else {
      assert files[..k] == files;
    }
  }

  /** One more file: the loop's step. */
  lemma AddAllStep(files: seq<IncludedFile>, i: nat, add: IncludedFile -> Result<Entry, Error>)
    requires i < |files| && AddAll(files[..i], add).Ok?
    ensures AddAll(files[..i + 1], add)
         == match add(files[i]) case Err(e) => Err(e) case Ok(entry) => Ok(AddAll(files[..i], add).value + [entry])
  {
    assert files[..i + 1][..i] == files[..i];
  }

  // ================================================================ the entry point

  /**
   * `module, function = main.split(":")`: the unpacking raises `ValueError`
   * unless the entry point holds exactly one colon.
   */
  function SplitMain(main: string): (r: Result<(string, string), Error>)
    ensures r.Ok? <==> Count(main, ':') == 1
    ensures r.Ok? ==> r.value.0 + ":" + r.value.1 == main && ':' !in r.value.0 && ':' !in r.value.1
  {
    var parts := Split(main, ':');
    SplitLength(main, ':');
    JoinSplit(main, ':');
    if |parts| == 2 then
      assert Join(parts, ":") == parts[0] + ":" + Join(parts[1..], ":");
      Ok((parts[0], parts[1]))
    else if |parts| < 2 then Err(ValueError("not enough values to unpack (expected 2, got 1)"))
    else Err(ValueError("too many values to unpack (expected 2)"))
  }

  /** A validated entry point always unpacks, into a module path and a callable name. */
  lemma ValidMainSplits(main: string)
    requires Config.IsEntryPoint(main)
    ensures SplitMain(main).Ok?
    ensures Config.IsModulePath(SplitMain(main).value.0) && Config.IsWord(SplitMain(main).value.1)
  {
    Config.EntryPointSplit(main);
    SplitLength(main, ':');
  }

  /**
   * A `main` the as-written pattern accepts also unpacks: into a module path
   * and a callable name, the name followed by the final line feed when the
   * pattern's `$` matched before one.
   */
  lemma AsWrittenMainSplits(main: string)
    requires Config.MatchesMainPatternAsWritten(main)
    ensures SplitMain(main).Ok?
    ensures Config.IsModulePath(SplitMain(main).value.0)
    ensures Config.AsWrittenCallable(main, SplitMain(main).value.1)
  {
    if Config.IsEntryPoint(main) {
      ValidMainSplits(main);
    } else {
      var t := main[..|main| - 1];
      assert main == t + "\n";
      ValidMainSplits(t);
      var (a, b) := SplitMain(t).value;
      CountConcat(t, "\n", ':');
      assert Count("\n", ':') == 0;
      var (p, q) := SplitMain(main).value;
      assert a + ":" + (b + "\n") == main;
      SeparatedUnique(p, q, a, b + "\n", ':');
      assert q[..|q| - 1] == b;
    }
  }

  /** The generated `__main__.py`: the coding line, the import, and the call, joined by line feeds. */
  function DunderMainText(moduleName: string, callable: string): string
  {
    Join(["# -*- coding: utf-8 -*-", "import " + moduleName, moduleName + "." + callable + "()"], "\n")
  }

  /** For names without line feeds, the script is exactly three lines: coding line, import, call. */
  lemma DunderMainLines(moduleName: string, callable: string)
    requires '\n' !in moduleName && '\n' !in callable
    ensures Split(DunderMainText(moduleName, callable), '\n')
         == ["# -*- coding: utf-8 -*-", "import " + moduleName, moduleName + "." + callable + "()"]
  {
    var lines := ["# -*- coding: utf-8 -*-", "import " + moduleName, moduleName + "." + callable + "()"];
    forall i | 0 <= i < 3 ensures '\n' !in lines[i] {
      NoNewlineConcat("import ", moduleName);
      NoNewlineConcat(moduleName + ".", callable + "()");
      NoNewlineConcat(moduleName, ".");
      NoNewlineConcat(callable, "()");
      assert moduleName + "." + callable + "()" == (moduleName + ".") + (callable + "()");
    }
    SplitJoin(lines, '\n');
  }

  lemma NoNewlineConcat(a: string, b: string)
    requires '\n' !in a && '\n' !in b
    ensures '\n' !in a + b
  {
    assert forall i :: 0 <= i < |a + b| ==> (a + b)[i] == if i < |a| then a[i] else b[i - |a|];
  }

  // ================================================================ the shebang

  /** `b"#!" + interpreter.encode(encoding) + b"\n"`, with UTF-8 as the encoding. */
  function Shebang(interpreter: string): (b: seq<byte>)
    ensures |b| >= 3 && b[0] == 0x23 && b[1] == 0x21 && b[|b| - 1] == 10
    ensures b[2..|b| - 1] == Utf8(interpreter)
  {
    AsciiBytes("#!") + Utf8(interpreter) + [10]
  }

  /** For an interpreter without a line feed, the shebang is one line: its only line feed is the last byte. */
  lemma ShebangIsOneLine(interpreter: string)
    requires '\n' !in interpreter
    ensures forall i :: 0 <= i < |Shebang(interpreter)| - 1 ==> Shebang(interpreter)[i] != 10
  {
    Utf8NoNewline(interpreter);
    var b := Shebang(interpreter);
    var e := Utf8(interpreter);
    assert b == [0x23, 0x21] + e + [10];
    forall i | 0 <= i < |b| - 1 ensures b[i] != 10 {
      if 2 <= i {
        assert b[i] == e[i - 2];
      }
    }
  }
}

/**
 * `PyzConfig`: the build target's settings. The default file selection looks
 * at which files exist under the project root; the other fields are read from
 * the target table `[tool.hatch.build.targets.pyz]`, falling back to the
 * build table `[tool.hatch.build]`, and checked for their type.
 */
module Config {
  import opened Wrappers
  import opened Strings
  import opened Os

  // ================================================================ configuration values

  /** A TOML value as the validators inspect it. */
  datatype Value = Str(s: string) | Bool(b: bool) | Int(i: int) | List(items: seq<string>)

  /** A configuration table: `target_config` or `build_config`. */
  type Table = map<string, Value>

  /** Python truthiness of a configured value (`if include or packages or ...`). */
  predicate Truthy(v: Value)
  {
    match v
    case Str(s) => s != ""
    case Bool(b) => b
    case Int(i) => i != 0
    case List(items) => items != []
  }

  /** `target.get(key, build.get(key, default))`. */
  function Setting(target: Table, build: Table, key: string, default: Value): Value
  {
    if key in target then target[key] else if key in build then build[key] else default
  }

  // ================================================================ default file selection

  datatype FileSelectionOptions = FileSelectionOptions(includes: Value, exclude: Value, packages: Value, onlyInclude: Value)

  /**
   * What the heuristic can observe of the project: the files under the root,
   * as '/'-separated paths relative to it, and the listings `os.listdir`
   * returns for the root and for `src`, in their order.
   */
  datatype ProjectTree = ProjectTree(files: set<string>, rootListing: seq<string>, srcListing: seq<string>)

  /** Two paths name the same file: on a case-insensitive filesystem, when they agree after case folding. */
  predicate SamePath(caseInsensitive: bool, a: string, b: string)
  {
    if caseInsensitive then Casefold(a) == Casefold(b) else a == b
  }

  /** `os.path.isfile(os.path.join(root, path))`. */
  predicate IsFile(tree: ProjectTree, caseInsensitive: bool, path: string)
  {
    exists p :: p in tree.files && SamePath(caseInsensitive, p, path)
  }

  /** Index of the first listing entry whose case folding equals `folded`. */
  function FirstFoldMatch(listing: seq<string>, folded: string): (r: Option<nat>)
    ensures r.Some? ==> r.value < |listing| && Casefold(listing[r.value]) == folded
    ensures r.Some? ==> forall j :: 0 <= j < r.value ==> Casefold(listing[j]) != folded
    ensures r.None? ==> forall j :: 0 <= j < |listing| ==> Casefold(listing[j]) != folded
  {
    if listing == [] then None
    else if Casefold(listing[0]) == folded then Some(0)
    else match FirstFoldMatch(listing[1..], folded)
      case Some(i) => Some(i + 1)
      case None => None
  }

  /**
   * `get_raw_fs_path_name`: on a case-insensitive platform, the first entry of the
   * directory listing that equals `name` after case folding, else `name`; on other
   * platforms, `name` itself.
   */
  function RawFsPathName(listing: seq<string>, name: string, caseInsensitive: bool): (r: string)
    ensures Casefold(r) == Casefold(name)
    ensures !caseInsensitive ==> r == name
    ensures caseInsensitive && r != name ==> r in listing
    // no entry folds equal: the name itself
    ensures caseInsensitive && (forall j :: 0 <= j < |listing| ==> Casefold(listing[j]) != Casefold(name)) ==>
      r == name
    // some entry folds equal: the first one
    ensures caseInsensitive && (exists j :: 0 <= j < |listing| && Casefold(listing[j]) == Casefold(name)) ==>
      exists i :: 0 <= i < |listing| && listing[i] == r && Casefold(listing[i]) == Casefold(name)
                  && forall j :: 0 <= j < i ==> Casefold(listing[j]) != Casefold(name)
  {
    if !caseInsensitive then name
    else match FirstFoldMatch(listing, Casefold(name))
      case Some(i) => listing[i]
      case None => name
  }

  /** Of two entries that fold equal to the name, the earlier spelling is recovered. */
  lemma FirstSpellingRecovered()
    ensures RawFsPathName(["Foo", "FOO"], "foo", true) == "Foo"
  {
    var r := RawFsPathName(["Foo", "FOO"], "foo", true);
    assert Casefold("Foo") == "foo";
    assert ["Foo", "FOO"][0] == "Foo";
  }

  /** The loop of `get_raw_fs_path_name` over the directory listing. */
  method GetRawFsPathName(listing: seq<string>, name: string, caseInsensitive: bool) returns (r: string)
    ensures r == RawFsPathName(listing, name, caseInsensitive)
  {
    if !caseInsensitive {
      return name;
    }
    var normalized := Casefold(name);
    for k := 0 to |listing|
      invariant forall j :: 0 <= j < k ==> Casefold(listing[j]) != normalized
    {
      if Casefold(listing[k]) == normalized {
        FirstMatchIs(listing, normalized, k);
        return listing[k];
      }
    }
    NoMatch(listing, normalized);
    r := name;
  }

  lemma {:induction false} FirstMatchIs(listing: seq<string>, folded: string, k: nat)
    requires k < |listing| && Casefold(listing[k]) == folded
    requires forall j :: 0 <= j < k ==> Casefold(listing[j]) != folded
    ensures FirstFoldMatch(listing, folded) == Some(k)
  {
    if k > 0 {
      FirstMatchIs(listing[1..], folded, k - 1);
    }
  }

  lemma {:induction false} NoMatch(listing: seq<string>, folded: string)
    requires forall j :: 0 <= j < |listing| ==> Casefold(listing[j]) != folded
    ensures FirstFoldMatch(listing, folded) == None
  {
    if listing != [] {
      NoMatch(listing[1..], folded);
    }
  }

  /** The first component of a '/'-separated path. */
  function FirstComponent(p: string): string
  {
    if '/' in p then p[..IndexOf(p, '/')] else p
  }

  /** What follows the first component and its separator. */
  function AfterFirstComponent(p: string): string
  {
    if '/' in p then p[IndexOf(p, '/') + 1..] else ""
  }

  /** A name the `*` of a glob pattern matches: not empty, not hidden. */
  predicate GlobComponent(c: string)
  {
    c != "" && c[0] != '.'
  }

  /** `p` is a match of `glob(os.path.join(root, "*", name, "__init__.py"))`. */
  predicate IsNamespaceInit(p: string, caseInsensitive: bool, name: string)
  {
    '/' in p && GlobComponent(FirstComponent(p))
    && SamePath(caseInsensitive, AfterFirstComponent(p), name + "/__init__.py")
  }

  /** The first path components of the matches of `<any>/<name>/__init__.py`, one per match. */
  function NamespaceMatches(tree: ProjectTree, caseInsensitive: bool, name: string): set<string>
  {
    set p | p in tree.files && IsNamespaceInit(p, caseInsensitive, name) :: FirstComponent(p)
  }

  function Only(s: set<string>): (x: string)
    requires |s| == 1
    ensures s == {x}
  {
    SingletonElements(s);
    var x :| x in s;
    x
  }

  lemma SingletonElements(s: set<string>)
    requires |s| == 1
    ensures forall a, b :: a in s && b in s ==> a == b
  {
    forall a, b | a in s && b in s
      ensures a == b
    {
      if a != b {
        assert {a, b} <= s;
        assert |{a, b}| == 2;
        SubsetCardinality({a, b}, s);
      }
    }
  }

  lemma SubsetCardinality(a: set<string>, b: set<string>)
    requires a <= b
    ensures |a| <= |b|
  {
    assert b == a + (b - a);
  }

  /** The four layout rules of the heuristic, in the order they are tried. */
  datatype Rule = PackageDir | SrcPackageDir | ModuleFile | NamespacePackage

  function RuleRank(rule: Rule): nat
  {
    match rule
    case PackageDir => 0
    case SrcPackageDir => 1
    case ModuleFile => 2
    case NamespacePackage => 3
  }

  /** Whether `rule` fires for the candidate name `name`. */
  predicate Applies(tree: ProjectTree, caseInsensitive: bool, name: string, rule: Rule)
  {
    match rule
    case PackageDir => IsFile(tree, caseInsensitive, name + "/__init__.py")
    case SrcPackageDir => IsFile(tree, caseInsensitive, "src/" + name + "/__init__.py")
    case ModuleFile => IsFile(tree, caseInsensitive, name + ".py")
    case NamespacePackage => |NamespaceMatches(tree, caseInsensitive, name)| == 1
  }

  /** The selection `rule` produces for `name`. */
  function RuleSelection(tree: ProjectTree, caseInsensitive: bool, name: string, rule: Rule, exclude: Value): (o: FileSelectionOptions)
    requires Applies(tree, caseInsensitive, name, rule)
    ensures o.exclude == exclude && o.includes == List([])
  {
    match rule
    case PackageDir =>
      FileSelectionOptions(List([]), exclude, List([RawFsPathName(tree.rootListing, name, caseInsensitive)]), List([]))
    case SrcPackageDir =>
      FileSelectionOptions(List([]), exclude, List(["src/" + RawFsPathName(tree.srcListing, name, caseInsensitive)]), List([]))
    case ModuleFile =>
      FileSelectionOptions(List([]), exclude, List([]), List([name + ".py"]))
    case NamespacePackage =>
      FileSelectionOptions(List([]), exclude, List([Only(NamespaceMatches(tree, caseInsensitive, name))]), List([]))
  }

  /** The first rule, in order, that fires for `name`. */
  function FirstRule(tree: ProjectTree, caseInsensitive: bool, name: string): (r: Option<Rule>)
    ensures r.Some? ==> Applies(tree, caseInsensitive, name, r.value)
    ensures r.Some? ==> forall rule :: RuleRank(rule) < RuleRank(r.value) ==> !Applies(tree, caseInsensitive, name, rule)
    ensures r.None? ==> forall rule :: !Applies(tree, caseInsensitive, name, rule)
  {
    if Applies(tree, caseInsensitive, name, PackageDir) then Some(PackageDir)
    else if Applies(tree, caseInsensitive, name, SrcPackageDir) then Some(SrcPackageDir)
    else if Applies(tree, caseInsensitive, name, ModuleFile) then Some(ModuleFile)
    else if Applies(tree, caseInsensitive, name, NamespacePackage) then Some(NamespacePackage)
    else None
  }

  /** The selection made for one candidate name: that of its first rule to fire. */
  function CandidateSelection(tree: ProjectTree, caseInsensitive: bool, name: string, exclude: Value): (o: Option<FileSelectionOptions>)
    ensures o.Some? ==> o.value.exclude == exclude
  {
    match FirstRule(tree, caseInsensitive, name)
    case Some(rule) => Some(RuleSelection(tree, caseInsensitive, name, rule, exclude))
    case None => None
  }

  /** The fixed text of the error raised when no rule fires, before the candidate names. */
  const SelectionErrorHead: string :=
    "Unable to determine which files to ship inside the wheel using the following heuristics: "
    + "https://hatch.pypa.io/latest/plugins/builder/wheel/#default-file-selection\n\n"
    + "The most likely cause of this is that there is no directory that matches the name of your "
    + "project ("

  /** The fixed text of that error after the candidate names. */
  const SelectionErrorTail: string :=
    ").\n\n"
    + "At least one file selection option must be defined in the `tool.hatch.build.targets.pyz` "
    + "table, see: https://hatch.pypa.io/latest/config/build/\n\n"
    + "As an example, if you intend to ship a directory named `foo` that resides within a `src` "
    + "directory located at the root of your project, you can define the following:\n\n"
    + "[tool.hatch.build.targets.pyz]\n"
    + "packages = [\"src/foo\"]"

  function SelectionErrorMessage(projectNamesText: string): string
  {
    SelectionErrorHead + projectNamesText + SelectionErrorTail
  }

  /** `" or ".join(sorted({raw, name}))`. */
  function CandidateNamesText(rawName: string, name: string): string
  {
    Join(SortBy(if rawName == name then [rawName] else [rawName, name], Id), " or ")
  }

  /** The sorted, de-duplicated candidates: one name when both are equal, else both in ascending order. */
  lemma CandidateNamesSorted(rawName: string, name: string)
    ensures CandidateNamesText(rawName, name) ==
      if rawName == name then rawName
      else if Less(rawName, name) then rawName + " or " + name
      else name + " or " + rawName
  {
    if rawName != name {
      assert [rawName, name][1..] == [name];
      assert SortBy([name], Id) == [name];
      assert SortBy([rawName, name], Id) == Insert(rawName, [name], Id);
      LessTotal(rawName, name);
      if Less(rawName, name) {
        LessAsymmetric(rawName, name);
        assert Insert(rawName, [name], Id) == [rawName, name];
        assert Join([rawName, name], " or ") == rawName + " or " + Join([name], " or ");
      } else {
        assert Insert(rawName, [name], Id) == [name] + Insert(rawName, [], Id);
        assert Join([name, rawName], " or ") == name + " or " + Join([rawName], " or ");
      }
    } else {
      assert SortBy([rawName], Id) == [rawName];
    }
  }

  /**
   * `default_file_selection_options`: the configured lists when any of include,
   * packages or only-include is set; otherwise the first rule that fires, trying
   * the raw name before the normalised one; otherwise a `ValueError`.
   * `rawName` and `name` are the project's two names after
   * `normalize_file_name_component`.
   */
  function DefaultSelection(target: Table, build: Table, rawName: string, name: string,
                            tree: ProjectTree, caseInsensitive: bool): (r: Result<FileSelectionOptions, Error>)
    ensures r.Ok? ==> r.value.exclude == Setting(target, build, "exclude", List([]))
    ensures r.Err? ==> r.error.ValueError?
  {
    var includes := Setting(target, build, "include", List([]));
    var exclude := Setting(target, build, "exclude", List([]));
    var packages := Setting(target, build, "packages", List([]));
    var onlyInclude := Setting(target, build, "only-include", List([]));
    if Truthy(includes) || Truthy(packages) || Truthy(onlyInclude) then
      Ok(FileSelectionOptions(includes, exclude, packages, onlyInclude))
    else
      match (CandidateSelection(tree, caseInsensitive, rawName, exclude), CandidateSelection(tree, caseInsensitive, name, exclude))
      case (Some(o), _) => Ok(o)
      case (None, Some(o)) => Ok(o)
      case (None, None) => Err(ValueError(SelectionErrorMessage(CandidateNamesText(rawName, name))))
  }

  /** No explicit selection: none of include, packages and only-include is set. */
  predicate NoExplicitSelection(target: Table, build: Table)
  {
    !Truthy(Setting(target, build, "include", List([])))
    && !Truthy(Setting(target, build, "packages", List([])))
    && !Truthy(Setting(target, build, "only-include", List([])))
  }

  /** An explicit selection is passed through exactly as configured and no rule is consulted. */
  lemma ExplicitSelectionPassesThrough(target: Table, build: Table, rawName: string, name: string,
                                       tree: ProjectTree, caseInsensitive: bool)
    requires !NoExplicitSelection(target, build)
    ensures DefaultSelection(target, build, rawName, name, tree, caseInsensitive)
         == Ok(FileSelectionOptions(Setting(target, build, "include", List([])),
                                    Setting(target, build, "exclude", List([])),
                                    Setting(target, build, "packages", List([])),
                                    Setting(target, build, "only-include", List([]))))
  {
  }

  /**
   * Precedence: without an explicit selection, the result is that of the rule
   * that fires first in the order (candidate, rule), the raw name's four rules
   * before the normalised name's; it fails exactly when no rule fires for either.
   */
  lemma SelectionPrecedence(target: Table, build: Table, rawName: string, name: string,
                            tree: ProjectTree, caseInsensitive: bool, candidate: string, rule: Rule)
    requires NoExplicitSelection(target, build)
    requires candidate == rawName || candidate == name
    requires Applies(tree, caseInsensitive, candidate, rule)
    requires forall r :: RuleRank(r) < RuleRank(rule) ==> !Applies(tree, caseInsensitive, candidate, r)
    requires candidate != rawName ==> forall r :: !Applies(tree, caseInsensitive, rawName, r)
    ensures DefaultSelection(target, build, rawName, name, tree, caseInsensitive)
         == Ok(RuleSelection(tree, caseInsensitive, candidate, rule, Setting(target, build, "exclude", List([]))))
  {
    var first := FirstRule(tree, caseInsensitive, candidate);
    assert first.Some?;
    assert first.value == rule by {
      if RuleRank(first.value) < RuleRank(rule) {
      } else if RuleRank(rule) < RuleRank(first.value) {
      } else {
        assert RuleRank(first.value) == RuleRank(rule);
      }
    }
    if candidate != rawName {
      assert FirstRule(tree, caseInsensitive, rawName).None?;
    }
  }

  /** When no rule fires for either candidate the error names both, sorted and de-duplicated. */
  lemma SelectionFailure(target: Table, build: Table, rawName: string, name: string,
                         tree: ProjectTree, caseInsensitive: bool)
    requires NoExplicitSelection(target, build)
    requires forall r :: !Applies(tree, caseInsensitive, rawName, r) && !Applies(tree, caseInsensitive, name, r)
    ensures DefaultSelection(target, build, rawName, name, tree, caseInsensitive)
         == Err(ValueError(SelectionErrorMessage(CandidateNamesText(rawName, name))))
  {
    assert FirstRule(tree, caseInsensitive, rawName).None?;
    assert FirstRule(tree, caseInsensitive, name).None?;
  }

  /**
   * The shape of a heuristic result: `include` empty, and either one package,
   * a directory holding an `__init__.py` (possibly under `src/`) or a directory
   * holding the package `candidate`, or the module file `candidate.py`; what is
   * selected exists in the tree.
   */
  predicate SelectsExisting(tree: ProjectTree, caseInsensitive: bool, o: FileSelectionOptions, candidate: string)
  {
    o.includes == List([]) &&
    ((o.onlyInclude == List([]) && o.packages.List? && |o.packages.items| == 1
      && (IsFile(tree, caseInsensitive, o.packages.items[0] + "/__init__.py")
          || IsFile(tree, caseInsensitive, o.packages.items[0] + "/" + candidate + "/__init__.py")))
     || (o.packages == List([]) && o.onlyInclude == List([candidate + ".py"])
         && IsFile(tree, caseInsensitive, candidate + ".py")))
  }

  /** Every rule selects something that exists. */
  lemma RuleSelectionExists(tree: ProjectTree, caseInsensitive: bool, candidate: string, rule: Rule, exclude: Value)
    requires Applies(tree, caseInsensitive, candidate, rule)
    ensures SelectsExisting(tree, caseInsensitive, RuleSelection(tree, caseInsensitive, candidate, rule, exclude), candidate)
  {
    match rule {
      case PackageDir => PackageDirSelected(tree, caseInsensitive, candidate, exclude);
      case SrcPackageDir => SrcPackageDirSelected(tree, caseInsensitive, candidate, exclude);
      case ModuleFile =>
      case NamespacePackage => NamespaceSelected(tree, caseInsensitive, candidate, exclude);
    }
  }

  /** The package-directory rule selects the listing's spelling of a directory that holds `__init__.py`. */
  lemma PackageDirSelected(tree: ProjectTree, caseInsensitive: bool, candidate: string, exclude: Value)
    requires Applies(tree, caseInsensitive, candidate, PackageDir)
    ensures var o := RuleSelection(tree, caseInsensitive, candidate, PackageDir, exclude);
      o.onlyInclude == List([]) && o.packages.List? && |o.packages.items| == 1
      && IsFile(tree, caseInsensitive, o.packages.items[0] + "/__init__.py")
  {
    RootPackageDirExists(tree, caseInsensitive, tree.rootListing, candidate);
  }

  /** The `src` rule selects `src/` and the listing's spelling of a directory there that holds `__init__.py`. */
  lemma SrcPackageDirSelected(tree: ProjectTree, caseInsensitive: bool, candidate: string, exclude: Value)
    requires Applies(tree, caseInsensitive, candidate, SrcPackageDir)
    ensures var o := RuleSelection(tree, caseInsensitive, candidate, SrcPackageDir, exclude);
      o.onlyInclude == List([]) && o.packages.List? && |o.packages.items| == 1
      && IsFile(tree, caseInsensitive, o.packages.items[0] + "/__init__.py")
  {
    PackageDirExists(tree, caseInsensitive, tree.srcListing, "src/", candidate);
  }

  /** The namespace rule selects the one top-level directory holding the package `candidate`. */
  lemma NamespaceSelected(tree: ProjectTree, caseInsensitive: bool, candidate: string, exclude: Value)
    requires Applies(tree, caseInsensitive, candidate, NamespacePackage)
    ensures var o := RuleSelection(tree, caseInsensitive, candidate, NamespacePackage, exclude);
      o.onlyInclude == List([]) && o.packages.List? && |o.packages.items| == 1
      && IsFile(tree, caseInsensitive, o.packages.items[0] + "/" + candidate + "/__init__.py")
  {
    NamespaceMatchExists(tree, caseInsensitive, candidate, Only(NamespaceMatches(tree, caseInsensitive, candidate)));
  }

  /** The root listing's spelling of a package directory names the same `__init__.py`. */
  lemma RootPackageDirExists(tree: ProjectTree, caseInsensitive: bool, listing: seq<string>, candidate: string)
    requires IsFile(tree, caseInsensitive, candidate + "/__init__.py")
    ensures IsFile(tree, caseInsensitive, RawFsPathName(listing, candidate, caseInsensitive) + "/__init__.py")
  {
    var c := RawFsPathName(listing, candidate, caseInsensitive);
    CasefoldConcat(c, "/__init__.py");
    CasefoldConcat(candidate, "/__init__.py");
    SameFoldedFile(tree, caseInsensitive, c + "/__init__.py", candidate + "/__init__.py");
  }

  /** The listing's spelling of a package directory names the same `__init__.py`. */
  lemma PackageDirExists(tree: ProjectTree, caseInsensitive: bool, listing: seq<string>, parent: string, candidate: string)
    requires IsFile(tree, caseInsensitive, parent + candidate + "/__init__.py")
    ensures IsFile(tree, caseInsensitive, parent + RawFsPathName(listing, candidate, caseInsensitive) + "/__init__.py")
  {
    var c := RawFsPathName(listing, candidate, caseInsensitive);
    assert parent + c + "/__init__.py" == parent + (c + "/__init__.py");
    assert parent + candidate + "/__init__.py" == parent + (candidate + "/__init__.py");
    CasefoldConcat(c, "/__init__.py");
    CasefoldConcat(candidate, "/__init__.py");
    CasefoldConcat(parent, c + "/__init__.py");
    CasefoldConcat(parent, candidate + "/__init__.py");
    SameFoldedFile(tree, caseInsensitive, parent + c + "/__init__.py", parent + candidate + "/__init__.py");
  }

  /** A heuristic result selects, for one of the two candidate names, something that exists. */
  lemma HeuristicSelectionExists(target: Table, build: Table, rawName: string, name: string,
                                 tree: ProjectTree, caseInsensitive: bool)
    requires NoExplicitSelection(target, build)
    requires DefaultSelection(target, build, rawName, name, tree, caseInsensitive).Ok?
    ensures var o := DefaultSelection(target, build, rawName, name, tree, caseInsensitive).value;
      SelectsExisting(tree, caseInsensitive, o, rawName) || SelectsExisting(tree, caseInsensitive, o, name)
  {
    var exclude := Setting(target, build, "exclude", List([]));
    var candidate := if FirstRule(tree, caseInsensitive, rawName).Some? then rawName else name;
    RuleSelectionExists(tree, caseInsensitive, candidate, FirstRule(tree, caseInsensitive, candidate).value, exclude);
    assert DefaultSelection(target, build, rawName, name, tree, caseInsensitive).value
        == RuleSelection(tree, caseInsensitive, candidate, FirstRule(tree, caseInsensitive, candidate).value, exclude);
  }

  /** A path that folds to the same text as an existing file's names that file. */
  lemma SameFoldedFile(tree: ProjectTree, caseInsensitive: bool, found: string, probed: string)
    requires IsFile(tree, caseInsensitive, probed)
    requires Casefold(found) == Casefold(probed)
    requires !caseInsensitive ==> found == probed
    ensures IsFile(tree, caseInsensitive, found)
  {
    var p :| p in tree.files && SamePath(caseInsensitive, p, probed);
    assert SamePath(caseInsensitive, p, found);
  }

  lemma NamespaceMatchExists(tree: ProjectTree, caseInsensitive: bool, name: string, ns: string)
    requires ns in NamespaceMatches(tree, caseInsensitive, name)
    ensures IsFile(tree, caseInsensitive, ns + "/" + name + "/__init__.py")
  {
    var p :| p in tree.files && IsNamespaceInit(p, caseInsensitive, name) && FirstComponent(p) == ns;
    NamespaceInitNames(p, caseInsensitive, name);
  }

  /** A match of the namespace glob names `<its first component>/<name>/__init__.py`. */
  lemma NamespaceInitNames(p: string, caseInsensitive: bool, name: string)
    requires IsNamespaceInit(p, caseInsensitive, name)
    ensures SamePath(caseInsensitive, p, FirstComponent(p) + "/" + name + "/__init__.py")
  {
    SplitAtFirstSlash(p);
    PrefixedInit(caseInsensitive, FirstComponent(p), AfterFirstComponent(p), name, p);
  }

  lemma PrefixedInit(caseInsensitive: bool, ns: string, rest: string, name: string, p: string)
    requires p == ns + "/" + rest
    requires SamePath(caseInsensitive, rest, name + "/__init__.py")
    ensures SamePath(caseInsensitive, p, ns + "/" + name + "/__init__.py")
  {
    var init := name + "/__init__.py";
    SamePathPrefix(caseInsensitive, ns + "/", rest, init);
    assert ns + "/" + name + "/__init__.py" == (ns + "/") + init;
  }

  lemma SplitAtFirstSlash(p: string)
    requires '/' in p
    ensures p == FirstComponent(p) + "/" + AfterFirstComponent(p)
  {
    var i := IndexOf(p, '/');
    assert p == p[..i] + [p[i]] + p[i + 1..];
  }

  lemma SamePathPrefix(caseInsensitive: bool, a: string, b: string, c: string)
    requires SamePath(caseInsensitive, b, c)
    ensures SamePath(caseInsensitive, a + b, a + c)
  {
    if caseInsensitive {
      CasefoldConcat(a, b);
      CasefoldConcat(a, c);
    }
  }

  /** Converts the set of failed candidates to a list in an arbitrary order, as iterating a set does. */
  method SetToSeq(s: set<string>) returns (xs: seq<string>)
    ensures multiset(xs) == multiset(s)
  {
    xs := [];
    var rest := s;
    while rest != {}
      invariant rest <= s
      invariant multiset(xs) + multiset(rest) == multiset(s)
      decreases rest
    {
      var x :| x in rest;
      xs := xs + [x];
      rest := rest - {x};
    }
  }

  /** A rule that fires while no earlier rule does decides the candidate's selection. */
  lemma CandidateByRule(tree: ProjectTree, caseInsensitive: bool, name: string, rule: Rule, exclude: Value)
    requires Applies(tree, caseInsensitive, name, rule)
    requires forall earlier :: RuleRank(earlier) < RuleRank(rule) ==> !Applies(tree, caseInsensitive, name, earlier)
    ensures CandidateSelection(tree, caseInsensitive, name, exclude) == Some(RuleSelection(tree, caseInsensitive, name, rule, exclude))
  {
    assert !Applies(tree, caseInsensitive, name, PackageDir) ==> rule != PackageDir;
  }

  /** One iteration of the loop over the candidate names: the four checks in order, each returning early. */
  method TryProjectName(tree: ProjectTree, caseInsensitive: bool, projectName: string, exclude: Value)
    returns (selected: Option<FileSelectionOptions>)
    ensures selected == CandidateSelection(tree, caseInsensitive, projectName, exclude)
  {
    if IsFile(tree, caseInsensitive, projectName + "/__init__.py") {
      CandidateByRule(tree, caseInsensitive, projectName, PackageDir, exclude);
      var normalizedProjectName := GetRawFsPathName(tree.rootListing, projectName, caseInsensitive);
      return Some(FileSelectionOptions(List([]), exclude, List([normalizedProjectName]), List([])));
    }
    if IsFile(tree, caseInsensitive, "src/" + projectName + "/__init__.py") {
      CandidateByRule(tree, caseInsensitive, projectName, SrcPackageDir, exclude);
      var normalizedProjectName := GetRawFsPathName(tree.srcListing, projectName, caseInsensitive);
      return Some(FileSelectionOptions(List([]), exclude, List(["src/" + normalizedProjectName]), List([])));
    }
    var moduleFile := projectName + ".py";
    if IsFile(tree, caseInsensitive, moduleFile) {
      CandidateByRule(tree, caseInsensitive, projectName, ModuleFile, exclude);
      return Some(FileSelectionOptions(List([]), exclude, List([]), List([moduleFile])));
    }
    var possibleNamespacePackages := NamespaceMatches(tree, caseInsensitive, projectName);
    if |possibleNamespacePackages| == 1 {
      CandidateByRule(tree, caseInsensitive, projectName, NamespacePackage, exclude);
      var namespace :| namespace in possibleNamespacePackages;
      assert namespace == Only(possibleNamespacePackages);
      return Some(FileSelectionOptions(List([]), exclude, List([namespace]), List([])));
    }
    assert FirstRule(tree, caseInsensitive, projectName) == None;
    selected := None;
  }

  /**
   * `default_file_selection_options` as the source runs it: the explicit
   * lists, then a loop over the two candidate names with an early return per
   * rule, collecting the names that failed for the error message.
   */
  method DefaultFileSelectionOptions(target: Table, build: Table, rawName: string, name: string,
                                     tree: ProjectTree, caseInsensitive: bool)
    returns (r: Result<FileSelectionOptions, Error>)
    ensures r == DefaultSelection(target, build, rawName, name, tree, caseInsensitive)
  {
    var includes := Setting(target, build, "include", List([]));
    var exclude := Setting(target, build, "exclude", List([]));
    var packages := Setting(target, build, "packages", List([]));
    var onlyInclude := Setting(target, build, "only-include", List([]));
    if Truthy(includes) || Truthy(packages) || Truthy(onlyInclude) {
      return Ok(FileSelectionOptions(includes, exclude, packages, onlyInclude));
    }
    var projectNames: set<string> := {};
    var candidates := [rawName, name];
    for k := 0 to 2
      invariant projectNames == set j | 0 <= j < k :: candidates[j]
      invariant forall j :: 0 <= j < k ==> CandidateSelection(tree, caseInsensitive, candidates[j], exclude).None?
    {
      var projectName := candidates[k];
      var selected := TryProjectName(tree, caseInsensitive, projectName, exclude);
      if selected.Some? {
        assert candidates[0] == rawName;
        assert k == 1 ==> CandidateSelection(tree, caseInsensitive, candidates[0], exclude).None?;
        return Ok(selected.value);
      }
      projectNames := projectNames + {projectName};
    }
    assert projectNames == {rawName, name} by {
      assert candidates[0] in projectNames && candidates[1] in projectNames;
    }
    var names := SetToSeq(projectNames);
    var distinct := if rawName == name then [rawName] else [rawName, name];
    assert multiset(names) == multiset(distinct);
    SortByPermutation(names, distinct, Id);
    var projectNamesText := Join(SortBy(names, Id), " or ");
    r := Err(ValueError(SelectionErrorMessage(projectNamesText)));
  }

  // ================================================================ field validators

  const DefaultInterpreter := "/usr/bin/env python3"

  /** `interpreter`: a string; the target table wins over the build table; default `/usr/bin/env python3`. */
  function Interpreter(target: Table, build: Table): (r: Result<string, Error>)
    ensures "interpreter" in target ==>
      (r.Ok? <==> target["interpreter"].Str?) && (r.Ok? ==> r.value == target["interpreter"].s)
      && (r.Err? ==> r.error == TypeError("Field `tool.hatch.build.targets.pyz.interpreter` must be a string"))
    ensures "interpreter" !in target && "interpreter" in build ==>
      (r.Ok? <==> build["interpreter"].Str?) && (r.Ok? ==> r.value == build["interpreter"].s)
      && (r.Err? ==> r.error == TypeError("Field `tool.hatch.build.interpreter` must be a string"))
    ensures "interpreter" !in target && "interpreter" !in build ==> r == Ok(DefaultInterpreter)
  {
    if "interpreter" in target then
      var interpreter := target["interpreter"];
      if !interpreter.Str? then Err(TypeError("Field `tool.hatch.build.targets.pyz.interpreter` must be a string"))
      else Ok(interpreter.s)
    else
      var interpreter := if "interpreter" in build then build["interpreter"] else Str(DefaultInterpreter);
      if !interpreter.Str? then Err(TypeError("Field `tool.hatch.build.interpreter` must be a string"))
      else Ok(interpreter.s)
  }

  /** `compressed`: a boolean; the target table wins over the build table; default true. */
  function Compressed(target: Table, build: Table): (r: Result<bool, Error>)
    ensures "compressed" in target ==>
      (r.Ok? <==> target["compressed"].Bool?) && (r.Ok? ==> r.value == target["compressed"].b)
      && (r.Err? ==> r.error == TypeError("Field `tool.hatch.build.targets.pyz.compressed` must be a boolean"))
    ensures "compressed" !in target && "compressed" in build ==>
      (r.Ok? <==> build["compressed"].Bool?) && (r.Ok? ==> r.value == build["compressed"].b)
      && (r.Err? ==> r.error == TypeError("Field `tool.hatch.build.compressed` must be a boolean"))
    ensures "compressed" !in target && "compressed" !in build ==> r == Ok(true)
  {
    if "compressed" in target then
      var compressed := target["compressed"];
      if !compressed.Bool? then Err(TypeError("Field `tool.hatch.build.targets.pyz.compressed` must be a boolean"))
      else Ok(compressed.b)
    else
      var compressed := if "compressed" in build then build["compressed"] else Bool(true);
      if !compressed.Bool? then Err(TypeError("Field `tool.hatch.build.compressed` must be a boolean"))
      else Ok(compressed.b)
  }

  const BundleTypeMessage := "Field `tool.hatch.build.bundle-depenencies` must be a boolean"

  /**
   * `bundle_depenencies` as written: the target table is read under
   * `bundle-dependencies` but the build table under the misspelt
   * `bundle-depenencies`; default true.
   */
  function BundleDependenciesAsWritten(target: Table, build: Table): (r: Result<bool, Error>)
    ensures "bundle-dependencies" in target ==>
      (r.Ok? <==> target["bundle-dependencies"].Bool?) && (r.Ok? ==> r.value == target["bundle-dependencies"].b)
    // the build table is read under the misspelt key
    ensures "bundle-dependencies" !in target && "bundle-depenencies" in build ==>
      (r.Ok? <==> build["bundle-depenencies"].Bool?) && (r.Ok? ==> r.value == build["bundle-depenencies"].b)
    ensures "bundle-dependencies" !in target && "bundle-depenencies" !in build ==> r == Ok(true)
    ensures r.Err? ==> r.error == TypeError(BundleTypeMessage)
  {
    if "bundle-dependencies" in target then
      var bundle := target["bundle-dependencies"];
      if !bundle.Bool? then Err(TypeError(BundleTypeMessage)) else Ok(bundle.b)
    else
      var bundle := if "bundle-depenencies" in build then build["bundle-depenencies"] else Bool(true);
      if !bundle.Bool? then Err(TypeError(BundleTypeMessage)) else Ok(bundle.b)
  }

  /** A `bundle-dependencies = false` in the build table is ignored by the code as written. */
  lemma BuildLevelBundleSettingIgnored()
    ensures BundleDependenciesAsWritten(map[], map["bundle-dependencies" := Bool(false)]) == Ok(true)
    ensures BundleDependencies(map[], map["bundle-dependencies" := Bool(false)]) == Ok(false)
  {
  }

  /** `bundle-dependencies` read under the same key from both tables: a boolean, default true. */
  function BundleDependencies(target: Table, build: Table): (r: Result<bool, Error>)
    ensures "bundle-dependencies" in target ==>
      (r.Ok? <==> target["bundle-dependencies"].Bool?) && (r.Ok? ==> r.value == target["bundle-dependencies"].b)
    ensures "bundle-dependencies" !in target && "bundle-dependencies" in build ==>
      (r.Ok? <==> build["bundle-dependencies"].Bool?) && (r.Ok? ==> r.value == build["bundle-dependencies"].b)
    ensures "bundle-dependencies" !in target && "bundle-dependencies" !in build ==> r == Ok(true)
    ensures r.Err? ==> r.error.TypeError?
  {
    if "bundle-dependencies" in target then
      var bundle := target["bundle-dependencies"];
      if !bundle.Bool? then Err(TypeError("Field `tool.hatch.build.targets.pyz.bundle-dependencies` must be a boolean"))
      else Ok(bundle.b)
    else
      var bundle := if "bundle-dependencies" in build then build["bundle-dependencies"] else Bool(true);
      if !bundle.Bool? then Err(TypeError("Field `tool.hatch.build.bundle-dependencies` must be a boolean"))
      else Ok(bundle.b)
  }

  // ================================================================ the entry point

  /** `[a-zA-Z0-9_]`. */
  predicate IsWordChar(c: char)
  {
    'a' <= c <= 'z' || 'A' <= c <= 'Z' || '0' <= c <= '9' || c == '_'
  }

  /** `[a-zA-Z0-9_]+`. */
  predicate IsWord(s: string)
  {
    |s| >= 1 && forall i :: 0 <= i < |s| ==> IsWordChar(s[i])
  }

  /** One repetition of the group `([a-zA-Z0-9_]+)\.?`. */
  predicate IsGroup(s: string)
  {
    IsWord(s) || (|s| >= 2 && s[|s| - 1] == '.' && IsWord(s[..|s| - 1]))
  }

  /** `(([a-zA-Z0-9_]+)\.?)+`: one or more groups back to back. */
  ghost predicate IsGroups(s: string)
    decreases |s|
  {
    IsGroup(s) || exists k :: 0 < k < |s| && IsGroup(s[..k]) && IsGroups(s[k..])
  }

  /**
   * The module part accepted by the pattern, scanned directly: it starts with a
   * word character, has only word characters and dots, and never two dots in a row.
   */
  predicate IsModulePath(s: string)
  {
    |s| >= 1 && IsWordChar(s[0])
    && (forall i :: 0 <= i < |s| ==> IsWordChar(s[i]) || s[i] == '.')
    && (forall i :: 0 <= i < |s| - 1 && s[i] == '.' ==> s[i + 1] != '.')
  }

  /** The scan accepts exactly the strings the group repetition of the pattern matches. */
  lemma {:induction false} ModulePathIsGroups(s: string)
    ensures IsModulePath(s) <==> IsGroups(s)
    decreases |s|
  {
    if IsModulePath(s) {
      ModulePathToGroups(s);
    }
    if IsGroups(s) {
      GroupsToModulePath(s);
    }
  }

  lemma {:induction false} ModulePathToGroups(s: string)
    requires IsModulePath(s)
    ensures IsGroups(s)
    decreases |s|
  {
    if '.' !in s[..|s| - 1] {
      if s[|s| - 1] == '.' {
        var w := s[..|s| - 1];
        assert IsWord(w) by {
          forall i | 0 <= i < |w| ensures IsWordChar(w[i]) {
            assert w[i] == s[i];
            assert s[i] in w;
          }
        }
      } else {
        assert IsWord(s) by {
          forall i | 0 <= i < |s| ensures IsWordChar(s[i]) {
            if i < |s| - 1 {
              assert s[i] in s[..|s| - 1];
            }
          }
        }
      }
    } else {
      var d := IndexOf(s[..|s| - 1], '.');
      assert s[d] == '.' && d < |s| - 1;
      assert d > 0;
      var k := d + 1;
      assert IsWord(s[..d]) by {
        forall i | 0 <= i < d ensures IsWordChar(s[..d][i]) {
          assert s[..|s| - 1][..d][i] == s[i];
          assert s[i] in s[..|s| - 1][..d];
        }
      }
      assert s[..k][..|s[..k]| - 1] == s[..d];
      assert IsGroup(s[..k]);
      var rest := s[k..];
      assert IsModulePath(rest) by {
        assert rest[0] == s[k] && s[k] != '.';
        forall i | 0 <= i < |rest| - 1 && rest[i] == '.' ensures rest[i + 1] != '.' {
          assert rest[i] == s[k + i] && rest[i + 1] == s[k + i + 1];
        }
        forall i | 0 <= i < |rest| ensures IsWordChar(rest[i]) || rest[i] == '.' {
          assert rest[i] == s[k + i];
        }
      }
      ModulePathToGroups(rest);
      assert 0 < k < |s| && IsGroup(s[..k]) && IsGroups(s[k..]);
    }
  }

  lemma {:induction false} GroupsToModulePath(s: string)
    requires IsGroups(s)
    ensures IsModulePath(s)
    decreases |s|
  {
    if IsGroup(s) {
      GroupIsModulePath(s);
    } else {
      var k :| 0 < k < |s| && IsGroup(s[..k]) && IsGroups(s[k..]);
      GroupsToModulePath(s[k..]);
      GroupIsModulePath(s[..k]);
      var g, rest := s[..k], s[k..];
      assert s == g + rest;
      forall i | 0 <= i < |s| ensures IsWordChar(s[i]) || s[i] == '.' {
        if i < k { assert s[i] == g[i]; } else { assert s[i] == rest[i - k]; }
      }
      forall i | 0 <= i < |s| - 1 && s[i] == '.' ensures s[i + 1] != '.' {
        if i < k - 1 {
          assert s[i] == g[i] && s[i + 1] == g[i + 1];
        } else if i == k - 1 {
          assert s[i + 1] == rest[0];
        } else {
          assert s[i] == rest[i - k] && s[i + 1] == rest[i - k + 1];
        }
      }
    }
  }

  lemma GroupIsModulePath(s: string)
    requires IsGroup(s)
    ensures IsModulePath(s)
  {
    if !IsWord(s) {
      var w := s[..|s| - 1];
      forall i | 0 <= i < |s| ensures IsWordChar(s[i]) || s[i] == '.' {
        if i < |s| - 1 { assert s[i] == w[i]; }
      }
      forall i | 0 <= i < |s| - 1 ensures s[i] != '.' {
        assert s[i] == w[i];
      }
      assert s[0] == w[0];
    }
  }

  /** `^(([a-zA-Z0-9_]+)\.?)+:([a-zA-Z0-9_]+)` matched against the whole string. */
  predicate IsEntryPoint(s: string)
  {
    ':' in s && IsModulePath(s[..IndexOf(s, ':')]) && IsWord(s[IndexOf(s, ':') + 1..])
  }

  /**
   * `pattern.match(s)` with the pattern ending in `$`, which in Python also
   * matches just before a newline that ends the string.
   */
  predicate MatchesMainPatternAsWritten(s: string)
  {
    IsEntryPoint(s) || (|s| >= 1 && s[|s| - 1] == '\n' && IsEntryPoint(s[..|s| - 1]))
  }

  /**
   * The callable part of a `main` the as-written pattern accepts: a name,
   * followed by the final line feed when `$` matched before one.
   */
  predicate AsWrittenCallable(main: string, callable: string)
  {
    if IsEntryPoint(main) then IsWord(callable)
    else |callable| >= 1 && callable[|callable| - 1] == '\n' && IsWord(callable[..|callable| - 1])
  }

  /** An accepted entry point splits on `:` into exactly a module path and a callable name. */
  lemma EntryPointSplit(s: string)
    requires IsEntryPoint(s)
    ensures |Split(s, ':')| == 2
    ensures IsModulePath(Split(s, ':')[0]) && IsWord(Split(s, ':')[1])
    ensures Split(s, ':')[0] + ":" + Split(s, ':')[1] == s
  {
    var i := IndexOf(s, ':');
    var f := s[i + 1..];
    assert ':' !in f by {
      forall j | 0 <= j < |f| ensures f[j] != ':' {
        assert IsWordChar(f[j]);
      }
    }
    assert Split(f, ':') == [f];
    assert s == s[..i] + ":" + f;
  }

  /** The pattern as written still guarantees that `main.split(":")` has two parts. */
  lemma AsWrittenSplitHasTwoParts(s: string)
    requires MatchesMainPatternAsWritten(s)
    ensures |Split(s, ':')| == 2
  {
    if IsEntryPoint(s) {
      EntryPointSplit(s);
    } else {
      var t := s[..|s| - 1];
      EntryPointSplit(t);
      SplitLength(t, ':');
      assert s == t + "\n";
      CountConcat(t, "\n", ':');
      assert Count("\n", ':') == 0;
      SplitLength(s, ':');
    }
  }

  /** The as-written pattern lets an entry point with a trailing newline through. */
  lemma TrailingNewlineAccepted()
    ensures MatchesMainPatternAsWritten("app:main\n")
    ensures !IsEntryPoint("app:main\n")
    ensures Split("app:main\n", ':') == ["app", "main\n"]
  {
    PlainEntryPoint();
    assert "app:main\n"[..8] == "app:main";
    NewlineEntryPointRejected();
    NewlineEntryPointSplit();
  }

  /** The as-written validator accepts `main = "app:main\n"` from the target table and returns it unchanged. */
  lemma NewlineMainAccepted()
    ensures MainAsWritten(map["main" := Str("app:main\n")], map[]) == Ok("app:main\n")
  {
    TrailingNewlineAccepted();
  }

  lemma PlainEntryPoint()
    ensures IsEntryPoint("app:main")
  {
    assert IndexOf("app:main", ':') == 3;
    assert "app:main"[..3] == "app";
    assert "app:main"[4..] == "main";
  }

  lemma NewlineEntryPointRejected()
    ensures !IsEntryPoint("app:main\n")
  {
    assert IndexOf("app:main\n", ':') == 3;
    assert "app:main\n"[4..] == "main\n";
    assert !IsWordChar("main\n"[4]);
  }

  lemma NewlineEntryPointSplit()
    ensures Split("app:main\n", ':') == ["app", "main\n"]
  {
    assert IndexOf("app:main\n", ':') == 3;
    assert "app:main\n"[..3] == "app";
    assert "app:main\n"[4..] == "main\n";
    assert ':' !in "main\n";
    assert Split("main\n", ':') == ["main\n"];
  }

  const TargetMainMessage := "Field `tool.hatch.build.targets.pyz.main` must be a string and take the form `pkg.module:callable`"
  const BuildMainMessage := "Field `tool.hatch.build.main` must be a string and take the form `pkg.module:callable`"

  /** `main` as written: accepts an entry point followed by one newline. */
  function MainAsWritten(target: Table, build: Table): (r: Result<string, Error>)
    ensures r.Ok? ==> MatchesMainPatternAsWritten(r.value)
    ensures "main" in target ==>
      (r.Ok? <==> target["main"].Str? && MatchesMainPatternAsWritten(target["main"].s))
      && (r.Ok? ==> r.value == target["main"].s)
    ensures "main" !in target ==>
      (r.Ok? <==> "main" in build && build["main"].Str? && MatchesMainPatternAsWritten(build["main"].s))
      && (r.Ok? ==> r.value == build["main"].s)
    ensures r.Err? ==> r.error.TypeError?
  {
    if "main" in target then
      var main := target["main"];
      if !main.Str? || !MatchesMainPatternAsWritten(main.s) then
        Err(TypeError(TargetMainMessage))
      else Ok(main.s)
    else
      if "main" !in build || !build["main"].Str? || !MatchesMainPatternAsWritten(build["main"].s) then
        Err(TypeError(BuildMainMessage))
      else Ok(build["main"].s)
  }

  /**
   * `main`: a string of the form `pkg.module:callable`; the target table wins
   * over the build table; there is no default. The whole string must match.
   */
  function Main(target: Table, build: Table): (r: Result<string, Error>)
    ensures r.Ok? ==> IsEntryPoint(r.value)
    ensures "main" in target ==>
      (r.Ok? <==> target["main"].Str? && IsEntryPoint(target["main"].s)) && (r.Ok? ==> r.value == target["main"].s)
    ensures "main" !in target ==>
      (r.Ok? <==> "main" in build && build["main"].Str? && IsEntryPoint(build["main"].s))
      && (r.Ok? ==> r.value == build["main"].s)
    ensures r.Err? ==> r.error.TypeError?
  {
    if "main" in target then
      var main := target["main"];
      if !main.Str? || !IsEntryPoint(main.s) then
        Err(TypeError(TargetMainMessage))
      else Ok(main.s)
    else
      if "main" !in build || !build["main"].Str? || !IsEntryPoint(build["main"].s) then
        Err(TypeError(BuildMainMessage))
      else Ok(build["main"].s)
  }
}

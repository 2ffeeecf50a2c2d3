/**
 * The zipapp builder: a temporary archive with a shebang prefix that receives
 * `__main__.py` and every included file, optional bundling of the project's
 * dependencies through `pip install --target`, and the final rename onto
 * `<name>-<version>.pyz` in the output directory.
 */
module Builder {
  import opened Wrappers
  import opened Strings
  import opened Zip
  import opened Os
  import Config
  import opened Artifacts

  // ================================================================ pip

  /** The command line `pip_install` runs: the current interpreter's pip, into `target_directory`. */
  function PipCommand(executable: string, dependencies: seq<string>, targetDirectory: string): (argv: seq<string>)
    ensures |argv| == 10 + |dependencies|
    ensures argv[..4] == [executable, "-m", "pip", "install"]
    ensures argv[4..9] == ["--no-input", "--disable-pip-version-check", "--no-color", "--no-compile", "--target"]
    ensures argv[9] == targetDirectory
    ensures argv[10..] == dependencies
  {
    [executable, "-m", "pip", "install", "--no-input", "--disable-pip-version-check", "--no-color",
     "--no-compile", "--target", targetDirectory] + dependencies
  }

  // ================================================================ the force-include table

  /** `config.force_include`: a dict from source path to archive path, in insertion order. */
  type Dict = seq<(string, string)>

  function Keys(d: Dict): (ks: seq<string>)
    ensures |ks| == |d| && forall i :: 0 <= i < |d| ==> ks[i] == d[i].0
  {
    if d == [] then [] else [d[0].0] + Keys(d[1..])
  }

  /** `d.get(k)`. */
  function Lookup(d: Dict, k: string): (r: Option<string>)
    ensures r.None? <==> k !in Keys(d)
  {
    if d == [] then None else if d[0].0 == k then Some(d[0].1) else Lookup(d[1..], k)
  }

  /** `d[k] = v`: an existing key keeps its place and takes the new value; a new key goes last. */
  function DictSet(d: Dict, k: string, v: string): Dict
  {
    if d == [] then [(k, v)]
    else if d[0].0 == k then [(k, v)] + d[1..]
    else [d[0]] + DictSet(d[1..], k, v)
  }

  /** After `d[k] = v`, `k` maps to `v` and every other key to what it mapped to. */
  lemma {:induction false} DictSetLookup(d: Dict, k: string, v: string, k': string)
    ensures Lookup(DictSet(d, k, v), k') == if k' == k then Some(v) else Lookup(d, k')
  {
    if d != [] && d[0].0 != k {
      DictSetLookup(d[1..], k, v, k');
    }
  }

  /** `d[k] = v` keeps the order of the keys, appending `k` when it is new. */
  lemma {:induction false} DictSetKeys(d: Dict, k: string, v: string)
    ensures Keys(DictSet(d, k, v)) == if k in Keys(d) then Keys(d) else Keys(d) + [k]
  {
    if d != [] && d[0].0 != k {
      DictSetKeys(d[1..], k, v);
      assert Keys(d) == [d[0].0] + Keys(d[1..]);
    }
  }

  /** The assignments `d[k] = v` for every pair of `es`, in order. */
  function SetAll(d: Dict, es: seq<(string, string)>): Dict
  {
    if es == [] then d else DictSet(SetAll(d, es[..|es| - 1]), es[|es| - 1].0, es[|es| - 1].1)
  }

  /** The value the last pair of `es` with key `k` carries. */
  function LastValue(es: seq<(string, string)>, k: string): (r: Option<string>)
    ensures r.Some? ==> (k, r.value) in es
    ensures r.None? ==> forall e :: e in es ==> e.0 != k
  {
    if es == [] then None
    else if es[|es| - 1].0 == k then Some(es[|es| - 1].1)
    else
      var r := LastValue(es[..|es| - 1], k);
      assert forall e :: e in es[..|es| - 1] ==> e in es;
      assert es == es[..|es| - 1] + [es[|es| - 1]];
      r
  }

  /** After all the assignments, a key maps to the last value assigned to it, or to what it mapped to before. */
  lemma {:induction false} SetAllLookup(d: Dict, es: seq<(string, string)>, k: string)
    ensures Lookup(SetAll(d, es), k) == match LastValue(es, k) case Some(v) => Some(v) case None => Lookup(d, k)
    decreases |es|
  {
    if es != [] {
      var init, last := es[..|es| - 1], es[|es| - 1];
      SetAllLookup(d, init, k);
      DictSetLookup(SetAll(d, init), last.0, last.1, k);
    }
  }

  // ================================================================ the installed tree and its walk

  /** A directory as `os.listdir` shows it: its entries, in listing order. */
  datatype Listing = Listing(entries: seq<Dirent>)

  datatype Dirent = FileEntry(name: string) | DirEntry(name: string, listing: Listing)

  function Name(d: Dirent): string
  {
    d.name
  }

  /** The names of the files among `entries`, in listing order. */
  function FileNames(entries: seq<Dirent>): (names: seq<string>)
    ensures forall n :: n in names <==> FileEntry(n) in entries
  {
    if entries == [] then []
    else
      assert entries == [entries[0]] + entries[1..];
      (if entries[0].FileEntry? then [entries[0].name] else []) + FileNames(entries[1..])
  }

  /** The sub-directories among `entries`, in listing order. */
  function Subdirs(entries: seq<Dirent>): (dirs: seq<Dirent>)
    ensures forall d :: d in dirs <==> d in entries && d.DirEntry?
  {
    if entries == [] then []
    else
      assert entries == [entries[0]] + entries[1..];
      (if entries[0].DirEntry? then [entries[0]] else []) + Subdirs(entries[1..])
  }

  /** What one step of `os.walk` yields: the directory, relative to the top, and its files in listing order. */
  datatype Level = Level(path: seq<string>, files: seq<string>)

  /**
   * `os.walk(top)`, top-down, under a loop body that sorts `dirs` in place: the
   * directory itself, then each sub-directory's walk in sorted name order.
   */
  function WalkFrom(path: seq<string>, l: Listing): seq<Level>
    decreases l, 1, 0
  {
    var dirs := SortBy(Subdirs(l.entries), Name);
    SortedMembers(Subdirs(l.entries));
    [Level(path, FileNames(l.entries))] + WalkDirs(path, dirs, l)
  }

  /** Sorting the sub-directories keeps exactly the same entries. */
  lemma SortedMembers(dirs: seq<Dirent>)
    ensures forall d :: d in SortBy(dirs, Name) <==> d in dirs
  {
    var sorted := SortBy(dirs, Name);
    forall d ensures d in sorted <==> d in dirs {
      assert d in sorted <==> d in multiset(sorted);
      assert d in dirs <==> d in multiset(dirs);
    }
  }

  function WalkDirs(path: seq<string>, dirs: seq<Dirent>, ghost parent: Listing): seq<Level>
    requires forall d :: d in dirs ==> d in parent.entries && d.DirEntry?
    decreases parent, 0, |dirs|
  {
    if dirs == [] then []
    else
      assert dirs[0] in parent.entries;
      WalkFrom(path + [dirs[0].name], dirs[0].listing) + WalkDirs(path, dirs[1..], parent)
  }

  /** The relative paths the loop body builds for one step: its files sorted, each under the step's directory. */
  function LevelPaths(path: seq<string>, files: seq<string>): (ps: seq<seq<string>>)
    ensures |ps| == |files| && forall i :: 0 <= i < |files| ==> ps[i] == path + [files[i]]
  {
    if files == [] then [] else [path + [files[0]]] + LevelPaths(path, files[1..])
  }

  /** Every file path the walk reaches, in the order the loop visits them. */
  function WalkPaths(levels: seq<Level>): seq<seq<string>>
  {
    if levels == [] then []
    else WalkPaths(levels[..|levels| - 1])
         + LevelPaths(levels[|levels| - 1].path, SortBy(levels[|levels| - 1].files, Id))
  }

  /** `str(root / file)` and `str(root.relative_to(target_directory) / file)` for one relative path. */
  function ForceIncludeEntry(targetDirectory: string, relative: seq<string>): (string, string)
  {
    (targetDirectory + "/" + Join(relative, "/"), Join(relative, "/"))
  }

  function EntriesOf(targetDirectory: string, paths: seq<seq<string>>): (es: seq<(string, string)>)
    ensures |es| == |paths| && forall i :: 0 <= i < |paths| ==> es[i] == ForceIncludeEntry(targetDirectory, paths[i])
  {
    if paths == [] then [] else [ForceIncludeEntry(targetDirectory, paths[0])] + EntriesOf(targetDirectory, paths[1..])
  }

  /** The force-include assignments `bundle_dependencies` makes for an installed tree, in order. */
  function BundleEntries(targetDirectory: string, installed: Listing): seq<(string, string)>
  {
    EntriesOf(targetDirectory, WalkPaths(WalkFrom([], installed)))
  }

  /** Every assignment maps `target/<rel>` to `<rel>`: a key determines its value. */
  lemma BundleEntryShape(targetDirectory: string, installed: Listing, e: (string, string))
    requires e in BundleEntries(targetDirectory, installed)
    ensures e.0 == targetDirectory + "/" + e.1
  {
  }

  /** After bundling, every walked file is force-included under its relative path; other keys are untouched. */
  lemma BundledFilesIncluded(d: Dict, targetDirectory: string, installed: Listing, k: string)
    ensures var es := BundleEntries(targetDirectory, installed);
      var after := Lookup(SetAll(d, es), k);
      (forall e :: e in es && e.0 == k ==> after == Some(e.1))
      && ((forall e :: e in es ==> e.0 != k) ==> after == Lookup(d, k))
  {
    var es := BundleEntries(targetDirectory, installed);
    SetAllLookup(d, es, k);
    match LastValue(es, k) {
      case Some(v) =>
        BundleEntryShape(targetDirectory, installed, (k, v));
        forall e | e in es && e.0 == k ensures Some(v) == Some(e.1) {
          BundleEntryShape(targetDirectory, installed, e);
          assert targetDirectory + "/" + e.1 == targetDirectory + "/" + v;
          assert e.1 == (targetDirectory + "/" + e.1)[|targetDirectory| + 1..];
          assert v == (targetDirectory + "/" + v)[|targetDirectory| + 1..];
        }
      case None =>
    }
  }

  /** Every file of the tree, by its path components, in listing order: the reference enumeration. */
  function FilesOf(path: seq<string>, l: Listing): seq<seq<string>>
    decreases l, 1, 0
  {
    FilesOfEntries(path, l.entries, l)
  }

  function FilesOfEntries(path: seq<string>, entries: seq<Dirent>, ghost parent: Listing): seq<seq<string>>
    requires forall d :: d in entries ==> d in parent.entries
    decreases parent, 0, |entries|
  {
    if entries == [] then []
    else
      assert entries[0] in parent.entries;
      (match entries[0]
       case FileEntry(n) => [path + [n]]
       case DirEntry(n, sub) => FilesOf(path + [n], sub))
      + FilesOfEntries(path, entries[1..], parent)
  }

  lemma {:induction false} WalkPathsConcat(a: seq<Level>, b: seq<Level>)
    ensures WalkPaths(a + b) == WalkPaths(a) + WalkPaths(b)
    decreases |b|
  {
    if b != [] {
      var init := b[..|b| - 1];
      var last := b[|b| - 1];
      assert (a + b)[..|a + b| - 1] == a + init;
      assert (a + b)[|a + b| - 1] == last;
      WalkPathsConcat(a, init);
      var lastPaths := LevelPaths(last.path, SortBy(last.files, Id));
      assert WalkPaths(b) == WalkPaths(init) + lastPaths;
      assert WalkPaths(a + b) == WalkPaths(a + init) + lastPaths;
    } else {
      assert a + b == a;
    }
  }

  /** The members of the reference enumeration: the directory's files, and the files of each sub-directory. */
  lemma {:induction false} FilesOfEntriesMembers(path: seq<string>, entries: seq<Dirent>, parent: Listing, fp: seq<string>)
    requires forall d :: d in entries ==> d in parent.entries
    ensures fp in FilesOfEntries(path, entries, parent) <==>
      (exists n :: FileEntry(n) in entries && fp == path + [n])
      || (exists d :: d in entries && d.DirEntry? && fp in FilesOf(path + [d.name], d.listing))
    decreases |entries|
  {
    if entries != [] {
      FilesOfEntriesMembers(path, entries[1..], parent, fp);
      assert entries == [entries[0]] + entries[1..];
      assert forall e :: e in entries <==> e == entries[0] || e in entries[1..];
    }
  }

  /**
   * The walk reaches exactly the files of the installed tree: every path it
   * yields is a file of the tree, and every file of the tree is yielded.
   */
  lemma {:induction false} WalkReachesEveryFile(path: seq<string>, l: Listing)
    ensures forall fp :: fp in WalkPaths(WalkFrom(path, l)) <==> fp in FilesOf(path, l)
    decreases l, 1, 0
  {
    var files := FileNames(l.entries);
    var subdirs := Subdirs(l.entries);
    var dirs := SortBy(subdirs, Name);
    SortedMembers(subdirs);
    var top := [Level(path, files)];
    assert WalkFrom(path, l) == top + WalkDirs(path, dirs, l);
    WalkPathsConcat(top, WalkDirs(path, dirs, l));
    assert WalkPaths(top) == LevelPaths(path, SortBy(files, Id));
    WalkDirsReachFiles(path, dirs, l);
    forall fp ensures fp in WalkPaths(WalkFrom(path, l)) <==> fp in FilesOf(path, l) {
      FilesOfEntriesMembers(path, l.entries, l, fp);
      SortedNamesMembers(path, files, fp);
    }
  }

  /** A path of one step's sorted files is the step's directory followed by one of its files. */
  lemma SortedNamesMembers(path: seq<string>, files: seq<string>, fp: seq<string>)
    ensures fp in LevelPaths(path, SortBy(files, Id)) <==> exists n :: n in files && fp == path + [n]
  {
    var sorted := SortBy(files, Id);
    var ps := LevelPaths(path, sorted);
    forall n ensures n in sorted <==> n in files {
      assert n in sorted <==> n in multiset(sorted);
      assert n in files <==> n in multiset(files);
    }
    if fp in ps {
      var i :| 0 <= i < |ps| && ps[i] == fp;
      assert sorted[i] in files;
    }
    if exists n :: n in files && fp == path + [n] {
      var n :| n in files && fp == path + [n];
      var i :| 0 <= i < |sorted| && sorted[i] == n;
      assert ps[i] == fp;
    }
  }

  lemma {:induction false} WalkDirsReachFiles(path: seq<string>, dirs: seq<Dirent>, parent: Listing)
    requires forall d :: d in dirs ==> d in parent.entries && d.DirEntry?
    ensures forall fp :: fp in WalkPaths(WalkDirs(path, dirs, parent)) <==>
      exists d :: d in dirs && fp in FilesOf(path + [d.name], d.listing)
    decreases parent, 0, |dirs|
  {
    if dirs != [] {
      var d0 := dirs[0];
      assert d0 in parent.entries;
      WalkReachesEveryFile(path + [d0.name], d0.listing);
      WalkDirsReachFiles(path, dirs[1..], parent);
      WalkPathsConcat(WalkFrom(path + [d0.name], d0.listing), WalkDirs(path, dirs[1..], parent));
      assert forall e :: e in dirs <==> e == d0 || e in dirs[1..];
    }
  }

  /**
   * The order `os.listdir` returns the installed top-level entries in does not
   * matter: any reordering of them yields the same force-include assignments, in
   * the same order. Entry names in a directory are unique.
   */
  lemma ListingOrderIrrelevant(targetDirectory: string, a: seq<Dirent>, b: seq<Dirent>)
    requires multiset(a) == multiset(b)
    requires KeysUnique(a, Name)
    ensures BundleEntries(targetDirectory, Listing(a)) == BundleEntries(targetDirectory, Listing(b))
  {
    SortedFilesAgree(a, b);
    SortedDirsAgree(a, b);
    var dirs := SortBy(Subdirs(a), Name);
    TopLevelPaths(a);
    TopLevelPaths(b);
    WalkDirsParentFree([], dirs, Listing(a), Listing(b));
  }

  lemma SortedFilesAgree(a: seq<Dirent>, b: seq<Dirent>)
    requires multiset(a) == multiset(b)
    ensures SortBy(FileNames(a), Id) == SortBy(FileNames(b), Id)
  {
    FileNamesMultiset(a);
    FileNamesMultiset(b);
    assert multiset(FileNames(a)) == multiset(FileNames(b));
    SortByPermutation(FileNames(a), FileNames(b), Id);
  }

  lemma SortedDirsAgree(a: seq<Dirent>, b: seq<Dirent>)
    requires multiset(a) == multiset(b)
    requires KeysUnique(a, Name)
    ensures SortBy(Subdirs(a), Name) == SortBy(Subdirs(b), Name)
  {
    SubdirsAgree(a, b);
    SubdirsUnique(a);
    SortByPermutation(Subdirs(a), Subdirs(b), Name);
  }

  lemma SubdirsAgree(a: seq<Dirent>, b: seq<Dirent>)
    requires multiset(a) == multiset(b)
    ensures multiset(Subdirs(a)) == multiset(Subdirs(b))
  {
    SubdirsMultiset(a);
    SubdirsMultiset(b);
  }

  /** Names unique in a listing stay unique among its sub-directories. */
  lemma SubdirsUnique(a: seq<Dirent>)
    requires KeysUnique(a, Name)
    ensures KeysUnique(Subdirs(a), Name)
  {
    var s := Subdirs(a);
    forall i, j | 0 <= i < |s| && 0 <= j < |s| && Name(s[i]) == Name(s[j]) ensures s[i] == s[j] {
      assert s[i] in a && s[j] in a;
      var i' :| 0 <= i' < |a| && a[i'] == s[i];
      var j' :| 0 <= j' < |a| && a[j'] == s[j];
    }
  }

  /** The walk's paths: the top directory's sorted files, then those of its sorted sub-directories. */
  lemma TopLevelPaths(a: seq<Dirent>)
    ensures forall d :: d in SortBy(Subdirs(a), Name) <==> d in Subdirs(a)
    ensures WalkPaths(WalkFrom([], Listing(a)))
         == LevelPaths([], SortBy(FileNames(a), Id))
            + WalkPaths(WalkDirs([], SortBy(Subdirs(a), Name), Listing(a)))
  {
    var top := [Level([], FileNames(a))];
    SortedMembers(Subdirs(a));
    WalkPathsConcat(top, WalkDirs([], SortBy(Subdirs(a), Name), Listing(a)));
    assert WalkPaths(top) == LevelPaths([], SortBy(FileNames(a), Id));
  }

  /** The file names among `x` occur as often as the corresponding file entries. */
  lemma {:induction false} FileNamesMultiset(x: seq<Dirent>)
    ensures forall n :: multiset(FileNames(x))[n] == multiset(x)[FileEntry(n)]
  {
    if x != [] {
      FileNamesMultiset(x[1..]);
      assert x == [x[0]] + x[1..];
    }
  }

  /** The sub-directories among `x` occur as often as in `x`. */
  lemma {:induction false} SubdirsMultiset(x: seq<Dirent>)
    ensures forall d :: multiset(Subdirs(x))[d] == if d.DirEntry? then multiset(x)[d] else 0
  {
    if x != [] {
      SubdirsMultiset(x[1..]);
      assert x == [x[0]] + x[1..];
    }
  }

  /** The walk of the sub-directories does not depend on the listing they were taken from. */
  lemma {:induction false} WalkDirsParentFree(path: seq<string>, dirs: seq<Dirent>, p: Listing, q: Listing)
    requires forall d :: d in dirs ==> d in p.entries && d.DirEntry?
    requires forall d :: d in dirs ==> d in q.entries && d.DirEntry?
    ensures WalkDirs(path, dirs, p) == WalkDirs(path, dirs, q)
    decreases |dirs|
  {
    if dirs != [] {
      WalkDirsParentFree(path, dirs[1..], p, q);
    }
  }

  // ================================================================ bundling

  /** One more pair: the step of the loop that fills the table. */
  lemma SetAllStep(d: Dict, es: seq<(string, string)>, e: (string, string))
    ensures SetAll(d, es + [e]) == DictSet(SetAll(d, es), e.0, e.1)
  {
    assert (es + [e])[..|es|] == es;
  }

  lemma EntriesOfStep(targetDirectory: string, paths: seq<seq<string>>, p: seq<string>)
    ensures EntriesOf(targetDirectory, paths + [p]) == EntriesOf(targetDirectory, paths) + [ForceIncludeEntry(targetDirectory, p)]
  {
  }

  lemma WalkPathsStep(walk: seq<Level>, i: nat)
    requires i < |walk|
    ensures WalkPaths(walk[..i + 1]) == WalkPaths(walk[..i]) + LevelPaths(walk[i].path, SortBy(walk[i].files, Id))
  {
    assert walk[..i + 1][..i] == walk[..i];
  }

  lemma LevelPathsStep(path: seq<string>, files: seq<string>, j: nat)
    requires j < |files|
    ensures LevelPaths(path, files[..j + 1]) == LevelPaths(path, files[..j]) + [path + [files[j]]]
  {
  }

  /** What `build_standard` changes on the builder: `config.force_include`. */
  class PythonZipappBuilder {
    var forceInclude: Dict

    constructor (forceInclude: Dict)
      ensures this.forceInclude == forceInclude
    {
      this.forceInclude := forceInclude;
    }

    /**
     * Entering `bundle_dependencies(dependencies)`. Without dependencies nothing
     * runs. Otherwise pip installs into `targetDirectory`: `installed` is the tree
     * it leaves there, or None when it exits with an error, which
     * `check_call` raises. Every file of the sorted walk of the tree is then
     * force-included under its path relative to the tree.
     */
    method BundleDependencies(dependencies: seq<string>, executable: string, targetDirectory: string,
                              installed: Option<Listing>) returns (r: Outcome<Error>)
      modifies this
      ensures dependencies == [] ==> r == Pass && forceInclude == old(forceInclude)
      ensures dependencies != [] && installed.None? ==>
        r == Fail(CalledProcessError(PipCommand(executable, dependencies, targetDirectory)))
        && forceInclude == old(forceInclude)
      ensures dependencies != [] && installed.Some? ==>
        r == Pass && forceInclude == SetAll(old(forceInclude), BundleEntries(targetDirectory, installed.value))
    {
      if dependencies == [] {
        return Pass;
      }
      if installed.None? {
        return Fail(CalledProcessError(PipCommand(executable, dependencies, targetDirectory)));
      }
      var walk := WalkFrom([], installed.value);
      for i := 0 to |walk|
        invariant forceInclude == SetAll(old(forceInclude), EntriesOf(targetDirectory, WalkPaths(walk[..i])))
      {
        var level := walk[i];
        RegisterLevel(targetDirectory, old(forceInclude), WalkPaths(walk[..i]), level.path, SortBy(level.files, Id));
        WalkPathsStep(walk, i);
      }
      assert walk[..|walk|] == walk;
      r := Pass;
    }

    /**
     * `build_standard(directory)`. The configuration is read first and the
     * temporary archive is made next; bundling, `__main__.py` and the included
     * files (`recurse` stands for `recurse_included_files`, which sees the
     * force-include table) go into it; it is closed whatever happens; only
     * then is it renamed onto `<name>-<version>.pyz` in `directory`, whose mode
     * `normalizeArtifactMode` (standing for `normalize_artifact_permissions`)
     * then sets. `tmp` is the temporary archive, if one was made.
     */
    method BuildStandard(fs: FileSystem, directory: seq<string>, projectName: string, version: string,
                         target: Config.Table, build: Config.Table, reproducible: bool,
                         dependencies: seq<string>, executable: string, tempDir: seq<string>, pipTarget: string,
                         installed: Option<Listing>, recurse: Dict -> seq<IncludedFile>,
                         normalizeArtifactMode: int -> int, reproducibleTime: DateTime, now: DateTime)
      returns (tmp: Option<Path>, r: Result<Path, Error>)
      modifies this, fs
      // a configuration error is raised before anything is touched
      ensures ReadSettings(target, build).Err? ==>
        r == Err(ReadSettings(target, build).error) && tmp.None? && fs.nodes == old(fs.nodes)
        && forceInclude == old(forceInclude)
      ensures ReadSettings(target, build).Ok? ==>
        Built(old(fs.nodes), fs.nodes, old(forceInclude), forceInclude, directory, projectName, version,
              ReadSettings(target, build).value, reproducible, dependencies, executable, tempDir, pipTarget,
              installed, recurse, normalizeArtifactMode, reproducibleTime, now, tmp, r)
    {
      var settings := ReadSettings(target, build);
      if settings.Err? {
        return None, Err(settings.error);
      }
      tmp, r := BuildFromSettings(fs, directory, projectName, version, settings.value, reproducible, dependencies,
                                  executable, tempDir, pipTarget, installed, recurse, normalizeArtifactMode,
                                  reproducibleTime, now);
    }

    /** The build once the configuration is read; its outcome, described by `Built`. */
    method BuildFromSettings(fs: FileSystem, directory: seq<string>, projectName: string, version: string,
                             s: Settings, reproducible: bool, dependencies: seq<string>, executable: string,
                             tempDir: seq<string>, pipTarget: string, installed: Option<Listing>,
                             recurse: Dict -> seq<IncludedFile>, normalizeArtifactMode: int -> int,
                             reproducibleTime: DateTime, now: DateTime)
      returns (tmp: Option<Path>, r: Result<Path, Error>)
      modifies this, fs
      ensures Built(old(fs.nodes), fs.nodes, old(forceInclude), forceInclude, directory, projectName, version, s,
                    reproducible, dependencies, executable, tempDir, pipTarget, installed, recurse,
                    normalizeArtifactMode, reproducibleTime, now, tmp, r)
    {
      var made := ZipappArchive.Open(fs, tempDir, reproducible, s.compressed, s.interpreter, now);
      if made.Err? {
        return None, Err(made.error);
      }
      var archive := made.value;
      tmp := Some(archive.path);
      if s.bundle {
        var bundled := BundleDependencies(dependencies, executable, pipTarget, installed);
        if bundled.Fail? {
          archive.Close(fs);
          Utils.DiscardFresh(old(fs.nodes), archive.path, fs.nodes[archive.path]);
          assert fs.nodes == old(fs.nodes)[archive.path := fs.nodes[archive.path]];
          return tmp, Err(bundled.error);
        }
      }
      var files := recurse(forceInclude);
      ghost var during := fs.nodes;
      var filled := FillArchive(archive, fs, s.moduleName, s.callable, files, reproducibleTime, now);
      var written := fs.nodes[archive.path];
      assert fs.nodes == old(fs.nodes)[archive.path := written];
      Utils.DiscardFresh(old(fs.nodes), archive.path, written);
      if filled.Fail? {
        return tmp, Err(filled.error);
      }
      var dst := Path(directory, ArtifactName(projectName, version));
      var published := Publish(fs, archive.path, dst, normalizeArtifactMode(TempFileMode));
      if published.Fail? {
        return tmp, Err(published.error);
      }
      r := Ok(dst);
    }

    /** The inner loop: `force_include[str(root / file)] = ...` for each of one step's sorted files. */
    method RegisterLevel(targetDirectory: string, ghost base: Dict, ghost done: seq<seq<string>>,
                         path: seq<string>, files: seq<string>)
      requires forceInclude == SetAll(base, EntriesOf(targetDirectory, done))
      modifies this
      ensures forceInclude == SetAll(base, EntriesOf(targetDirectory, done + LevelPaths(path, files)))
    {
      assert done + LevelPaths(path, files[..0]) == done;
      for j := 0 to |files|
        invariant forceInclude == SetAll(base, EntriesOf(targetDirectory, done + LevelPaths(path, files[..j])))
      {
        var relative := path + [files[j]];
        ghost var before := done + LevelPaths(path, files[..j]);
        LevelPathsStep(path, files, j);
        assert done + LevelPaths(path, files[..j + 1]) == before + [relative];
        EntriesOfStep(targetDirectory, before, relative);
        SetAllStep(base, EntriesOf(targetDirectory, before), ForceIncludeEntry(targetDirectory, relative));
        var entry := ForceIncludeEntry(targetDirectory, relative);
        forceInclude := DictSet(forceInclude, entry.0, entry.1);
      }
      assert files[..|files|] == files;
    }
  }

  // ================================================================ the archive's entries

  /** The chunk size of `add_file`'s copy loop. */
  const ChunkSize: nat := 16384

  /**
   * The entry `add_file` appends for `file`, or what it raises: `os.stat` raises
   * for a missing path, and for a directory the metadata is computed before
   * opening it for reading raises. In reproducible mode the entry takes the
   * build's reproducible time and the normalised mode; otherwise `from_file`'s
   * modification time and attribute word. Both take the archive's compression.
   */
  function AddedEntry(nodes: Nodes, file: IncludedFile, reproducible: bool, compression: CompressType,
                      reproducibleTime: DateTime): Result<Entry, Error>
  {
    if file.path !in nodes then Err(FileNotFoundError(file.path))
    else
      match nodes[file.path]
      case Directory => Err(IsADirectoryError(file.path))
      case File(content, mode, mtime) =>
        if reproducible then Ok(Entry(file.distributionPath, reproducibleTime, NormalizedAttr(mode), compression, content))
        else Ok(Entry(file.distributionPath, mtime, FileAttr(FromFileExternalAttr(mode, false)), compression, content))
  }

  function Adder(nodes: Nodes, reproducible: bool, compression: CompressType, reproducibleTime: DateTime)
    : IncludedFile -> Result<Entry, Error>
  {
    file => AddedEntry(nodes, file, reproducible, compression, reproducibleTime)
  }

  /** `write_file(path, data)`: a bare `ZipInfo` stamped with the reproducible time or the current local time. */
  function WrittenEntry(name: string, data: seq<byte>, reproducible: bool, compression: CompressType,
                        reproducibleTime: DateTime, now: DateTime): Entry
  {
    Entry(name, if reproducible then reproducibleTime else now, DefaultAttr, compression, Bytes(data))
  }

  /** `write_dunder_main(module, function)`: the script, UTF-8 encoded, as `__main__.py`. */
  function DunderMainEntry(moduleName: string, callable: string, reproducible: bool, compression: CompressType,
                           reproducibleTime: DateTime, now: DateTime): Entry
  {
    WrittenEntry("__main__.py", Utf8(DunderMainText(moduleName, callable)), reproducible, compression, reproducibleTime, now)
  }

  /** The entries of a finished archive: `__main__.py`, then one per included file; or the first error. */
  function ArchiveEntries(nodes: Nodes, moduleName: string, callable: string, files: seq<IncludedFile>,
                          reproducible: bool, compression: CompressType, reproducibleTime: DateTime, now: DateTime)
    : Result<seq<Entry>, Error>
  {
    match AddAll(files, Adder(nodes, reproducible, compression, reproducibleTime))
    case Err(e) => Err(e)
    case Ok(es) => Ok([DunderMainEntry(moduleName, callable, reproducible, compression, reproducibleTime, now)] + es)
  }

  /**
   * The archive is complete exactly when every included file exists and is not
   * a directory; it then holds `__main__.py` first and then each file's bytes
   * under its distribution path, in order, every entry with the archive's compression.
   */
  lemma ArchiveLayout(nodes: Nodes, moduleName: string, callable: string, files: seq<IncludedFile>,
                      reproducible: bool, compression: CompressType, reproducibleTime: DateTime, now: DateTime)
    ensures var r := ArchiveEntries(nodes, moduleName, callable, files, reproducible, compression, reproducibleTime, now);
      (r.Ok? <==> forall i :: 0 <= i < |files| ==> files[i].path in nodes && nodes[files[i].path].File?)
      && (r.Ok? ==>
            |r.value| == |files| + 1
            && r.value[0].name == "__main__.py"
            && r.value[0].data == Bytes(Utf8(DunderMainText(moduleName, callable)))
            && (forall i :: 0 <= i < |files| ==>
                  r.value[i + 1].name == files[i].distributionPath && r.value[i + 1].data == nodes[files[i].path].content)
            && (forall i :: 0 <= i < |r.value| ==> r.value[i].compressType == compression))
  {
    var add := Adder(nodes, reproducible, compression, reproducibleTime);
    AddAllOk(files, add);
  }

  /** A failed archive reports the first included file that is missing or a directory. */
  lemma ArchiveFailure(nodes: Nodes, moduleName: string, callable: string, files: seq<IncludedFile>,
                       reproducible: bool, compression: CompressType, reproducibleTime: DateTime, now: DateTime)
    requires ArchiveEntries(nodes, moduleName, callable, files, reproducible, compression, reproducibleTime, now).Err?
    ensures exists k :: (0 <= k < |files| && !(files[k].path in nodes && nodes[files[k].path].File?)
      && (forall j :: 0 <= j < k ==> files[j].path in nodes && nodes[files[j].path].File?)
      && ArchiveEntries(nodes, moduleName, callable, files, reproducible, compression, reproducibleTime, now).error
         == if files[k].path in nodes then IsADirectoryError(files[k].path) else FileNotFoundError(files[k].path))
  {
    var add := Adder(nodes, reproducible, compression, reproducibleTime);
    AddAllFirstError(files, add);
  }

  /** In reproducible mode every entry, `__main__.py` included, carries the one reproducible time. */
  lemma ReproducibleTimestamps(nodes: Nodes, moduleName: string, callable: string, files: seq<IncludedFile>,
                               compression: CompressType, reproducibleTime: DateTime, now: DateTime)
    ensures var r := ArchiveEntries(nodes, moduleName, callable, files, true, compression, reproducibleTime, now);
      r.Ok? ==> forall i :: 0 <= i < |r.value| ==> r.value[i].dateTime == reproducibleTime
  {
    var add := Adder(nodes, true, compression, reproducibleTime);
    AddAllOk(files, add);
  }

  /** Otherwise `__main__.py` carries the clock reading and each file its own metadata. */
  lemma SourceTimestamps(nodes: Nodes, moduleName: string, callable: string, files: seq<IncludedFile>,
                         compression: CompressType, reproducibleTime: DateTime, now: DateTime)
    requires ArchiveEntries(nodes, moduleName, callable, files, false, compression, reproducibleTime, now).Ok?
    ensures forall i :: 0 <= i < |files| ==> files[i].path in nodes && nodes[files[i].path].File?
    ensures var es := ArchiveEntries(nodes, moduleName, callable, files, false, compression, reproducibleTime, now).value;
      |es| == |files| + 1 && es[0].dateTime == now && es[0].attr == DefaultAttr
      && forall i :: 0 <= i < |files| ==>
           (es[i + 1].dateTime == nodes[files[i].path].mtime
            && es[i + 1].attr == FileAttr(FromFileExternalAttr(nodes[files[i].path].mode, false)))
  {
    var add := Adder(nodes, false, compression, reproducibleTime);
    AddAllOk(files, add);
    var added := AddAll(files, add).value;
    var es := [DunderMainEntry(moduleName, callable, false, compression, reproducibleTime, now)] + added;
    forall i | 0 <= i < |files|
      ensures files[i].path in nodes && nodes[files[i].path].File?
      ensures es[i + 1].dateTime == nodes[files[i].path].mtime
      ensures es[i + 1].attr == FileAttr(FromFileExternalAttr(nodes[files[i].path].mode, false))
    {
      assert es[i + 1] == added[i] == add(files[i]).value;
      assert add(files[i]) == AddedEntry(nodes, files[i], false, compression, reproducibleTime);
    }
  }

  /**
   * A reproducible build is insensitive to the clock and to the sources'
   * modification times: the same sources give the same entries.
   */
  lemma ReproducibleIgnoresTimes(nodes: Nodes, nodes': Nodes, moduleName: string, callable: string,
                                 files: seq<IncludedFile>, compression: CompressType, reproducibleTime: DateTime,
                                 now: DateTime, now': DateTime)
    requires SameSources(nodes, nodes', files)
    ensures ArchiveEntries(nodes, moduleName, callable, files, true, compression, reproducibleTime, now)
         == ArchiveEntries(nodes', moduleName, callable, files, true, compression, reproducibleTime, now')
  {
    var add := Adder(nodes, true, compression, reproducibleTime);
    var add' := Adder(nodes', true, compression, reproducibleTime);
    forall i | 0 <= i < |files| ensures add(files[i]) == add'(files[i]) {
      assert add(files[i]) == AddedEntry(nodes, files[i], true, compression, reproducibleTime);
      assert add'(files[i]) == AddedEntry(nodes', files[i], true, compression, reproducibleTime);
    }
    AddAllAgree(files, add, add');
  }

  /** A path no included file names, such as the fresh temporary archive, does not affect the entries. */
  lemma UnrelatedPathIrrelevant(nodes: Nodes, t: Path, n: Node, moduleName: string, callable: string,
                                files: seq<IncludedFile>, reproducible: bool, compression: CompressType,
                                reproducibleTime: DateTime, now: DateTime)
    requires forall i :: 0 <= i < |files| ==> files[i].path != t
    ensures ArchiveEntries(nodes[t := n], moduleName, callable, files, reproducible, compression, reproducibleTime, now)
         == ArchiveEntries(nodes, moduleName, callable, files, reproducible, compression, reproducibleTime, now)
  {
    var add := Adder(nodes[t := n], reproducible, compression, reproducibleTime);
    var add' := Adder(nodes, reproducible, compression, reproducibleTime);
    forall i | 0 <= i < |files| ensures add(files[i]) == add'(files[i]) {
      assert add(files[i]) == AddedEntry(nodes[t := n], files[i], reproducible, compression, reproducibleTime);
      assert add'(files[i]) == AddedEntry(nodes, files[i], reproducible, compression, reproducibleTime);
    }
    AddAllAgree(files, add, add');
  }

  // ================================================================ the archive object

  /**
   * `ZipappArchive`: a temporary `.pyz` file that starts with the shebang, and
   * the zip container opened on it, whose entries are kept here until `close`
   * writes them out.
   */
  class ZipappArchive {
    const reproducible: bool
    const compression: CompressType
    const path: Path
    const prefix: seq<byte>
    var entries: seq<Entry>

    constructor (reproducible: bool, compression: CompressType, path: Path, prefix: seq<byte>)
      ensures this.reproducible == reproducible && this.compression == compression
      ensures this.path == path && this.prefix == prefix && entries == []
    {
      this.reproducible := reproducible;
      this.compression := compression;
      this.path := path;
      this.prefix := prefix;
      entries := [];
    }

    /**
     * `ZipappArchive(reproducible=..., compressed=..., interpreter=...)`:
     * `mkstemp(suffix=".pyz")` in the temporary directory, then the shebang is
     * written to it before the container is opened on the same file.
     */
    static method Open(fs: FileSystem, tempDir: seq<string>, reproducible: bool, compressed: bool,
                       interpreter: string, now: DateTime) returns (r: Result<ZipappArchive, Error>)
      modifies fs
      ensures r.Ok? <==> IsDirectory(old(fs.nodes), tempDir)
      ensures r.Err? ==> r.error == ListdirError(old(fs.nodes), tempDir) && fs.nodes == old(fs.nodes)
      ensures r.Ok? ==>
        fresh(r.value) && r.value.entries == [] && r.value.reproducible == reproducible
        && r.value.compression == CompressionFor(compressed) && r.value.prefix == Shebang(interpreter)
        && r.value.path.dir == tempDir && EndsWith(r.value.path.name, ".pyz") && r.value.path !in old(fs.nodes)
        && fs.nodes == old(fs.nodes)[r.value.path := File(Bytes(Shebang(interpreter)), TempFileMode, now)]
    {
      var compression := CompressionFor(compressed);
      var made := fs.Mkstemp(tempDir, ".pyz", now);
      if made.Err? {
        return Err(made.error);
      }
      var shebang := Shebang(interpreter);
      fs.Write(made.value, Bytes(shebang));
      var archive := new ZipappArchive(reproducible, compression, made.value, shebang);
      r := Ok(archive);
    }

    /** `add_file(included_file)`: appends the file's entry, or raises and appends nothing. */
    method AddFile(fs: FileSystem, file: IncludedFile, reproducibleTime: DateTime) returns (r: Outcome<Error>)
      modifies this
      ensures var added := AddedEntry(fs.nodes, file, reproducible, compression, reproducibleTime);
        (added.Ok? ==> r == Pass && entries == old(entries) + [added.value])
        && (added.Err? ==> r == Fail(added.error) && entries == old(entries))
    {
      if file.path !in fs.nodes {
        return Fail(FileNotFoundError(file.path));
      }
      var node := fs.nodes[file.path];
      if node.Directory? {
        return Fail(IsADirectoryError(file.path));
      }
      var dateTime, attr;
      if reproducible {
        dateTime, attr := reproducibleTime, NormalizedAttr(node.mode);
      } else {
        dateTime, attr := node.mtime, FileAttr(FromFileExternalAttr(node.mode, false));
      }
      var data := CopyContent(node.content, ChunkSize);
      entries := entries + [Entry(file.distributionPath, dateTime, attr, compression, data)];
      r := Pass;
    }

    /** `write_file(path, data)`. */
    method WriteFile(name: string, data: seq<byte>, reproducibleTime: DateTime, now: DateTime)
      modifies this
      ensures entries == old(entries) + [WrittenEntry(name, data, reproducible, compression, reproducibleTime, now)]
    {
      var dateTime := if reproducible then reproducibleTime else now;
      entries := entries + [Entry(name, dateTime, DefaultAttr, compression, Bytes(data))];
    }

    /** `write_dunder_main(module, function)`. */
    method WriteDunderMain(moduleName: string, callable: string, reproducibleTime: DateTime, now: DateTime)
      modifies this
      ensures entries == old(entries) + [DunderMainEntry(moduleName, callable, reproducible, compression, reproducibleTime, now)]
    {
      WriteFile("__main__.py", Utf8(DunderMainText(moduleName, callable)), reproducibleTime, now);
    }

    /** `close()`: the container is written out behind the prefix. */
    method Close(fs: FileSystem)
      requires path in fs.nodes && fs.nodes[path].File?
      modifies fs
      ensures fs.nodes == old(fs.nodes)[path := old(fs.nodes)[path].(content := Zipapp(prefix, entries))]
    {
      fs.Write(path, Zipapp(prefix, entries));
    }
  }

  // ================================================================ build_standard

  /** What `build_standard` reads from the configuration, once validated. */
  datatype Settings = Settings(moduleName: string, callable: string, bundle: bool, compressed: bool, interpreter: string)

  /**
   * The configuration reads of `build_standard`, in the order it makes them:
   * `main` (then split on `:`), `bundle_depenencies`, `compressed`,
   * `interpreter`. The first that raises is the build's error.
   */
  function ReadSettings(target: Config.Table, build: Config.Table): (r: Result<Settings, Error>)
    ensures r.Ok? <==> Config.Main(target, build).Ok? && Config.BundleDependencies(target, build).Ok?
                       && Config.Compressed(target, build).Ok? && Config.Interpreter(target, build).Ok?
    ensures r.Ok? ==>
      r.value.moduleName + ":" + r.value.callable == Config.Main(target, build).value
      && Config.IsModulePath(r.value.moduleName)
      && Config.IsWord(r.value.callable)
      && r.value.bundle == Config.BundleDependencies(target, build).value
      && r.value.compressed == Config.Compressed(target, build).value
      && r.value.interpreter == Config.Interpreter(target, build).value
    ensures Config.Main(target, build).Err? ==> r == Err(Config.Main(target, build).error)
    ensures Config.Main(target, build).Ok? && Config.BundleDependencies(target, build).Err? ==>
      r == Err(Config.BundleDependencies(target, build).error)
    ensures (Config.Main(target, build).Ok? && Config.BundleDependencies(target, build).Ok?
             && Config.Compressed(target, build).Err?) ==> r == Err(Config.Compressed(target, build).error)
    ensures (Config.Main(target, build).Ok? && Config.BundleDependencies(target, build).Ok?
             && Config.Compressed(target, build).Ok? && Config.Interpreter(target, build).Err?) ==>
      r == Err(Config.Interpreter(target, build).error)
  {
    match Config.Main(target, build)
    case Err(e) => Err(e)
    case Ok(main) =>
      ValidMainSplits(main);
      var parts := SplitMain(main).value;
      match Config.BundleDependencies(target, build)
      case Err(e) => Err(e)
      case Ok(bundle) =>
        match Config.Compressed(target, build)
        case Err(e) => Err(e)
        case Ok(compressed) =>
          match Config.Interpreter(target, build)
          case Err(e) => Err(e)
          case Ok(interpreter) => Ok(Settings(parts.0, parts.1, bundle, compressed, interpreter))
  }

  /**
   * The outcome of a build from settings `s`, from filesystem `before` and
   * force-include table `fi` to `after` and `fi'`, with temporary archive `tmp`
   * and result `r`.
   */
  ghost predicate Built(before: Nodes, after: Nodes, fi: Dict, fi': Dict, directory: seq<string>,
                        projectName: string, version: string, s: Settings, reproducible: bool,
                        dependencies: seq<string>, executable: string, tempDir: seq<string>, pipTarget: string,
                        installed: Option<Listing>, recurse: Dict -> seq<IncludedFile>,
                        normalizeArtifactMode: int -> int, reproducibleTime: DateTime, now: DateTime,
                        tmp: Option<Path>, r: Result<Path, Error>)
  {
    // the temporary archive is made when the temporary directory exists, under a fresh name
    && (tmp.Some? <==> IsDirectory(before, tempDir))
    && (tmp.None? ==> r == Err(ListdirError(before, tempDir)) && after == before && fi' == fi)
    && (tmp.Some? ==> tmp.value.dir == tempDir && EndsWith(tmp.value.name, ".pyz") && tmp.value !in before)
    // a failure leaves at most the orphaned temporary archive; the final name is untouched
    && (r.Err? && tmp.Some? ==> tmp.value in after && after - {tmp.value} == before)
    // pip failing fails the build with its command line
    && (tmp.Some? && s.bundle && dependencies != [] && installed.None? ==>
          r == Err(CalledProcessError(PipCommand(executable, dependencies, pipTarget))))
    // what bundling leaves in the force-include table
    && (r.Ok? && s.bundle && dependencies != [] ==>
          installed.Some? && fi' == SetAll(fi, BundleEntries(pipTarget, installed.value)))
    && (r.Ok? && s.bundle && dependencies == [] ==> fi' == fi)
    && (r.Ok? && !s.bundle ==> fi' == fi)
    // success: the artifact holds the shebang and every entry; nothing else changed
    && (r.Ok? ==>
          tmp.Some?
          && var during := before[tmp.value := File(Bytes(Shebang(s.interpreter)), TempFileMode, now)];
             var es := ArchiveEntries(during, s.moduleName, s.callable, recurse(fi'), reproducible,
                                      CompressionFor(s.compressed), reproducibleTime, now);
             r.value == Path(directory, ArtifactName(projectName, version)) && es.Ok?
             && after == before[r.value := File(Zipapp(Shebang(s.interpreter), es.value),
                                                normalizeArtifactMode(TempFileMode), now)])
  }

  /**
   * The body of the `with` block of `build_standard` on a fresh archive:
   * `__main__.py`, then the included files; the archive is closed on every
   * exit, so its file is rewritten whether or not a file fails.
   */
  method FillArchive(archive: ZipappArchive, fs: FileSystem, moduleName: string, callable: string,
                     files: seq<IncludedFile>, reproducibleTime: DateTime, now: DateTime) returns (r: Outcome<Error>)
    requires archive.entries == [] && archive.path in fs.nodes && fs.nodes[archive.path].File?
    modifies archive, fs
    ensures var es := ArchiveEntries(old(fs.nodes), moduleName, callable, files, archive.reproducible,
                                     archive.compression, reproducibleTime, now);
      (r.Pass? <==> es.Ok?) && (es.Err? ==> r == Fail(es.error))
      && (archive.path in fs.nodes && fs.nodes[archive.path].File?)
      && fs.nodes == old(fs.nodes)[archive.path := fs.nodes[archive.path]]
      && (es.Ok? ==> fs.nodes[archive.path] == old(fs.nodes)[archive.path].(content := Zipapp(archive.prefix, es.value)))
  {
    archive.WriteDunderMain(moduleName, callable, reproducibleTime, now);
    r := AddIncludedFiles(archive, fs, files, reproducibleTime);
    ghost var es := ArchiveEntries(fs.nodes, moduleName, callable, files, archive.reproducible,
                                   archive.compression, reproducibleTime, now);
    assert es.Ok? ==> archive.entries == es.value;
    archive.Close(fs);
  }

  /** `replace_file(pyzapp.path, str(target))`, then `normalize_artifact_permissions(str(target))`. */
  method Publish(fs: FileSystem, src: Path, dst: Path, mode: int) returns (r: Outcome<Error>)
    modifies fs
    ensures r.Pass? <==> src in old(fs.nodes) && old(fs.nodes)[src].File? && IsDirectory(old(fs.nodes), dst.dir)
                         && !(dst in old(fs.nodes) && old(fs.nodes)[dst].Directory?)
    ensures r.Pass? ==> fs.nodes == (old(fs.nodes) - {src})[dst := old(fs.nodes)[src].(mode := mode)]
    ensures r.Fail? ==> fs.nodes == old(fs.nodes)
  {
    r := fs.Replace(src, dst);
    if r.Pass? {
      var chmodded := fs.Chmod(dst, mode);
      assert chmodded.Pass?;
    }
  }

  /** The loop of `build_standard` over the included files. */
  method AddIncludedFiles(archive: ZipappArchive, fs: FileSystem, files: seq<IncludedFile>, reproducibleTime: DateTime)
    returns (r: Outcome<Error>)
    modifies archive
    ensures var es := AddAll(files, Adder(fs.nodes, archive.reproducible, archive.compression, reproducibleTime));
      (r.Pass? <==> es.Ok?) && (es.Ok? ==> archive.entries == old(archive.entries) + es.value)
      && (es.Err? ==> r == Fail(es.error))
  {
    var add := Adder(fs.nodes, archive.reproducible, archive.compression, reproducibleTime);
    for i := 0 to |files|
      invariant AddAll(files[..i], add).Ok?
      invariant archive.entries == old(archive.entries) + AddAll(files[..i], add).value
    {
      AddAllStep(files, i, add);
      assert add(files[i]) == AddedEntry(fs.nodes, files[i], archive.reproducible, archive.compression, reproducibleTime);
      var added := archive.AddFile(fs, files[i], reproducibleTime);
      if added.Fail? {
        AddAllAfterError(files, i + 1, add);
        return added;
      }
    }
    assert files[..|files|] == files;
    r := Pass;
  }
}

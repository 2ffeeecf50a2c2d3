# hatch-pyz, modelled in Dafny

hatch-pyz is a Hatch build plugin. It packages a project as a self-executing
Python zip application (`<name>-<version>.pyz`). The archive has a
`#!interpreter` line in front, a generated `__main__.py` that imports and calls
the configured entry point, and the project's files. Optionally it also holds
the project's dependencies, installed by pip into a temporary directory.

The model covers:

- **Config** (`config.py`):
  - the default file-selection heuristic;
  - its case-insensitive name recovery (`get_raw_fs_path_name`);
  - the validators and defaults of `interpreter`, `main`, `compressed` and `bundle-dependencies`.
- **Builder** (`builder.py`), the newer builder:
  - the pip command line;
  - the `ZipappArchive` object: a temporary `.pyz` file that starts with the shebang, and the entries appended to it;
  - the sorted walk that registers bundled files in `force_include`;
  - `clean`;
  - `build_standard` up to the rename onto the artifact.
- **Plugin** (`plugin.py`), the older builder that the package registers:
  - its archive object, with the cached reproducible time;
  - the write through `atomic_write`;
  - the shebang rewrite afterwards.
- **Utils** (`utils.py`): `atomic_write`, as a state machine over an abstract filesystem.
- **Artifacts**: what both builders share:
  - the artifact name;
  - the clean operation;
  - splitting `main`;
  - the `__main__.py` text;
  - the shebang;
  - the fold of `add_file` over the included files.
- **Os** and **Zip**: the filesystem and `zipfile` at the level the code uses them.
  - The filesystem is a `map<Path, Node>` inside a `FileSystem` class whose methods stand for `mkstemp`, `os.replace`, `os.unlink` and `os.chmod`.
  - An archive is its prefix bytes followed by its list of entries. Each entry has a name, a date-time, an attribute, a compression type and data.

Objects that the source updates in place are classes here: the filesystem,
both `ZipappArchive` classes, and the builder's `force_include` table. Their
methods have loops with invariants and are proved against functions of the
inputs, such as `AddAll`, `ArchiveEntries`, `BundleEntries`, `Cleaned` and
`DefaultSelection`. The properties of those functions are proved as lemmas.

## Model

| member | source | states |
|---|---|---|
| Config.ExplicitSelectionPassesThrough | src/hatch_pyz/config.py:22-28 | if any of include, packages or only-include is truthy, the four settings are returned exactly as configured, each read from the target table, else the build table, else `[]` |
| Config.DefaultSelection | src/hatch_pyz/config.py:20-69 | a successful selection always carries the configured `exclude` unchanged; every failure is a `ValueError` |
| Config.DefaultFileSelectionOptions | src/hatch_pyz/config.py:20-69 | the loop over the raw and the normalised name, with early returns and the set of failed names whose sorted text goes into the error, gives exactly `DefaultSelection` |
| Config.CandidateByRule | src/hatch_pyz/config.py:35-53 | a rule that fires while no earlier rule does decides the name's selection |
| Config.TryProjectName | src/hatch_pyz/config.py:35-53 | the four checks for one name, in order and each returning early, give the selection of the first rule that fires for that name, or none |
| Config.FirstRule | src/hatch_pyz/config.py:35-53 | the rule chosen fires, and no rule before it in the order package dir, `src/` package dir, module file, namespace package fires; when there is none, no rule fires |
| Config.RuleSelection | src/hatch_pyz/config.py:35-53 | every rule's selection has an empty `include` and the configured `exclude` |
| Config.CandidateSelection | src/hatch_pyz/config.py:35-53 | a candidate's selection keeps `exclude` |
| Config.SelectionPrecedence | src/hatch_pyz/config.py:30-54 | without an explicit selection, the result is that of the first rule to fire in the order (candidate, rule), with the raw name's rules before the normalised name's |
| Config.SelectionFailure | src/hatch_pyz/config.py:54-69 | when no rule fires for either name, the error is the fixed `ValueError` text around the candidate names |
| Config.CandidateNamesSorted | src/hatch_pyz/config.py:56 | the names in the error are de-duplicated, sorted and joined by `" or "`: one name when both are equal, else the smaller one first |
| Config.HeuristicSelectionExists | src/hatch_pyz/config.py:35-53 | a heuristic result selects, for one of the names, an existing `__init__.py` package, a namespace directory holding that package, or the existing module file, with `include` empty |
| Config.RuleSelectionExists | src/hatch_pyz/config.py:35-53 | every rule's selection names something present in the tree |
| Config.PackageDirSelected | src/hatch_pyz/config.py:35-37 | the package-directory rule selects one package and no module file, and that package, in the listing's spelling, holds an `__init__.py` |
| Config.SrcPackageDirSelected | src/hatch_pyz/config.py:39-41 | the `src` rule selects one package and no module file, and that `src/` package, in the listing's spelling, holds an `__init__.py` |
| Config.NamespaceSelected | src/hatch_pyz/config.py:47-52 | the namespace rule selects one top-level directory and no module file, and that directory holds the package `<name>/__init__.py` |
| Config.PackageDirExists | src/hatch_pyz/config.py:35-41 | the recovered spelling of a package directory still names its `__init__.py` |
| Config.RawFsPathName | src/hatch_pyz/config.py:147-163 | the name returned case-folds to the given name. On a case-sensitive platform it is the name itself. Otherwise it is the first listing entry that folds equal, or the name when no entry does |
| Config.GetRawFsPathName | src/hatch_pyz/config.py:150-157 | the loop over the listing returns exactly `RawFsPathName` |
| Config.FirstSpellingRecovered | src/hatch_pyz/config.py:152-157 | of two listing entries `Foo` and `FOO` that both fold to `foo`, the first is returned |
| Config.FirstFoldMatch | src/hatch_pyz/config.py:152-157 | the index found is that of the first entry whose folding matches, and none before it matches; no index means no entry matches |
| Config.Interpreter | src/hatch_pyz/config.py:83-96 | the target table wins over the build table, with default `/usr/bin/env python3`; it is a string exactly when it is accepted; each table has its own `TypeError` text |
| Config.Compressed | src/hatch_pyz/config.py:117-130 | the target table wins over the build table, with default true; it is a boolean exactly when it is accepted; each table has its own `TypeError` text |
| Config.BundleDependenciesAsWritten | src/hatch_pyz/config.py:132-145 | the target key `bundle-dependencies` is honoured. Without it, the build table is read under the misspelt key `bundle-depenencies`: accepted exactly when it is a boolean, whose value is returned. With neither key present the result is true. Errors carry the one message of the source |
| Config.BuildLevelBundleSettingIgnored | src/hatch_pyz/config.py:140 | a build-level `bundle-dependencies = false` yields true as written and false as corrected |
| Config.BundleDependencies | src/hatch_pyz/config.py:132-145 | both tables are read under `bundle-dependencies`, the target table wins, and the default is true; a value is accepted exactly when it is a boolean |
| Config.MainAsWritten | src/hatch_pyz/config.py:98-115 | the target table's `main` wins, then the build table's. The value is accepted exactly when it is a string matching the pattern the way Python's `$` does, which allows one final line feed, and it is then returned unchanged. Every rejection is a `TypeError` |
| Config.NewlineMainAccepted | src/hatch_pyz/config.py:98-115 | the as-written validator accepts a target table's `main = "app:main\n"` and returns it unchanged |
| Config.TrailingNewlineAccepted | src/hatch_pyz/config.py:100 | `"app:main\n"` passes the pattern as written. It is no entry point, and it splits into `app` and `main\n` |
| Config.Main | src/hatch_pyz/config.py:98-115 | the target table wins, and there is no default; a value is accepted exactly when it is a string matching the whole pattern; every rejection is a `TypeError` |
| Config.ModulePathIsGroups | src/hatch_pyz/config.py:100 | the module part accepted by the direct scan is exactly the repetition `(([a-zA-Z0-9_]+)\.?)+` |
| Config.EntryPointSplit | src/hatch_pyz/config.py:100 | an accepted entry point splits on `:` into exactly two parts: a non-empty module path and a non-empty identifier, which rejoin to the input |
| Config.AsWrittenSplitHasTwoParts | src/hatch_pyz/config.py:100-115 | even the as-written pattern guarantees that `split(":")` has two parts |
| Artifacts.ArtifactName | src/hatch_pyz/builder.py:169 | the artifact name starts with `<name>-`, ends with `.pyz`, and holds exactly the version between them |
| Artifacts.ArtifactSuffix | src/hatch_pyz/utils.py:14 | `pathlib`'s suffix of the artifact name is `.pyz`, so `atomic_write`'s temporary file ends in `.pyz` |
| Artifacts.Cleaned | src/hatch_pyz/builder.py:144-147 | after cleaning, a path remains exactly when it was present and is not a `.pyz` entry of the directory; survivors are unchanged |
| Artifacts.CleanIdempotent | src/hatch_pyz/builder.py:144-147 | cleaning twice is cleaning once |
| Artifacts.CleanRemovesArtifact | src/hatch_pyz/builder.py:144-147 | the artifact a build writes is one that cleaning removes |
| Artifacts.Clean | src/hatch_pyz/builder.py:144-147 | `clean` of both builders. A missing directory fails with `os.listdir`'s error and changes nothing. It succeeds exactly when every `.pyz` entry is a file, and then leaves `Cleaned`. A `.pyz` directory fails with `IsADirectoryError` after removing only artifacts |
| Artifacts.AddAllOk | src/hatch_pyz/builder.py:184-185 | all included files are added exactly when each one can be, and then entry `i` is file `i`'s |
| Artifacts.AddAllFirstError | src/hatch_pyz/builder.py:184-185 | a failed loop reports the error of the first file that cannot be added |
| Artifacts.AddAllAgree | src/hatch_pyz/builder.py:184-185 | the entries depend only on what adding does with each included file |
| Artifacts.AddAllAfterError | src/hatch_pyz/builder.py:184-185 | once a prefix of the files fails, the whole loop fails with the same error |
| Artifacts.SplitMain | src/hatch_pyz/builder.py:171 | the unpacking of `main.split(":")` succeeds exactly when there is one colon, and the parts rejoin to `main` |
| Artifacts.ValidMainSplits | src/hatch_pyz/builder.py:171 | a validated `main` always unpacks, into a module path and a callable name |
| Artifacts.AsWrittenMainSplits | src/hatch_pyz/builder.py:171 | a `main` the as-written pattern accepts still unpacks into a module path and a callable. When `$` matched before a final line feed, the callable is a name followed by that line feed |
| Artifacts.DunderMainLines | src/hatch_pyz/builder.py:111-119 | the generated `__main__.py` is exactly three lines: the coding line, `import M`, `M.F()` |
| Artifacts.Shebang | src/hatch_pyz/builder.py:69 | the prefix starts with `#!`, ends with a line feed, and holds exactly the UTF-8 of the interpreter between them |
| Artifacts.ShebangIsOneLine | src/hatch_pyz/builder.py:69 | for an interpreter without a line feed, the shebang's only line feed is its last byte |
| Builder.PipCommand | src/hatch_pyz/builder.py:40-53 | the argv is the interpreter, `-m pip install`, the four fixed flags, `--target <dir>`, then the dependencies in order |
| Builder.DictSetLookup | src/hatch_pyz/builder.py:163 | after `force_include[k] = v`, `k` maps to `v` and other keys are unchanged |
| Builder.DictSetKeys | src/hatch_pyz/builder.py:163 | assignment keeps the key order, and a new key goes last |
| Builder.SetAllLookup | src/hatch_pyz/builder.py:158-163 | after the assignments, a key maps to the last value assigned to it, or to its old value |
| Builder.LevelPaths | src/hatch_pyz/builder.py:162-163 | one walk step yields one path per file, in order, each under the step's directory |
| Builder.EntriesOf | src/hatch_pyz/builder.py:163 | each walked path gives the pair (`<target>/<rel>`, `<rel>`) |
| Builder.BundleEntryShape | src/hatch_pyz/builder.py:163 | every registered key is the target directory, `/`, then its value |
| Builder.BundledFilesIncluded | src/hatch_pyz/builder.py:158-163 | after bundling, each walked file's key maps to its relative path, and keys the walk did not produce are untouched |
| Builder.WalkReachesEveryFile | src/hatch_pyz/builder.py:158-163 | the sorted walk yields exactly the files of the installed tree, measured against a reference enumeration |
| Builder.WalkDirsReachFiles | src/hatch_pyz/builder.py:158-163 | walking the sorted sub-directories yields exactly the files beneath them |
| Builder.ListingOrderIrrelevant | src/hatch_pyz/builder.py:158-163 | because `dirs` and `files` are sorted, any order of the installed top-level entries gives the same assignments in the same order |
| Builder.PythonZipappBuilder.BundleDependencies | src/hatch_pyz/builder.py:149-165 | no dependencies: nothing runs and `force_include` is unchanged. pip failing is a `CalledProcessError` with its argv. Otherwise `force_include` has had every `BundleEntries` assignment applied, in order |
| Builder.PythonZipappBuilder.RegisterLevel | src/hatch_pyz/builder.py:162-163 | the inner loop applies one walk step's assignments |
| Builder.PythonZipappBuilder.BuildStandard | src/hatch_pyz/builder.py:167-190 | a configuration error is raised before anything is touched; otherwise the build's outcome is `Built` |
| Builder.PythonZipappBuilder.BuildFromSettings | src/hatch_pyz/builder.py:172-188 | the outcome is `Built`. There is no temporary archive only when the temporary directory is missing. A failure leaves the orphaned temporary archive and no other change. Success replaces only the artifact path, with the shebang and `ArchiveEntries` of the included files re-listed after bundling, under the normalised mode |
| Builder.ArchiveLayout | src/hatch_pyz/builder.py:81-123 | the archive is complete exactly when every included file exists and is no directory. It then holds `__main__.py` first, then each file's bytes under its distribution path, in order, every entry with the archive's compression |
| Builder.ArchiveFailure | src/hatch_pyz/builder.py:83-98 | a failed archive reports the first included file that is missing (`FileNotFoundError`) or a directory (`IsADirectoryError`) |
| Builder.ReproducibleTimestamps | src/hatch_pyz/builder.py:85-107 | in reproducible mode every entry, `__main__.py` included, has the one reproducible time |
| Builder.SourceTimestamps | src/hatch_pyz/builder.py:93-107 | otherwise `__main__.py` has the clock reading and each file its own modification time and `from_file` attribute |
| Builder.ReproducibleIgnoresTimes | src/hatch_pyz/builder.py:85-92 | a reproducible archive depends neither on the clock nor on the sources' modification times |
| Builder.UnrelatedPathIrrelevant | src/hatch_pyz/builder.py:83 | a path no included file names, such as the fresh temporary archive, does not affect the entries |
| Builder.ZipappArchive.constructor | src/hatch_pyz/builder.py:62-64 | the archive records the reproducible flag, the compression, its path and its prefix, and has no entries |
| Builder.ZipappArchive.Open | src/hatch_pyz/builder.py:62-72 | `mkstemp(suffix=".pyz")` gives a fresh temporary file, into which the shebang is written before any entry. The compression is deflate exactly when `compressed` is set |
| Builder.ZipappArchive.AddFile | src/hatch_pyz/builder.py:81-103 | appends the file's entry, or raises and appends nothing. Reproducible: the reproducible time and the normalised mode. Otherwise: the `from_file` time and attribute. Always the archive's compression and the file's bytes |
| Builder.ZipappArchive.WriteFile | src/hatch_pyz/builder.py:105-109 | appends a bare entry with the reproducible time or the clock reading, and the archive's compression |
| Builder.ZipappArchive.WriteDunderMain | src/hatch_pyz/builder.py:111-119 | appends `__main__.py` holding the UTF-8 of the three-line script |
| Builder.ZipappArchive.Close | src/hatch_pyz/builder.py:121-123 | the temporary file then holds the prefix followed by the entries |
| Builder.ReadSettings | src/hatch_pyz/builder.py:171-181 | the reads succeed exactly when all four settings are valid, and then give the split of `main` and the three values. The first failing read, in the order `main`, `bundle_depenencies`, `compressed`, `interpreter`, is the error |
| Builder.FillArchive | src/hatch_pyz/builder.py:183-185 | the block succeeds exactly when `ArchiveEntries` does, otherwise it raises that error. Only the temporary file changes. It then holds `ArchiveEntries` behind the prefix |
| Builder.AddIncludedFiles | src/hatch_pyz/builder.py:184-185 | the loop appends `AddAll` of the files, or stops at the first error |
| Builder.Publish | src/hatch_pyz/builder.py:187-188 | the temporary file is renamed onto the artifact, which takes the normalised mode. On failure nothing changes |
| Zip.CompressionFor | src/hatch_pyz/builder.py:64 | `ZIP_DEFLATED` exactly when compressed, else `ZIP_STORED` |
| Zip.ModeBitsOfFromFile | src/hatch_pyz/plugin.py:45 | `(external_attr >> 16) & 0xFFFF` of a `from_file` entry is the source's mode modulo `0x10000` |
| Zip.CopyChunked | src/hatch_pyz/builder.py:98-103 | the copy loop writes exactly the source bytes, in order, in non-empty chunks of at most the chunk size, stopping at the first empty read |
| Zip.CopyContent | src/hatch_pyz/plugin.py:48-49 | the copied data equals the source file's content |
| Os.FileSystem.Mkstemp | src/hatch_pyz/utils.py:14 | creates a fresh, empty `0o600` file in the directory, with the suffix; if the directory is missing it raises and changes nothing |
| Os.FileSystem.Replace | src/hatch_pyz/utils.py:18 | when the source is a file, the destination's directory exists and the destination is not a directory, the file moves to the destination, replacing it; otherwise it changes nothing and raises, in this order: `FileNotFoundError` for a missing source, then for a missing directory, then `IsADirectoryError` for a directory destination |
| Os.FileSystem.Unlink | src/hatch_pyz/utils.py:20 | removes a file; for a missing path or a directory it raises the matching error and changes nothing |
| Os.FileSystem.Chmod | src/hatch_pyz/builder.py:188 | sets the mode of an existing file and changes nothing else. A directory is accepted unchanged, and a missing path raises `FileNotFoundError` |
| Utils.Suffix | src/hatch_pyz/utils.py:14 | `pathlib`'s suffix is the name's tail from its last dot, unless that dot is the name's first or last character |
| Utils.AtomicWrite | src/hatch_pyz/utils.py:11-21 | the temporary file sits beside the destination with its suffix. The destination changes only when the block completes and the replace succeeds, and it then holds exactly what was written. On any failure nothing is changed, the temporary file included. The exception that propagates is the block's own, or, when the block completed, the `IsADirectoryError` of the replace |
| Plugin.CompressionIgnoredAsWritten | src/hatch_pyz/plugin.py:36-57 | as written, `compressed = true` selects deflate for the container, yet every entry `add_file` and `write_file` make is stored |
| Plugin.CompressionApplied | src/hatch_pyz/plugin.py:36-57 | the corrected entries carry the archive's compression and agree with the as-written ones in everything else, errors included |
| Plugin.SameDunderMain | src/hatch_pyz/plugin.py:99-101 | the older builder's concatenated `__main__.py` is the same text as the newer builder's joined lines |
| Plugin.ArchiveLayout | src/hatch_pyz/plugin.py:103-110 | the archive is complete exactly when every included file exists and is no directory. It then holds `__main__.py` and each file's bytes in order, with the archive's compression |
| Plugin.ArchiveFailure | src/hatch_pyz/plugin.py:36-40 | a failed archive reports its first offending file: `FileNotFoundError` for a missing one, the fixed `ValueError` for a directory |
| Plugin.ReproducibleMetadata | src/hatch_pyz/plugin.py:42-46 | in reproducible mode every entry has the one shared time, and each file's attribute is computed from its mode modulo `0x10000` alone |
| Plugin.SourceMetadata | src/hatch_pyz/plugin.py:53-56 | otherwise `__main__.py` has the clock reading, and each file keeps the `from_file` time and attribute |
| Plugin.ReproducibleIgnoresTimes | src/hatch_pyz/plugin.py:42-46 | a reproducible archive depends neither on the clock nor on the sources' modification times |
| Plugin.ZipappArchive.constructor | src/hatch_pyz/plugin.py:29-31 | a new archive has no entries and no cached time |
| Plugin.ZipappArchive.ReproducibleDateTime | src/hatch_pyz/plugin.py:59-61 | the first reading is cached and returned on every later call |
| Plugin.ZipappArchive.AddFile | src/hatch_pyz/plugin.py:33-49 | appends the file's entry, with the cached time when reproducible, or raises before anything is written or cached |
| Plugin.ZipappArchive.WriteFile | src/hatch_pyz/plugin.py:51-57 | appends a bare entry with the cached time when reproducible, else the clock reading |
| Plugin.FillArchive | src/hatch_pyz/plugin.py:103-110 | the block appends exactly `ArchiveEntries`, whose every reproducible entry has the first timestamp reading, however many later readings differ. It raises the first file's error |
| Plugin.BuildStandard | src/hatch_pyz/plugin.py:89-118 | a bad `main` or `compressed` is raised with nothing changed. Otherwise the outcome is `Published` at `<name>-<version>.pyz` with `main`'s two parts |
| Plugin.WriteArchive | src/hatch_pyz/plugin.py:103-110 | the `with ZipappArchive.open(...)` block publishes exactly when the output directory exists, every file can be added and the target is no directory. It then leaves the target holding the entries at mode `0o600`. Otherwise it reports the missing directory or the first file's error and changes nothing |
| Plugin.Publish | src/hatch_pyz/plugin.py:103-116 | `Published`: nothing changes until the archive is complete. It is then published through `atomic_write` with mode `0o600`. A bad `interpreter` is raised only after that, leaving the shebang-less archive. Otherwise the artifact is rewritten with the shebang, or none for an empty interpreter |

## Left out

- Subprocess and pip: `pip install` is not run. Its outcome is the parameter `installed`: the tree it leaves, or None for a failing exit. The installed files are described by that listing and are not added to the filesystem.
- Builder.PythonZipappBuilder.BuildFromSettings: the files pip installs under `pipTarget` never enter the filesystem model, because the listing carries no file contents. A bundled build whose included files name them therefore succeeds only if those files already exist in the filesystem before the build; otherwise adding them raises `FileNotFoundError`, where builder.py:155-185 archives them.
- `TemporaryDirectory` is not modelled: the directory pip installs into is the parameter `pipTarget`, and its creation and cleanup are left out.
- Hatchling helpers are not modelled:
  - `normalize_file_permissions` and `set_zip_info_mode` are kept symbolic as `NormalizedAttr`/`NormalizedMaskedAttr` of the mode they are applied to.
  - `normalize_archive_path` is taken as the identity on distribution paths.
  - `recurse_included_files` is the parameter `recurse` (a function of `force_include`) in the newer builder and `files` in the older one.
  - `normalize_file_name_component` is applied by the caller: names arrive normalised.
  - `replace_file` is taken as `os.replace`, without its copy fallback.
  - `normalize_artifact_permissions` is the parameter `normalizeArtifactMode`.
  - `get_reproducible_timestamp` and its UTC conversion are the parameter `reproducibleTime`, or `readings(i)` for the `i`-th call in the older builder.
- Time and encoding:
  - `time.localtime(time.time())` is the parameter `now`; it is also the time given to files the build creates.
  - The shebang is encoded as UTF-8, whatever the filesystem encoding.
  - `casefold` is ASCII lower-casing only.
- Zip at the byte level: the local headers, CRCs, the deflate stream and the central directory are not modelled, nor the byte equality of two builds. An archive is its prefix and its entries. The `1980` lower bound on zip timestamps and the duplicate-name warning of `zipfile` are not modelled.
- The configuration properties are `cached_property`s; they are modelled as pure functions of the two tables, re-read where the code reads them. `reproducible` is the parameter `reproducible`.
- File-selection heuristic:
  - the root, `src` and the glob see one tree of files;
  - symbolic links and hidden directories beyond the glob's own rule are not modelled.
- Concurrency and the debug `display_debug` calls are left out. So is `hooks.py`, which only registers the older builder.
- Plugin.Publish: the archive body is computed before `atomic_write` creates its temporary file. Included files therefore cannot include that temporary file, which in the source is possible only if an included path names it.
- Plugin.AddedEntry, Plugin.WrittenEntry and everything built on them (ArchiveEntries, Publish, BuildStandard): the corrected definitions of the first finding below, not the as-written compression.
- Plugin.ZipappArchive.AddFile, Plugin.ZipappArchive.WriteFile, Plugin.ArchiveLayout, Plugin.FillArchive and Plugin.WriteArchive: their entries carry the archive's compression, the corrected behaviour of the first finding below. As written, plugin.py:36-57 stores every entry with `ZIP_STORED`.
- Builder.ListingOrderIrrelevant: proved for reorderings of the installed tree's top-level entries; deeper levels are not reordered in the statement.
- Builder.ReadSettings: reads `main` and `bundle-dependencies` through the corrected Config.Main and Config.BundleDependencies of the second and third findings below, where builder.py:171 and builder.py:174 read the as-written properties. As written, a build-level `bundle-dependencies = false` still bundles, and `main = "app:main\n"` is accepted and split into `app` and `main\n` (Artifacts.AsWrittenMainSplits). The model instead stops bundling, and rejects that `main` with `TypeError`.
- Builder.PythonZipappBuilder.BuildStandard: built on Builder.ReadSettings, so it inherits the same two corrections.
- Plugin.BuildStandard: validates `main` with the corrected Config.Main, where plugin.py:98 reads the as-written property. So `main = "app:main\n"` is rejected with `TypeError` instead of producing an archive whose `__main__.py` ends in `app.main\n()`.
- The older builder has no dependency bundling. Its test for bundled dependencies patches `hatch_pyz.plugin.pip_install`, which that module does not define. That test is outside this model.

## Findings

| source | as written | input that shows it | evidently intended | confidence | as-written member | corrected member |
|---|---|---|---|---|---|---|
| src/hatch_pyz/plugin.py:36-57 | entries built from a `ZipInfo` keep its default `ZIP_STORED`, and the container's `ZIP_DEFLATED` only reaches entries written without a `ZipInfo`. So `compressed = true` produces an uncompressed archive | `compressed = true`, any included file | every entry deflated when compressed, as the newer builder does and as `tests/test_pyz.py:73-84` expects | not executed | Plugin.CompressionIgnoredAsWritten | Plugin.CompressionApplied |
| src/hatch_pyz/config.py:140 | the build-table key is spelt `bundle-depenencies`, so `bundle-dependencies = false` under `[tool.hatch.build]` is ignored and bundling stays on. The messages name the misspelt key | build table `{"bundle-dependencies": false}`, empty target table | the same key `bundle-dependencies` in both tables, with messages naming the table they come from | not executed | Config.BuildLevelBundleSettingIgnored | Config.BundleDependencies |
| src/hatch_pyz/config.py:100-111 | `re.match` with a pattern ending in `$` also matches before a final line feed, so `main = "app:main\n"` is accepted. The callable part then contains the line feed, which makes the generated `__main__.py` call `app.main\n()` | `main = "app:main\n"` | only the whole string `pkg.module:callable` | not executed | Config.TrailingNewlineAccepted | Config.Main |

/**
 * The older zipapp builder, the one the package registers. Its archive is
 * written through `atomic_write` straight onto `<name>-<version>.pyz`; the
 * shebang is added afterwards by rewriting the published file with
 * `zipapp.create_archive`. It has no dependency bundling.
 */
module Plugin {
  import opened Wrappers
  import opened Strings
  import opened Zip
  import opened Os
  import Utils
  import Config
  import opened Artifacts

  /** `shutil.copyfileobj(src, dest, 8 * 1024)`. */
  const ChunkSize: nat := 8192

  const AddDirectoryMessage := "ZipArchive.add_file does not support adding directories"

  // ================================================================ entries as the code writes them

  /**
   * `add_file` as written: `ZipInfo.from_file` (which raises for a missing
   * path), a `ValueError` for a directory, and in reproducible mode the one
   * shared time and the masked normalised mode. The entry keeps the
   * `ZIP_STORED` a `ZipInfo` is created with, whatever the container's compression.
   */
  function AddedEntryAsWritten(nodes: Nodes, file: IncludedFile, reproducible: bool, dateTime: DateTime)
    : Result<Entry, Error>
  {
    if file.path !in nodes then Err(FileNotFoundError(file.path))
    else
      match nodes[file.path]
      case Directory => Err(ValueError(AddDirectoryMessage))
      case File(content, mode, mtime) =>
        var externalAttr := FromFileExternalAttr(mode, false);
        if reproducible then
          Ok(Entry(file.distributionPath, dateTime, NormalizedMaskedAttr(ModeBits(externalAttr)), Stored, content))
        else Ok(Entry(file.distributionPath, mtime, FileAttr(externalAttr), Stored, content))
  }

  /** `write_file` as written: `writestr` with a bare `ZipInfo` and no `compress_type`, so `ZIP_STORED`. */
  function WrittenEntryAsWritten(name: string, data: seq<byte>, reproducible: bool, dateTime: DateTime, now: DateTime)
    : Entry
  {
    Entry(name, if reproducible then dateTime else now, DefaultAttr, Stored, Bytes(data))
  }

  /**
   * As written, `compressed = true` is not honoured: the container is opened
   * with `ZIP_DEFLATED`, yet every entry either method writes is `ZIP_STORED`.
   */
  lemma CompressionIgnoredAsWritten(nodes: Nodes, file: IncludedFile, reproducible: bool, dateTime: DateTime,
                                    name: string, data: seq<byte>, now: DateTime)
    ensures CompressionFor(true) == Deflated
    ensures AddedEntryAsWritten(nodes, file, reproducible, dateTime).Ok? ==>
      AddedEntryAsWritten(nodes, file, reproducible, dateTime).value.compressType == Stored
    ensures WrittenEntryAsWritten(name, data, reproducible, dateTime, now).compressType == Stored
  {
  }

  // ================================================================ entries as intended

  /** `add_file` with the entry taking the archive's compression, as the newer builder does. */
  function AddedEntry(nodes: Nodes, file: IncludedFile, reproducible: bool, compression: CompressType, dateTime: DateTime)
    : Result<Entry, Error>
  {
    match AddedEntryAsWritten(nodes, file, reproducible, dateTime)
    case Err(e) => Err(e)
    case Ok(entry) => Ok(entry.(compressType := compression))
  }

  /** `write_file` with the entry taking the archive's compression. */
  function WrittenEntry(name: string, data: seq<byte>, reproducible: bool, compression: CompressType,
                        dateTime: DateTime, now: DateTime): Entry
  {
    WrittenEntryAsWritten(name, data, reproducible, dateTime, now).(compressType := compression)
  }

  /**
   * Corrected entries carry the archive's compression and otherwise agree with
   * the code as written: same errors, names, times, attributes and data.
   */
  lemma CompressionApplied(nodes: Nodes, file: IncludedFile, reproducible: bool, compression: CompressType,
                           dateTime: DateTime, name: string, data: seq<byte>, now: DateTime)
    ensures var fixed := AddedEntry(nodes, file, reproducible, compression, dateTime);
      var asWritten := AddedEntryAsWritten(nodes, file, reproducible, dateTime);
      (fixed.Ok? <==> asWritten.Ok?) && (fixed.Err? ==> fixed.error == asWritten.error)
      && (fixed.Ok? ==> fixed.value.compressType == compression
                        && fixed.value.(compressType := Stored) == asWritten.value)
    ensures WrittenEntry(name, data, reproducible, compression, dateTime, now).compressType == compression
    ensures WrittenEntry(name, data, reproducible, compression, dateTime, now).(compressType := Stored)
         == WrittenEntryAsWritten(name, data, reproducible, dateTime, now)
  {
  }

  function Adder(nodes: Nodes, reproducible: bool, compression: CompressType, dateTime: DateTime)
    : IncludedFile -> Result<Entry, Error>
  {
    file => AddedEntry(nodes, file, reproducible, compression, dateTime)
  }

  /** The `__main__.py` text `build_standard` builds from three concatenated lines. */
  function DunderMainSource(moduleName: string, callable: string): string
  {
    "# -*- coding: utf-8 -*-\n" + "import " + moduleName + "\n" + moduleName + "." + callable + "()"
  }

  /** Both builders generate the same `__main__.py`. */
  lemma SameDunderMain(moduleName: string, callable: string)
    ensures DunderMainSource(moduleName, callable) == DunderMainText(moduleName, callable)
  {
    var lines := ["# -*- coding: utf-8 -*-", "import " + moduleName, moduleName + "." + callable + "()"];
    assert Join(lines, "\n") == lines[0] + "\n" + Join(lines[1..], "\n");
    assert Join(lines[1..], "\n") == lines[1] + "\n" + Join(lines[2..], "\n");
    assert Join(lines[2..], "\n") == lines[2];
  }

  /** The entries of a finished archive: `__main__.py`, then one per included file; or the first error. */
  function ArchiveEntries(nodes: Nodes, moduleName: string, callable: string, files: seq<IncludedFile>,
                          reproducible: bool, compression: CompressType, dateTime: DateTime, now: DateTime)
    : Result<seq<Entry>, Error>
  {
    match AddAll(files, Adder(nodes, reproducible, compression, dateTime))
    case Err(e) => Err(e)
    case Ok(es) =>
      Ok([WrittenEntry("__main__.py", Utf8(DunderMainSource(moduleName, callable)), reproducible, compression,
                       dateTime, now)] + es)
  }

  /**
   * The archive is complete exactly when every included file exists and is not
   * a directory; it then holds `__main__.py` and each file's bytes in order,
   * every entry with the archive's compression. Otherwise the first offending
   * file is reported: missing, or a directory rejected with `ValueError`.
   */
  lemma ArchiveLayout(nodes: Nodes, moduleName: string, callable: string, files: seq<IncludedFile>,
                      reproducible: bool, compression: CompressType, dateTime: DateTime, now: DateTime)
    ensures var r := ArchiveEntries(nodes, moduleName, callable, files, reproducible, compression, dateTime, now);
      (r.Ok? <==> forall i :: 0 <= i < |files| ==> files[i].path in nodes && nodes[files[i].path].File?)
      && (r.Ok? ==>
            |r.value| == |files| + 1
            && r.value[0].name == "__main__.py"
            && r.value[0].data == Bytes(Utf8(DunderMainSource(moduleName, callable)))
            && (forall i :: 0 <= i < |files| ==>
                  r.value[i + 1].name == files[i].distributionPath && r.value[i + 1].data == nodes[files[i].path].content)
            && (forall i :: 0 <= i < |r.value| ==> r.value[i].compressType == compression))
  {
    ArchiveCompleteness(nodes, moduleName, callable, files, reproducible, compression, dateTime, now);
    var r := ArchiveEntries(nodes, moduleName, callable, files, reproducible, compression, dateTime, now);
    if r.Ok? {
      ArchiveHead(nodes, moduleName, callable, files, reproducible, compression, dateTime, now);
      forall i | 0 <= i < |files|
        ensures r.value[i + 1].name == files[i].distributionPath && r.value[i + 1].data == nodes[files[i].path].content
      {
        ArchiveFileEntry(nodes, moduleName, callable, files, reproducible, compression, dateTime, now, i);
      }
      forall i | 0 < i < |r.value| ensures r.value[i].compressType == compression {
        ArchiveFileEntry(nodes, moduleName, callable, files, reproducible, compression, dateTime, now, i - 1);
      }
    }
  }

  lemma ArchiveCompleteness(nodes: Nodes, moduleName: string, callable: string, files: seq<IncludedFile>,
                            reproducible: bool, compression: CompressType, dateTime: DateTime, now: DateTime)
    ensures ArchiveEntries(nodes, moduleName, callable, files, reproducible, compression, dateTime, now).Ok?
        <==> forall i :: 0 <= i < |files| ==> files[i].path in nodes && nodes[files[i].path].File?
  {
    var add := Adder(nodes, reproducible, compression, dateTime);
    forall i | 0 <= i < |files|
      ensures add(files[i]).Ok? <==> files[i].path in nodes && nodes[files[i].path].File?
    {
      AddedEntryShape(nodes, files[i], reproducible, compression, dateTime);
    }
    AddAllOk(files, add);
  }

  lemma ArchiveHead(nodes: Nodes, moduleName: string, callable: string, files: seq<IncludedFile>,
                    reproducible: bool, compression: CompressType, dateTime: DateTime, now: DateTime)
    requires ArchiveEntries(nodes, moduleName, callable, files, reproducible, compression, dateTime, now).Ok?
    ensures var es := ArchiveEntries(nodes, moduleName, callable, files, reproducible, compression, dateTime, now).value;
      |es| == |files| + 1
      && es[0].name == "__main__.py"
      && es[0].data == Bytes(Utf8(DunderMainSource(moduleName, callable)))
      && es[0].compressType == compression
  {
    AddAllOk(files, Adder(nodes, reproducible, compression, dateTime));
  }

  lemma ArchiveFileEntry(nodes: Nodes, moduleName: string, callable: string, files: seq<IncludedFile>,
                         reproducible: bool, compression: CompressType, dateTime: DateTime, now: DateTime, i: nat)
    requires ArchiveEntries(nodes, moduleName, callable, files, reproducible, compression, dateTime, now).Ok?
    requires i < |files|
    ensures files[i].path in nodes && nodes[files[i].path].File?
    ensures var es := ArchiveEntries(nodes, moduleName, callable, files, reproducible, compression, dateTime, now).value;
      i + 1 < |es| && es[i + 1].name == files[i].distributionPath && es[i + 1].data == nodes[files[i].path].content
      && es[i + 1].compressType == compression
  {
    var add := Adder(nodes, reproducible, compression, dateTime);
    AddAllOk(files, add);
    AddedEntryShape(nodes, files[i], reproducible, compression, dateTime);
    assert add(files[i]) == AddedEntry(nodes, files[i], reproducible, compression, dateTime);
  }

  /** One file's entry: present exactly for an existing regular file, and then its name, bytes and compression. */
  lemma AddedEntryShape(nodes: Nodes, file: IncludedFile, reproducible: bool, compression: CompressType,
                        dateTime: DateTime)
    ensures var r := AddedEntry(nodes, file, reproducible, compression, dateTime);
      (r.Ok? <==> file.path in nodes && nodes[file.path].File?)
      && (r.Ok? ==> r.value.name == file.distributionPath && r.value.data == nodes[file.path].content
                    && r.value.compressType == compression)
  {
  }

  lemma ArchiveFailure(nodes: Nodes, moduleName: string, callable: string, files: seq<IncludedFile>,
                       reproducible: bool, compression: CompressType, dateTime: DateTime, now: DateTime)
    requires ArchiveEntries(nodes, moduleName, callable, files, reproducible, compression, dateTime, now).Err?
    ensures exists k :: (0 <= k < |files| && !(files[k].path in nodes && nodes[files[k].path].File?)
      && (forall j :: 0 <= j < k ==> files[j].path in nodes && nodes[files[j].path].File?)
      && ArchiveEntries(nodes, moduleName, callable, files, reproducible, compression, dateTime, now).error
         == if files[k].path in nodes then ValueError(AddDirectoryMessage) else FileNotFoundError(files[k].path))
  {
    var add := Adder(nodes, reproducible, compression, dateTime);
    AddAllFirstError(files, add);
  }

  /**
   * In reproducible mode every entry carries the one shared time, and a file's
   * attribute is derived from the low 16 bits of its mode alone.
   */
  lemma ReproducibleMetadata(nodes: Nodes, moduleName: string, callable: string, files: seq<IncludedFile>,
                             compression: CompressType, dateTime: DateTime, now: DateTime)
    requires ArchiveEntries(nodes, moduleName, callable, files, true, compression, dateTime, now).Ok?
    ensures forall i :: 0 <= i < |files| ==> files[i].path in nodes && nodes[files[i].path].File?
    ensures var es := ArchiveEntries(nodes, moduleName, callable, files, true, compression, dateTime, now).value;
      |es| == |files| + 1
      && (forall i :: 0 <= i < |es| ==> es[i].dateTime == dateTime)
      && forall i :: 0 <= i < |files| ==> es[i + 1].attr == NormalizedMaskedAttr(nodes[files[i].path].mode % 0x10000)
  {
    var add := Adder(nodes, true, compression, dateTime);
    AddAllOk(files, add);
    var added := AddAll(files, add).value;
    var es := [WrittenEntry("__main__.py", Utf8(DunderMainSource(moduleName, callable)), true, compression,
                            dateTime, now)] + added;
    forall i | 0 <= i < |files|
      ensures files[i].path in nodes && nodes[files[i].path].File?
      ensures es[i + 1].dateTime == dateTime
      ensures es[i + 1].attr == NormalizedMaskedAttr(nodes[files[i].path].mode % 0x10000)
    {
      assert es[i + 1] == added[i] == add(files[i]).value;
      assert add(files[i]) == AddedEntry(nodes, files[i], true, compression, dateTime);
      ModeBitsOfFromFile(nodes[files[i].path].mode, false);
    }
  }

  /** Outside reproducible mode `__main__.py` carries the clock reading and each file its `from_file` metadata. */
  lemma SourceMetadata(nodes: Nodes, moduleName: string, callable: string, files: seq<IncludedFile>,
                       compression: CompressType, dateTime: DateTime, now: DateTime)
    requires ArchiveEntries(nodes, moduleName, callable, files, false, compression, dateTime, now).Ok?
    ensures forall i :: 0 <= i < |files| ==> files[i].path in nodes && nodes[files[i].path].File?
    ensures var es := ArchiveEntries(nodes, moduleName, callable, files, false, compression, dateTime, now).value;
      |es| == |files| + 1 && es[0].dateTime == now && es[0].attr == DefaultAttr
      && forall i :: 0 <= i < |files| ==>
           (es[i + 1].dateTime == nodes[files[i].path].mtime
            && es[i + 1].attr == FileAttr(FromFileExternalAttr(nodes[files[i].path].mode, false)))
  {
    var add := Adder(nodes, false, compression, dateTime);
    AddAllOk(files, add);
    var added := AddAll(files, add).value;
    var es := [WrittenEntry("__main__.py", Utf8(DunderMainSource(moduleName, callable)), false, compression,
                            dateTime, now)] + added;
    forall i | 0 <= i < |files|
      ensures files[i].path in nodes && nodes[files[i].path].File?
      ensures es[i + 1].dateTime == nodes[files[i].path].mtime
      ensures es[i + 1].attr == FileAttr(FromFileExternalAttr(nodes[files[i].path].mode, false))
    {
      assert es[i + 1] == added[i] == add(files[i]).value;
      assert add(files[i]) == AddedEntry(nodes, files[i], false, compression, dateTime);
    }
  }

  /** A reproducible archive does not depend on the clock nor on the sources' modification times. */
  lemma ReproducibleIgnoresTimes(nodes: Nodes, nodes': Nodes, moduleName: string, callable: string,
                                 files: seq<IncludedFile>, compression: CompressType, dateTime: DateTime,
                                 now: DateTime, now': DateTime)
    requires SameSources(nodes, nodes', files)
    ensures ArchiveEntries(nodes, moduleName, callable, files, true, compression, dateTime, now)
         == ArchiveEntries(nodes', moduleName, callable, files, true, compression, dateTime, now')
  {
    var add := Adder(nodes, true, compression, dateTime);
    var add' := Adder(nodes', true, compression, dateTime);
    forall i | 0 <= i < |files| ensures add(files[i]) == add'(files[i]) {
      assert add(files[i]) == AddedEntry(nodes, files[i], true, compression, dateTime);
      assert add'(files[i]) == AddedEntry(nodes', files[i], true, compression, dateTime);
    }
    AddAllAgree(files, add, add');
  }

  // ================================================================ the archive object

  /** `time.gmtime(...)` of the cached property: the cached value, or else this reading. */
  function CachedTime(cached: Option<DateTime>, reading: DateTime): DateTime
  {
    if cached.Some? then cached.value else reading
  }

  /**
   * `ZipappArchive` around the open `ZipFile`: the entries written so far, and
   * the cache of `_reproducible_date_time`. `reading` parameters stand for what
   * `get_reproducible_timestamp` would return at that call.
   */
  class ZipappArchive {
    const reproducible: bool
    const compression: CompressType
    var entries: seq<Entry>
    var cachedDateTime: Option<DateTime>

    /** `ZipappArchive(zipfd, reproducible=...)`, on a container opened with `compression`. */
    constructor (reproducible: bool, compression: CompressType)
      ensures this.reproducible == reproducible && this.compression == compression
      ensures entries == [] && cachedDateTime == None
    {
      this.reproducible := reproducible;
      this.compression := compression;
      entries := [];
      cachedDateTime := None;
    }

    /** `_reproducible_date_time`: the first reading is cached and returned from then on. */
    method ReproducibleDateTime(reading: DateTime) returns (t: DateTime)
      modifies this
      ensures t == CachedTime(old(cachedDateTime), reading)
      ensures cachedDateTime == Some(t) && entries == old(entries)
    {
      if cachedDateTime.None? {
        cachedDateTime := Some(reading);
      }
      t := cachedDateTime.value;
    }

    /** `add_file(included_file)`: appends the file's entry, or raises before writing anything. */
    method AddFile(fs: FileSystem, file: IncludedFile, reading: DateTime) returns (r: Outcome<Error>)
      modifies this
      ensures var added := AddedEntry(fs.nodes, file, reproducible, compression, CachedTime(old(cachedDateTime), reading));
        (added.Ok? ==> r == Pass && entries == old(entries) + [added.value])
        && (added.Err? ==> r == Fail(added.error) && entries == old(entries))
        && cachedDateTime == if added.Ok? && reproducible then Some(CachedTime(old(cachedDateTime), reading))
                             else old(cachedDateTime)
    {
      if file.path !in fs.nodes {
        return Fail(FileNotFoundError(file.path));
      }
      var node := fs.nodes[file.path];
      if node.Directory? {
        return Fail(ValueError(AddDirectoryMessage));
      }
      var externalAttr := FromFileExternalAttr(node.mode, false);
      var dateTime, attr := node.mtime, FileAttr(externalAttr);
      if reproducible {
        dateTime := ReproducibleDateTime(reading);
        attr := NormalizedMaskedAttr(ModeBits(externalAttr));
      }
      var data := CopyContent(node.content, ChunkSize);
      entries := entries + [Entry(file.distributionPath, dateTime, attr, compression, data)];
      r := Pass;
    }

    /** `write_file(path, data)`. */
    method WriteFile(name: string, data: seq<byte>, reading: DateTime, now: DateTime)
      modifies this
      ensures entries == old(entries)
                         + [WrittenEntry(name, data, reproducible, compression, CachedTime(old(cachedDateTime), reading), now)]
      ensures cachedDateTime == if reproducible then Some(CachedTime(old(cachedDateTime), reading)) else old(cachedDateTime)
    {
      var dateTime := now;
      if reproducible {
        dateTime := ReproducibleDateTime(reading);
      }
      entries := entries + [Entry(name, dateTime, DefaultAttr, compression, Bytes(data))];
    }
  }

  /**
   * The body of `with ZipappArchive.open(target, ...) as archive`: the
   * `__main__.py` entry, then each included file. Call `i` of the archive's
   * clock (0 for `__main__.py`, `i + 1` for file `i`) reads `readings(i)`; the
   * cache makes every entry of a reproducible archive carry `readings(0)`.
   */
  method FillArchive(archive: ZipappArchive, fs: FileSystem, moduleName: string, callable: string,
                     files: seq<IncludedFile>, readings: nat -> DateTime, now: DateTime) returns (r: Outcome<Error>)
    requires archive.entries == [] && archive.cachedDateTime == None
    modifies archive
    ensures var es := ArchiveEntries(fs.nodes, moduleName, callable, files, archive.reproducible,
                                     archive.compression, readings(0), now);
      (r.Pass? <==> es.Ok?) && (es.Ok? ==> archive.entries == es.value) && (es.Err? ==> r == Fail(es.error))
  {
    archive.WriteFile("__main__.py", Utf8(DunderMainSource(moduleName, callable)), readings(0), now);
    ghost var cache := archive.cachedDateTime;
    assert archive.reproducible ==> cache == Some(readings(0));
    var add := Adder(fs.nodes, archive.reproducible, archive.compression, readings(0));
    ghost var first := archive.entries;
    assert first == [WrittenEntry("__main__.py", Utf8(DunderMainSource(moduleName, callable)), archive.reproducible,
                                  archive.compression, readings(0), now)];
    for i := 0 to |files|
      invariant archive.cachedDateTime == cache
      invariant AddAll(files[..i], add).Ok?
      invariant archive.entries == first + AddAll(files[..i], add).value
    {
      AddAllStep(files, i, add);
      assert add(files[i]) == AddedEntry(fs.nodes, files[i], archive.reproducible, archive.compression, readings(0));
      var added := archive.AddFile(fs, files[i], readings(i + 1));
      if added.Fail? {
        AddAllAfterError(files, i + 1, add);
        return added;
      }
    }
    assert files[..|files|] == files;
    r := Pass;
  }

  // ================================================================ build_standard

  /**
   * The prefix `zipapp.create_archive(target, temp, interpreter)` gives a copy
   * of an archive that has no shebang: the interpreter's shebang line, or
   * nothing for an empty interpreter.
   */
  function ZipappPrefix(interpreter: string): seq<byte>
  {
    if interpreter == "" then [] else Shebang(interpreter)
  }

  /**
   * The outcome of `build_standard` once `main` and `compressed` are read:
   * from filesystem `before` to `after`, publishing at `dst`, with the
   * `interpreter` read (or its error) and result `r`.
   */
  ghost predicate Published(before: Nodes, after: Nodes, dst: Path, moduleName: string, callable: string,
                            compressed: bool, interpreter: Result<string, Error>, files: seq<IncludedFile>,
                            reproducible: bool, dateTime: DateTime, now: DateTime, r: Result<Path, Error>)
  {
    var es := ArchiveEntries(before, moduleName, callable, files, reproducible, CompressionFor(compressed), dateTime, now);
    var publishable := IsDirectory(before, dst.dir) && es.Ok? && !(dst in before && before[dst].Directory?);
    // mkstemp needs the output directory; a file that cannot be added is the build's error
    && (!IsDirectory(before, dst.dir) ==> r == Err(ListdirError(before, dst.dir)))
    && (IsDirectory(before, dst.dir) && es.Err? ==> r == Err(es.error))
    // until the archive is published, a failure changes nothing
    && (!publishable ==> r.Err? && after == before)
    // a bad interpreter is reported after the archive, without a shebang, is published
    && (publishable && interpreter.Err? ==>
          r == Err(interpreter.error) && after == before[dst := File(Zipapp([], es.value), TempFileMode, now)])
    && (publishable && interpreter.Ok? ==>
          r == Ok(dst)
          && after == before[dst := File(Zipapp(ZipappPrefix(interpreter.value), es.value), TempFileMode, now)])
  }

  /**
   * `build_standard(directory)`: `main` is read and split, `compressed` is
   * read, the archive is written through `atomic_write` onto
   * `<name>-<version>.pyz` in `directory`, then `interpreter` is read and the
   * published file is rewritten with the shebang in front. `files` is what
   * `recurse_included_files` yields and `readings` what the reproducible
   * timestamp would read at each call.
   */
  method BuildStandard(fs: FileSystem, directory: seq<string>, projectName: string, version: string,
                       target: Config.Table, build: Config.Table, reproducible: bool, files: seq<IncludedFile>,
                       readings: nat -> DateTime, now: DateTime) returns (r: Result<Path, Error>)
    modifies fs
    ensures Config.Main(target, build).Err? ==>
      r == Err(Config.Main(target, build).error) && fs.nodes == old(fs.nodes)
    ensures Config.Main(target, build).Ok? && Config.Compressed(target, build).Err? ==>
      r == Err(Config.Compressed(target, build).error) && fs.nodes == old(fs.nodes)
    ensures Config.Main(target, build).Ok? && Config.Compressed(target, build).Ok? ==>
      Config.IsEntryPoint(Config.Main(target, build).value)
      && SplitMain(Config.Main(target, build).value).Ok?
      && var parts := SplitMain(Config.Main(target, build).value).value;
         Published(old(fs.nodes), fs.nodes, Path(directory, ArtifactName(projectName, version)), parts.0, parts.1,
                   Config.Compressed(target, build).value, Config.Interpreter(target, build), files, reproducible,
                   readings(0), now, r)
  {
    var main := Config.Main(target, build);
    if main.Err? {
      return Err(main.error);
    }
    ValidMainSplits(main.value);
    var parts := SplitMain(main.value).value;
    var compressed := Config.Compressed(target, build);
    if compressed.Err? {
      return Err(compressed.error);
    }
    var dst := Path(directory, ArtifactName(projectName, version));
    // `interpreter` is only checked once the archive is published
    r := Publish(fs, dst, parts.0, parts.1, compressed.value, Config.Interpreter(target, build), reproducible, files,
                 readings, now);
  }

  /**
   * The `with ZipappArchive.open(...)` block of `build_standard`: the archive
   * is filled and written through `atomic_write` onto `dst`. The entries
   * written are returned; nothing changes unless they are published.
   */
  method WriteArchive(fs: FileSystem, dst: Path, moduleName: string, callable: string, compressed: bool,
                      reproducible: bool, files: seq<IncludedFile>, readings: nat -> DateTime, now: DateTime)
    returns (r: Result<seq<Entry>, Error>)
    modifies fs
    ensures var es := ArchiveEntries(old(fs.nodes), moduleName, callable, files, reproducible,
                                     CompressionFor(compressed), readings(0), now);
      && (!IsDirectory(old(fs.nodes), dst.dir) ==> r == Err(ListdirError(old(fs.nodes), dst.dir)))
      && (IsDirectory(old(fs.nodes), dst.dir) && es.Err? ==> r == Err(es.error))
      && (r.Ok? <==> IsDirectory(old(fs.nodes), dst.dir) && es.Ok? && !(dst in old(fs.nodes) && old(fs.nodes)[dst].Directory?))
      && (r.Ok? ==> r == es && fs.nodes == old(fs.nodes)[dst := File(Zipapp([], es.value), TempFileMode, now)])
      && (r.Err? ==> fs.nodes == old(fs.nodes))
  {
    var archive := new ZipappArchive(reproducible, CompressionFor(compressed));
    var filled := FillArchive(archive, fs, moduleName, callable, files, readings, now);
    var content := Zipapp([], archive.entries);
    var body := if filled.Pass? then Utils.Completed(content) else Utils.Raised(filled.error, content);
    var tmp, written := Utils.AtomicWrite(fs, dst, body, now);
    if written.Fail? {
      return Err(written.error);
    }
    r := Ok(archive.entries);
  }

  /**
   * `build_standard` from the `with ZipappArchive.open(...)` block on;
   * `interpreter` is what reading the setting gives, checked only once the
   * archive is published.
   */
  method Publish(fs: FileSystem, dst: Path, moduleName: string, callable: string, compressed: bool,
                 interpreter: Result<string, Error>, reproducible: bool, files: seq<IncludedFile>,
                 readings: nat -> DateTime, now: DateTime) returns (r: Result<Path, Error>)
    modifies fs
    ensures Published(old(fs.nodes), fs.nodes, dst, moduleName, callable, compressed, interpreter,
                      files, reproducible, readings(0), now, r)
  {
    var written := WriteArchive(fs, dst, moduleName, callable, compressed, reproducible, files, readings, now);
    if written.Err? {
      return Err(written.error);
    }
    if interpreter.Err? {
      return Err(interpreter.error);
    }
    fs.Write(dst, Zipapp(ZipappPrefix(interpreter.value), written.value));
    r := Ok(dst);
  }
}

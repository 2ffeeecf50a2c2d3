/**
 * The part of the operating system the build touches, as an abstract filesystem:
 * a map from paths to files and directories, and the `os` / `tempfile` calls the
 * build makes on it (`mkstemp`, `os.replace`, `os.unlink` / `os.remove`,
 * `os.listdir`).
 */
module Os {
  import opened Wrappers
  import opened Strings
  import opened Zip

  /** A path: the components of its directory, then its final name. */
  datatype Path = Path(dir: seq<string>, name: string)

  datatype Node =
    | File(content: Content, mode: int, mtime: DateTime)
    | Directory

  type Nodes = map<Path, Node>

  /** The exceptions the modelled code can raise. */
  datatype Error =
    | FileNotFoundError(path: Path)
    | NotADirectoryError(path: Path)
    | IsADirectoryError(path: Path)
    | ValueError(message: string)
    | TypeError(message: string)
    | CalledProcessError(argv: seq<string>)
    | Raised(description: string)   // raised by code outside the model

  /** `st_mode` of the file `tempfile.mkstemp` creates: a regular file, 0o600. */
  const TempFileMode: int := 0x8180

  /** The path naming directory `d`; the root of the modelled tree has none. */
  function DirectoryPath(d: seq<string>): Path
    requires d != []
  {
    Path(d[..|d| - 1], d[|d| - 1])
  }

  /** `os.path.isdir`: the root always exists. */
  predicate IsDirectory(nodes: Nodes, d: seq<string>)
  {
    d == [] || (DirectoryPath(d) in nodes && nodes[DirectoryPath(d)].Directory?)
  }

  /** The error `os.listdir(d)` raises when `d` is not a directory. */
  function ListdirError(nodes: Nodes, d: seq<string>): Error
    requires !IsDirectory(nodes, d)
  {
    if DirectoryPath(d) in nodes then NotADirectoryError(DirectoryPath(d)) else FileNotFoundError(DirectoryPath(d))
  }

  function Repeat(c: char, n: nat): (s: string)
    ensures |s| == n
  {
    if n == 0 then [] else [c] + Repeat(c, n - 1)
  }

  class FileSystem {
    var nodes: Nodes

    constructor (initial: Nodes)
      ensures nodes == initial
    {
      nodes := initial;
    }

    /** Length of the longest name in the filesystem. */
    method LongestName() returns (n: nat)
      ensures forall p :: p in nodes ==> |p.name| <= n
    {
      n := 0;
      var rest := nodes.Keys;
      while rest != {}
        invariant rest <= nodes.Keys
        invariant forall p :: p in nodes && p !in rest ==> |p.name| <= n
        decreases rest
      {
        var p :| p in rest;
        if |p.name| > n {
          n := |p.name|;
        }
        rest := rest - {p};
      }
    }

    /**
     * `tempfile.mkstemp(dir=dir, suffix=suffix)`: creates a new, empty file with
     * a name no other path has, or raises when `dir` is not a directory.
     */
    method Mkstemp(dir: seq<string>, suffix: string, now: DateTime) returns (r: Result<Path, Error>)
      modifies this
      ensures r.Ok? <==> IsDirectory(old(nodes), dir)
      ensures r.Ok? ==> r.value.dir == dir && EndsWith(r.value.name, suffix) && r.value !in old(nodes)
      ensures r.Ok? ==> nodes == old(nodes)[r.value := File(Bytes([]), TempFileMode, now)]
      ensures r.Err? ==> nodes == old(nodes) && r.error == ListdirError(old(nodes), dir)
    {
      if !IsDirectory(nodes, dir) {
        return Err(ListdirError(nodes, dir));
      }
      var longest := LongestName();
      var name := "tmp" + Repeat('x', longest) + suffix;
      assert name == ("tmp" + Repeat('x', longest)) + suffix;
      EndsWithConcat("tmp" + Repeat('x', longest), suffix);
      var p := Path(dir, name);
      nodes := nodes[p := File(Bytes([]), TempFileMode, now)];
      r := Ok(p);
    }

    /** Writing through the open descriptor of an existing file replaces its content. */
    method Write(p: Path, content: Content)
      requires p in nodes && nodes[p].File?
      modifies this
      ensures nodes == old(nodes)[p := old(nodes)[p].(content := content)]
    {
      nodes := nodes[p := nodes[p].(content := content)];
    }

    /**
     * `os.replace(src, dst)`: renames a file over `dst`, replacing a file there.
     * Raises when `src` is missing, `dst`'s directory is missing, or `dst` is a directory.
     */
    method Replace(src: Path, dst: Path) returns (r: Outcome<Error>)
      modifies this
      ensures r.Pass? <==> src in old(nodes) && old(nodes)[src].File? && IsDirectory(old(nodes), dst.dir)
                           && !(dst in old(nodes) && old(nodes)[dst].Directory?)
      ensures r.Pass? ==> nodes == (old(nodes) - {src})[dst := old(nodes)[src]]
      ensures r.Fail? ==> nodes == old(nodes)
      // the error raised, checked in this order
      ensures !(src in old(nodes) && old(nodes)[src].File?) ==> r == Fail(FileNotFoundError(src))
      ensures src in old(nodes) && old(nodes)[src].File? && !IsDirectory(old(nodes), dst.dir) ==>
        r == Fail(FileNotFoundError(dst))
      ensures src in old(nodes) && old(nodes)[src].File? && IsDirectory(old(nodes), dst.dir)
              && dst in old(nodes) && old(nodes)[dst].Directory? ==>
        r == Fail(IsADirectoryError(dst))
    {
      if src !in nodes || !nodes[src].File? {
        return Fail(FileNotFoundError(src));
      }
      if !IsDirectory(nodes, dst.dir) {
        return Fail(FileNotFoundError(dst));
      }
      if dst in nodes && nodes[dst].Directory? {
        return Fail(IsADirectoryError(dst));
      }
      nodes := (nodes - {src})[dst := nodes[src]];
      r := Pass;
    }

    /** `os.unlink(p)` / `os.remove(p)`: removes a file; raises for a missing path or a directory. */
    method Unlink(p: Path) returns (r: Outcome<Error>)
      modifies this
      ensures r.Pass? <==> p in old(nodes) && old(nodes)[p].File?
      ensures r.Pass? ==> nodes == old(nodes) - {p}
      ensures r.Fail? ==> nodes == old(nodes)
      ensures r.Fail? ==> r.error == if p in old(nodes) then IsADirectoryError(p) else FileNotFoundError(p)
    {
      if p !in nodes {
        return Fail(FileNotFoundError(p));
      }
      if nodes[p].Directory? {
        return Fail(IsADirectoryError(p));
      }
      nodes := nodes - {p};
      r := Pass;
    }

    /**
     * `os.chmod(p, mode)`: sets a file's mode; raises for a missing path. A
     * directory's mode is not part of this model, so it is left as it is.
     */
    method Chmod(p: Path, mode: int) returns (r: Outcome<Error>)
      modifies this
      ensures r.Pass? <==> p in old(nodes)
      ensures r.Pass? && old(nodes)[p].File? ==> nodes == old(nodes)[p := old(nodes)[p].(mode := mode)]
      ensures r.Pass? && old(nodes)[p].Directory? ==> nodes == old(nodes)
      ensures r.Fail? ==> r == Fail(FileNotFoundError(p)) && nodes == old(nodes)
    {
      if p !in nodes {
        return Fail(FileNotFoundError(p));
      }
      if nodes[p].File? {
        nodes := nodes[p := nodes[p].(mode := mode)];
      }
      r := Pass;
    }
  }
}

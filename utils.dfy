/**
 * `atomic_write`: publish a file under its final name only once its content is
 * complete. A temporary file is created next to the destination, the caller's
 * block writes into it, and then the temporary either replaces the destination
 * or is unlinked.
 */
module Utils {
  import opened Wrappers
  import opened Strings
  import opened Zip
  import opened Os

  /** Index of the last occurrence of `c` in `s`, if any. */
  function LastIndexOf(s: string, c: char): (r: Option<nat>)
    ensures r.Some? ==> r.value < |s| && s[r.value] == c && c !in s[r.value + 1..]
    ensures r.None? ==> c !in s
  {
    if s == [] then None
    else if s[|s| - 1] == c then Some(|s| - 1)
    else
      var r := LastIndexOf(s[..|s| - 1], c);
      assert r.Some? ==> s[r.value + 1..] == s[..|s| - 1][r.value + 1..] + [s[|s| - 1]];
      assert s == s[..|s| - 1] + [s[|s| - 1]];
      r
  }

  /** Whether `name` has a dot, past its first character and before its last, with no dot after it. */
  predicate HasSuffixDot(name: string)
  {
    exists i :: 0 < i < |name| - 1 && name[i] == '.' && '.' !in name[i + 1..]
  }

  /**
   * `pathlib.PurePath(name).suffix`: from the last dot of the name, unless that
   * dot is the name's first or last character, in which case there is none.
   */
  function Suffix(name: string): (r: string)
    ensures EndsWith(name, r)
    ensures r != [] ==> r[0] == '.' && '.' !in r[1..] && |r| >= 2 && |r| < |name|
    ensures r != [] <==> HasSuffixDot(name)
  {
    match LastIndexOf(name, '.')
    case Some(i) =>
      if 0 < i < |name| - 1 then
        assert name[i..][1..] == name[i + 1..];
        name[i..]
      else
        LastDotOutside(name, i);
        []
    case None => []
  }

  /** When the last dot is the first or the last character, no dot can start a suffix. */
  lemma LastDotOutside(name: string, i: nat)
    requires i < |name| && name[i] == '.' && '.' !in name[i + 1..]
    requires !(0 < i < |name| - 1)
    ensures !HasSuffixDot(name)
  {
    forall k | 0 < k < |name| - 1 && name[k] == '.'
      ensures '.' in name[k + 1..]
    {
      LaterDot(name, i, k);
    }
  }

  /** A dot before the last one has a dot after it. */
  lemma LaterDot(name: string, i: nat, k: nat)
    requires i < |name| && name[i] == '.' && '.' !in name[i + 1..]
    requires k < |name| && k != i && name[k] == '.'
    ensures k < i && '.' in name[k + 1..]
  {
    if k > i {
      assert false;
    }
    assert name[k + 1..][i - k - 1] == name[i];
  }

  /** What the caller's `with` block did with the file object it was given. */
  datatype BodyOutcome =
    | Completed(content: Content)             // left the block normally after writing `content`
    | Raised(error: Error, partial: Content)  // raised `error` after writing `partial`

  /**
   * `atomic_write(dst)` around a block with outcome `body`. `now` is the clock
   * reading given to the new temporary file.
   */
  method AtomicWrite(fs: FileSystem, dst: Path, body: BodyOutcome, now: DateTime)
    returns (tmp: Option<Path>, r: Outcome<Error>)
    modifies fs
    // mkstemp puts the temporary beside the destination, with its suffix, under a fresh name
    ensures tmp.Some? <==> IsDirectory(old(fs.nodes), dst.dir)
    ensures tmp.Some? ==> tmp.value.dir == dst.dir && EndsWith(tmp.value.name, Suffix(dst.name))
                          && tmp.value !in old(fs.nodes)
    // success: the block completed and the replace went through
    ensures r.Pass? <==> tmp.Some? && body.Completed? && !(dst in old(fs.nodes) && old(fs.nodes)[dst].Directory?)
    // on success the destination holds exactly what was written and nothing else changed
    ensures r.Pass? ==> fs.nodes == old(fs.nodes)[dst := File(body.content, TempFileMode, now)]
    // on any failure the filesystem, the destination included, is as it was
    ensures r.Fail? ==> fs.nodes == old(fs.nodes)
    // the block's own exception is the one that propagates
    ensures tmp.Some? && body.Raised? ==> r == Fail(body.error)
    // otherwise the replace's own exception is the one that propagates
    ensures tmp.Some? && body.Completed? && r.Fail? ==> r == Fail(IsADirectoryError(dst))
    ensures tmp.None? ==> r == Fail(ListdirError(old(fs.nodes), dst.dir))
  {
    var made := fs.Mkstemp(dst.dir, Suffix(dst.name), now);
    if made.Err? {
      return None, Fail(made.error);
    }
    var t := made.value;
    tmp := Some(t);
    ghost var before := old(fs.nodes);
    match body {
      case Completed(content) =>
        fs.Write(t, content);
        ghost var written := File(content, TempFileMode, now);
        assert fs.nodes == before[t := written];
        var replaced := fs.Replace(t, dst);
        if replaced.Fail? {
          var unlinked := fs.Unlink(t);
          DiscardFresh(before, t, written);
          r := if unlinked.Fail? then unlinked else replaced;
        } else {
          RenameFresh(before, t, dst, written);
          r := Pass;
        }
      case Raised(e, partial) =>
        fs.Write(t, partial);
        ghost var written := File(partial, TempFileMode, now);
        assert fs.nodes == before[t := written];
        var unlinked := fs.Unlink(t);
        DiscardFresh(before, t, written);
        r := if unlinked.Fail? then unlinked else Fail(e);
    }
  }

  lemma DiscardFresh(m: Nodes, t: Path, n: Node)
    requires t !in m
    ensures m[t := n] - {t} == m
  {
  }

  lemma RenameFresh(m: Nodes, t: Path, dst: Path, n: Node)
    requires t !in m
    ensures (m[t := n] - {t})[dst := n] == m[dst := n]
  {
    DiscardFresh(m, t, n);
  }
}

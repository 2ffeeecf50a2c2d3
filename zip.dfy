/**
 * The archive at the level `zipfile` exposes it: entries with a name, a timestamp,
 * permission attributes, a compression method and their data. The binary layout
 * (local headers, CRCs, the deflate stream, the central directory) is not modelled.
 */
module Zip {
  import opened Strings

  /** `ZipInfo.date_time`: year, month, day, hour, minute, second. */
  datatype DateTime = DateTime(year: int, month: int, day: int, hour: int, minute: int, second: int)

  /** `zipfile.ZIP_STORED` and `zipfile.ZIP_DEFLATED`. */
  datatype CompressType = Stored | Deflated

  /** `ZIP_DEFLATED if compressed else ZIP_STORED`. */
  function CompressionFor(compressed: bool): (c: CompressType)
    ensures c == Deflated <==> compressed
    ensures c == Stored <==> !compressed
  {
    if compressed then Deflated else Stored
  }

  /**
   * Where an entry's `external_attr` came from. The hatchling helpers
   * `normalize_file_permissions` and `set_zip_info_mode` are not part of this
   * model, so the attributes they produce are kept symbolic, recording only
   * the mode they were computed from.
   */
  datatype Attr =
    | DefaultAttr                   // a bare `ZipInfo(name, date_time)`: external_attr 0, written as 0o600 << 16
    | FileAttr(externalAttr: int)   // `ZipInfo.from_file`: (st_mode & 0xFFFF) << 16, plus 0x10 for a directory
    | NormalizedAttr(mode: int)     // set_zip_info_mode(zinfo, normalize_file_permissions(mode))
    | NormalizedMaskedAttr(mode: int) // set_zip_info_mode(zinfo, normalize_file_permissions(mode) & 0xFFFF)

  /** One member of the archive as `ZipFile.infolist()` and `ZipFile.read` show it. */
  datatype Entry = Entry(name: string, dateTime: DateTime, attr: Attr, compressType: CompressType, data: Content)

  /**
   * What a file holds: plain bytes, or a self-executing archive, i.e. the prefix
   * written before the zip container followed by the container's entries.
   */
  datatype Content = Bytes(bytes: seq<byte>) | Zipapp(prefix: seq<byte>, entries: seq<Entry>)

  /** The `external_attr` that `ZipInfo.from_file` derives from a stat result. */
  function FromFileExternalAttr(stMode: int, isDir: bool): int
  {
    (stMode % 0x10000) * 0x10000 + (if isDir then 0x10 else 0)
  }

  /** `(external_attr >> 16) & 0xFFFF` for a non-negative attribute word. */
  function ModeBits(externalAttr: int): int
  {
    (externalAttr / 0x10000) % 0x10000
  }

  /** Recovering the mode from `from_file`'s attribute word yields the low 16 bits of `st_mode`. */
  lemma ModeBitsOfFromFile(stMode: int, isDir: bool)
    ensures ModeBits(FromFileExternalAttr(stMode, isDir)) == stMode % 0x10000
  {
    var m := stMode % 0x10000;
    var low := if isDir then 0x10 else 0;
    assert FromFileExternalAttr(stMode, isDir) == m * 0x10000 + low;
    assert (m * 0x10000 + low) / 0x10000 == m;
  }

  /** The concatenation of the chunks, in order. */
  function Flatten(chunks: seq<seq<byte>>): seq<byte>
  {
    if chunks == [] then [] else Flatten(chunks[..|chunks| - 1]) + chunks[|chunks| - 1]
  }

  /**
   * The copy loop of `add_file`: read at most `chunkSize` bytes, stop at the
   * first empty read, write every chunk read. Returns what was written and the
   * chunks in the order they were written.
   */
  method CopyChunked(source: seq<byte>, chunkSize: nat) returns (written: seq<byte>, chunks: seq<seq<byte>>)
    requires chunkSize > 0
    ensures written == source
    ensures Flatten(chunks) == written
    ensures forall i :: 0 <= i < |chunks| ==> 0 < |chunks[i]| <= chunkSize
  {
    var pos := 0;
    written, chunks := [], [];
    while true
      invariant 0 <= pos <= |source|
      invariant written == source[..pos]
      invariant Flatten(chunks) == written
      invariant forall i :: 0 <= i < |chunks| ==> 0 < |chunks[i]| <= chunkSize
      decreases |source| - pos
    {
      var end := if pos + chunkSize <= |source| then pos + chunkSize else |source|;
      var chunk := source[pos..end];
      if chunk == [] {
        break;
      }
      assert (chunks + [chunk])[..|chunks|] == chunks;
      assert source[..end] == source[..pos] + chunk;
      written, chunks := written + chunk, chunks + [chunk];
      pos := end;
    }
    assert source[..pos] == source;
  }

  /**
   * Copying a source file into an entry. A regular file's bytes go through the
   * chunked loop; a file that is itself an archive built by this model is copied
   * as a whole, since its byte layout is not modelled.
   */
  method CopyContent(source: Content, chunkSize: nat) returns (copied: Content)
    requires chunkSize > 0
    ensures copied == source
  {
    match source {
      case Bytes(b) =>
        var written, _ := CopyChunked(b, chunkSize);
        copied := Bytes(written);
      case Zipapp(_, _) =>
        copied := source;
    }
  }
}

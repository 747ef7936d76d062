/** The bytes of a single-file VPK, version 2, and what reading them means (hud/src/vpk.ts). */
module VpkFormat {
  import opened Wrappers
  import opened Octets
  import opened Digests
  import opened Ordered
  import opened Sorting
  import opened VpkPath
  import Utf8

  const SIGNATURE := 0x55aa_1234
  const EMBEDDED := 0x7fff
  const TERMINATOR := 0xffff
  const HEADER_BYTES := 28
  const OTHER_MD5_BYTES := 48
  const ENTRY_BYTES := 18

  datatype File = File(path: string, data: Bytes)
  datatype Entry = Entry(path: string, crc32: uint32, data: Bytes)

  datatype WriteError = BadPath(path: string, fault: PathFault) | Twice(path: string) | OutOfRange

  // ---- The order of the files

  function PathOf(f: File): string { f.path }
  function ExtOf(f: File): string { Split(f.path).ext }
  function InDir(f: File): string { Split(f.path).dir }

  function ByPath(files: seq<File>): (r: seq<File>)
    ensures multiset(r) == multiset(files)
  {
    Sort(files, PathOf)
  }

  /** The tree of sorted files: by extension, then by directory, both in first-occurrence order. */
  function TreeOf(sorted: seq<File>): Nested<File> {
    GroupByTwo(sorted, ExtOf, InDir)
  }

  /** The first complaint about the sorted list: a path the pack cannot hold, or one that comes twice. */
  function FirstFault(lower: string -> string, sorted: seq<File>, i: nat): Option<WriteError>
    requires i <= |sorted|
    decreases |sorted| - i
  {
    if i == |sorted| then None
    else
      var faults := Faults(lower, sorted[i].path);
      if faults != [] then Some(BadPath(sorted[i].path, faults[0]))
      else if i > 0 && sorted[i - 1].path == sorted[i].path then Some(Twice(sorted[i].path))
      else FirstFault(lower, sorted, i + 1)
  }

  // ---- The data section

  function Total(files: seq<File>): nat {
    if files == [] then 0 else Total(files[..|files| - 1]) + |files[|files| - 1].data|
  }

  /** Where each file's data starts: behind the data of the files sorted before it. */
  function Offsets(sorted: seq<File>): map<string, nat> {
    if sorted == [] then map[]
    else
      var front := sorted[..|sorted| - 1];
      Offsets(front)[sorted[|sorted| - 1].path := Total(front)]
  }

  function OffsetIn(offsets: map<string, nat>, path: string): nat {
    if path in offsets then offsets[path] else 0
  }

  function DataOf(files: seq<File>): Bytes {
    if files == [] then [] else DataOf(files[..|files| - 1]) + files[|files| - 1].data
  }

  // ---- The tree section

  function CString(s: string): Bytes {
    Utf8.Encode(s) + [0]
  }

  function EntryBytes(h: Hashes, f: File, offset: nat): (b: Bytes)
    ensures |b| == ENTRY_BYTES
  {
    Le32(h.crc32(f.data)) + Le16(0) + Le16(EMBEDDED) + Le32(offset) + Le32(|f.data|) + Le16(TERMINATOR)
  }

  function NamesBytes(h: Hashes, offsets: map<string, nat>, files: seq<File>): Bytes {
    if files == [] then CString("")
    else
      CString(Split(files[0].path).name)
      + EntryBytes(h, files[0], OffsetIn(offsets, files[0].path))
      + NamesBytes(h, offsets, files[1..])
  }

  function DirsBytes(h: Hashes, offsets: map<string, nat>, dirs: Record<seq<File>>): Bytes {
    if dirs == [] then CString("")
    else CString(dirs[0].0) + NamesBytes(h, offsets, dirs[0].1) + DirsBytes(h, offsets, dirs[1..])
  }

  function ExtsBytes(h: Hashes, offsets: map<string, nat>, exts: Nested<File>): Bytes {
    if exts == [] then CString("")
    else CString(exts[0].0) + DirsBytes(h, offsets, exts[0].1) + ExtsBytes(h, offsets, exts[1..])
  }

  function TreeBytes(h: Hashes, sorted: seq<File>): Bytes {
    ExtsBytes(h, Offsets(sorted), TreeOf(sorted))
  }

  // ---- The whole file

  function Header(tree: nat, data: nat): (b: Bytes)
    ensures |b| == HEADER_BYTES
  {
    Le32(SIGNATURE) + Le32(2) + Le32(tree) + Le32(data) + Le32(0) + Le32(OTHER_MD5_BYTES) + Le32(0)
  }

  function Body(h: Hashes, tree: Bytes, data: Bytes): Bytes {
    Header(|tree|, |data|) + tree + data + h.md5(tree) + h.md5([])
  }

  function Pack(h: Hashes, tree: Bytes, data: Bytes): Bytes {
    Body(h, tree, data) + h.md5(Body(h, tree, data))
  }

  /** What `writeVpk` answers. */
  function Written(h: Hashes, files: seq<File>): Result<Bytes, WriteError> {
    var sorted := ByPath(files);
    var fault := FirstFault(h.lower, sorted, 0);
    if fault.Some? then Err(fault.value)
    else if Total(sorted) >= WORD || |TreeBytes(h, sorted)| >= WORD then Err(OutOfRange)
    else Ok(Pack(h, TreeBytes(h, sorted), DataOf(sorted)))
  }

  // ---- Reading

  datatype ReadError =
    | BadSignature
    | BadVersion(version: nat)
    | BadSizes
    | TreeChecksum
    | ArchiveChecksum
    | FileChecksum
    | Unterminated
    | Truncated
    | EntryTerminator
    | Archive(index: nat)
    | BadCrc(path: string)

  /** A string of the tree and what follows it. */
  function TakeString(rest: Bytes): (r: Option<(string, Bytes)>)
    ensures r.Some? ==> |r.value.1| < |rest|
  {
    var end := IndexOfZero(rest, 0);
    if end == |rest| then None else Some((Utf8.Decode(rest[..end]), rest[end + 1..]))
  }

  function IndexOfZero(b: Bytes, i: nat): (k: nat)
    requires i <= |b|
    ensures i <= k <= |b|
    ensures k < |b| ==> b[k] == 0
    ensures forall j :: i <= j < k ==> b[j] != 0
    decreases |b| - i
  {
    if i == |b| || b[i] == 0 then i else IndexOfZero(b, i + 1)
  }

  /** The pack and where its data section starts. */
  datatype Source = Source(h: Hashes, pack: Bytes, dataStart: nat)

  /** The six fields of an entry. */
  datatype Fields = Fields(crc: uint32, preload: nat, archive: nat, offset: nat, length: nat, terminator: nat)

  function FieldsAt(b: Bytes, at: nat): Fields
    requires at + ENTRY_BYTES <= |b|
  {
    Fields(ReadLe32(b, at), ReadLe16(b, at + 4), ReadLe16(b, at + 6),
           ReadLe32(b, at + 8), ReadLe32(b, at + 12), ReadLe16(b, at + 16))
  }

  /** One entry, standing right behind its name, and what follows it. */
  function ReadEntry(src: Source, ext: string, dir: string, name: string, rest: Bytes):
    (r: Result<(Entry, Bytes), ReadError>)
    ensures r.Ok? ==> |r.value.1| <= |rest|
    ensures r.Ok? ==> src.h.crc32(r.value.0.data) == r.value.0.crc32
  {
    if |rest| < ENTRY_BYTES then Err(Truncated)
    else
      var f := FieldsAt(rest, 0);
      if f.terminator != TERMINATOR then Err(EntryTerminator)
      else if f.archive != EMBEDDED then Err(Archive(f.archive))
      else
        var start := src.dataStart + f.offset;
        var data := Slice(rest, ENTRY_BYTES, ENTRY_BYTES + f.preload) + Slice(src.pack, start, start + f.length);
        var path := Rejoin(Parts(dir, name, ext));
        if src.h.crc32(data) != f.crc then Err(BadCrc(path))
        else Ok((Entry(path, f.crc, data), From(rest, ENTRY_BYTES + f.preload)))
  }

  type Parsed = Result<(seq<Entry>, Bytes), ReadError>

  /** The names of one directory, up to and past the empty one. */
  function ReadNames(src: Source, ext: string, dir: string, rest: Bytes): (r: Parsed)
    ensures r.Ok? ==> |r.value.1| < |rest|
    decreases |rest|
  {
    match TakeString(rest)
    case None => Err(Unterminated)
    case Some((name, behind)) =>
      if name == "" then Ok(([], behind))
      else
        var (entry, next) :- ReadEntry(src, ext, dir, name, behind);
        var (entries, end) :- ReadNames(src, ext, dir, next);
        Ok(([entry] + entries, end))
  }

  function ReadDirs(src: Source, ext: string, rest: Bytes): (r: Parsed)
    ensures r.Ok? ==> |r.value.1| < |rest|
    decreases |rest|
  {
    match TakeString(rest)
    case None => Err(Unterminated)
    case Some((dir, behind)) =>
      if dir == "" then Ok(([], behind))
      else
        var (names, next) :- ReadNames(src, ext, dir, behind);
        var (entries, end) :- ReadDirs(src, ext, next);
        Ok((names + entries, end))
  }

  function ReadExts(src: Source, rest: Bytes): (r: Parsed)
    ensures r.Ok? ==> |r.value.1| < |rest|
    decreases |rest|
  {
    match TakeString(rest)
    case None => Err(Unterminated)
    case Some((ext, behind)) =>
      if ext == "" then Ok(([], behind))
      else
        var (dirs, next) :- ReadDirs(src, ext, behind);
        var (entries, end) :- ReadExts(src, next);
        Ok((dirs + entries, end))
  }

  /** The boundaries the header announces. */
  datatype Sections = Sections(dataStart: nat, archiveStart: nat, otherStart: nat, signatureStart: nat, end: nat)

  function SectionsOf(pack: Bytes): Sections
    requires |pack| >= HEADER_BYTES
  {
    var data := HEADER_BYTES + ReadLe32(pack, 8);
    var archive := data + ReadLe32(pack, 12);
    var other := archive + ReadLe32(pack, 16);
    var signature := other + ReadLe32(pack, 20);
    Sections(data, archive, other, signature, signature + ReadLe32(pack, 24))
  }

  /** What the header and the digests say before the tree is looked at. */
  function Checked(h: Hashes, pack: Bytes): (r: Result<Sections, ReadError>)
    ensures r.Ok? ==> |pack| >= HEADER_BYTES && r.value == SectionsOf(pack) && r.value.end == |pack|
  {
    if |pack| < HEADER_BYTES || ReadLe32(pack, 0) != SIGNATURE then Err(BadSignature)
    else if ReadLe32(pack, 4) != 2 then Err(BadVersion(ReadLe32(pack, 4)))
    else
      var s := SectionsOf(pack);
      if ReadLe32(pack, 20) != OTHER_MD5_BYTES || s.end != |pack| then Err(BadSizes)
      else
        var other := pack[s.otherStart..s.signatureStart];
        if h.md5(pack[HEADER_BYTES..s.dataStart]) != other[..16] then Err(TreeChecksum)
        else if h.md5(pack[s.archiveStart..s.otherStart]) != other[16..32] then Err(ArchiveChecksum)
        else if h.md5(pack[..s.otherStart + 32]) != other[32..48] then Err(FileChecksum)
        else Ok(s)
  }

  /** What `readVpk` answers. */
  function Read(h: Hashes, pack: Bytes): Result<seq<Entry>, ReadError> {
    var s :- Checked(h, pack);
    var (entries, _) :- ReadExts(Source(h, pack, s.dataStart), pack[HEADER_BYTES..s.dataStart]);
    Ok(entries)
  }
}

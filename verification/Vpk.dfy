/** `writeVpk` and `readVpk` as they run: loops that fill maps, push parts and move a cursor (hud/src/vpk.ts). */
module Vpk {
  import opened Wrappers
  import opened Octets
  import opened Digests
  import opened Ordered
  import opened Sorting
  import opened VpkPath
  import opened VpkFormat
  import opened VpkRoundTrip
  import Utf8

  // ---- Writing

  predicate Fits(offsets: map<string, nat>, f: File) {
    OffsetIn(offsets, f.path) < WORD && |f.data| < WORD
  }

  ghost predicate AllFit(offsets: map<string, nat>, files: seq<File>) {
    forall f <- files :: Fits(offsets, f)
  }

  lemma AllFitAppend(offsets: map<string, nat>, a: seq<File>, b: seq<File>)
    ensures AllFit(offsets, a + b) <==> AllFit(offsets, a) && AllFit(offsets, b)
  {
    if AllFit(offsets, a + b) {
      assert forall f :: f in a || f in b ==> f in a + b;
    }
  }

  /** One directory's names and entries, pushed behind what is there. */
  method PushNames(h: Hashes, offsets: map<string, nat>, files: seq<File>, before: Bytes)
    returns (parts: Bytes, ok: bool)
    ensures ok <==> AllFit(offsets, files)
    ensures ok ==> parts == before + NamesBytes(h, offsets, files)
  {
    parts := before;
    for i := 0 to |files|
      invariant forall k :: 0 <= k < i ==> Fits(offsets, files[k])
      invariant parts + NamesBytes(h, offsets, files[i..]) == before + NamesBytes(h, offsets, files)
    {
      var f := files[i];
      if !Fits(offsets, f) {
        return parts, false;
      }
      var name := CString(Split(f.path).name);
      var entry := EntryBytes(h, f, OffsetIn(offsets, f.path));
      assert files[i..][1..] == files[i + 1..];
      Behind(parts, name, entry, NamesBytes(h, offsets, files[i + 1..]));
      parts := parts + name + entry;
    }
    parts := parts + CString("");
    return parts, true;
  }

  lemma Behind(a: Bytes, b: Bytes, c: Bytes, d: Bytes)
    ensures a + (b + c + d) == a + b + c + d
  {
  }

  method PushDirs(h: Hashes, offsets: map<string, nat>, dirs: Record<seq<File>>, before: Bytes)
    returns (parts: Bytes, ok: bool)
    ensures ok <==> AllFit(offsets, Flatten(dirs))
    ensures ok ==> parts == before + DirsBytes(h, offsets, dirs)
  {
    parts, ok := before, true;
    var i := 0;
    while i < |dirs| && ok
      invariant 0 <= i <= |dirs|
      invariant ok ==> parts + DirsBytes(h, offsets, dirs[i..]) == before + DirsBytes(h, offsets, dirs)
      invariant ok && AllFit(offsets, Flatten(dirs[i..])) <==> AllFit(offsets, Flatten(dirs))
      decreases |dirs| - i
    {
      var (dir, files) := dirs[i];
      assert dirs[i..][1..] == dirs[i + 1..];
      AllFitAppend(offsets, files, Flatten(dirs[i + 1..]));
      Behind(parts, CString(dir), NamesBytes(h, offsets, files), DirsBytes(h, offsets, dirs[i + 1..]));
      parts, ok := PushNames(h, offsets, files, parts + CString(dir));
      i := i + 1;
    }
    parts := parts + CString("");
  }

  /** The tree of the grouped files, unless an offset or a length does not fit its word. */
  method PushExts(h: Hashes, offsets: map<string, nat>, exts: Nested<File>) returns (parts: Bytes, ok: bool)
    ensures ok <==> AllFit(offsets, FlattenTwo(exts))
    ensures ok ==> parts == ExtsBytes(h, offsets, exts)
  {
    parts, ok := [], true;
    var i := 0;
    while i < |exts| && ok
      invariant 0 <= i <= |exts|
      invariant ok ==> parts + ExtsBytes(h, offsets, exts[i..]) == ExtsBytes(h, offsets, exts)
      invariant ok && AllFit(offsets, FlattenTwo(exts[i..])) <==> AllFit(offsets, FlattenTwo(exts))
      decreases |exts| - i
    {
      var (ext, dirs) := exts[i];
      assert exts[i..][1..] == exts[i + 1..];
      AllFitAppend(offsets, Flatten(dirs), FlattenTwo(exts[i + 1..]));
      Behind(parts, CString(ext), DirsBytes(h, offsets, dirs), ExtsBytes(h, offsets, exts[i + 1..]));
      parts, ok := PushDirs(h, offsets, dirs, parts + CString(ext));
      i := i + 1;
    }
    parts := parts + CString("");
  }

  method CheckPaths(lower: string -> string, sorted: seq<File>) returns (fault: Option<WriteError>)
    ensures fault == FirstFault(lower, sorted, 0)
  {
    for i := 0 to |sorted|
      invariant FirstFault(lower, sorted, 0) == FirstFault(lower, sorted, i)
    {
      var faults := Faults(lower, sorted[i].path);
      if faults != [] {
        return Some(BadPath(sorted[i].path, faults[0]));
      }
      if i > 0 && sorted[i - 1].path == sorted[i].path {
        return Some(Twice(sorted[i].path));
      }
    }
    return None;
  }

  method PlaceData(sorted: seq<File>) returns (offsets: map<string, nat>, offset: nat)
    ensures offsets == Offsets(sorted) && offset == Total(sorted)
  {
    offsets, offset := map[], 0;
    for i := 0 to |sorted|
      invariant offsets == Offsets(sorted[..i]) && offset == Total(sorted[..i])
    {
      assert sorted[..i + 1][..i] == sorted[..i];
      offsets := offsets[sorted[i].path := offset];
      offset := offset + |sorted[i].data|;
    }
    assert sorted[..|sorted|] == sorted;
  }

  /** Filling the maps file by file arrives at the stable grouping. */
  method GroupFiles(sorted: seq<File>) returns (grouped: Nested<File>)
    ensures grouped == TreeOf(sorted)
  {
    grouped := [];
    for i := 0 to |sorted|
      invariant grouped == TreeOf(sorted[..i])
    {
      var f := sorted[i];
      var dirs := GetOrNone(grouped, ExtOf(f));
      GroupByTwoAppend(sorted[..i], f, ExtOf, InDir);
      assert sorted[..i + 1] == sorted[..i] + [f];
      grouped := Put(grouped, ExtOf(f), Add(dirs, InDir(f), f));
    }
    assert sorted[..|sorted|] == sorted;
  }

  method WriteVpk(h: Hashes, files: seq<File>) returns (r: Result<Bytes, WriteError>)
    ensures r == Written(h, files)
  {
    var sorted := ByPath(files);
    var fault := CheckPaths(h.lower, sorted);
    if fault.Some? {
      return Err(fault.value);
    }
    var offsets, total := PlaceData(sorted);
    var grouped := GroupFiles(sorted);
    var tree, ok := PushExts(h, offsets, grouped);
    FitsWhenTotalDoes(h, files);
    var data := DataOf(sorted);
    TotalIsLength(sorted);
    if !ok || |tree| >= WORD || |data| >= WORD {
      return Err(OutOfRange);
    }
    var header := Le32(SIGNATURE) + Le32(2) + Le32(|tree|) + Le32(|data|) + Le32(0) + Le32(OTHER_MD5_BYTES) + Le32(0);
    var body := header + tree + data + h.md5(tree) + h.md5([]);
    return Ok(body + h.md5(body));
  }

  /** If the data section fits a word, so does every offset and length in it. */
  lemma FitsWhenTotalDoes(h: Hashes, files: seq<File>)
    requires FirstFault(h.lower, ByPath(files), 0).None?
    ensures Total(ByPath(files)) < WORD ==>
      AllFit(Offsets(ByPath(files)), FlattenTwo(TreeOf(ByPath(files))))
  {
    var sorted := ByPath(files);
    AcceptedFiles(h, files);
    FlattenGroupsTwo(sorted, ExtOf, InDir);
    SameElements(FlattenTwo(TreeOf(sorted)), sorted);
    forall f | f in FlattenTwo(TreeOf(sorted)) && Total(sorted) < WORD ensures Fits(Offsets(sorted), f) {
      var i :| 0 <= i < |sorted| && sorted[i] == f;
      DataIsCovered(sorted, i);
      OffsetsArePrefixSums(sorted, i);
    }
  }

  // ---- Reading

  /** The string at the cursor, and the cursor behind its NUL. */
  method TakeCString(tree: Bytes, at: nat) returns (r: Option<string>, next: nat)
    ensures var want := TakeString(From(tree, at));
      if want.None? then r == None
      else r == Some(want.value.0) && at < next <= |tree| && From(tree, next) == want.value.1
  {
    next := at;
    if at > |tree| {
      return None, at;
    }
    var end := at;
    while end < |tree| && tree[end] != 0
      invariant at <= end <= |tree|
      invariant forall j :: at <= j < end ==> tree[j] != 0
    {
      end := end + 1;
    }
    ZeroFromCursor(tree, at, end);
    if end == |tree| {
      return None, at;
    }
    assert tree[at..][..end - at] == tree[at..end];
    return Some(Utf8.Decode(tree[at..end])), end + 1;
  }

  lemma ZeroFromCursor(tree: Bytes, at: nat, end: nat)
    requires at <= end <= |tree|
    requires forall j :: at <= j < end ==> tree[j] != 0
    requires end < |tree| ==> tree[end] == 0
    ensures IndexOfZero(tree[at..], 0) == end - at
  {
  }

  /** What was read so far, with what the specification reads from here on. */
  function Appended(entries: seq<Entry>, r: Parsed): Parsed {
    if r.Err? then r else Ok((entries + r.value.0, r.value.1))
  }

  type Cursor = Result<(seq<Entry>, nat), ReadError>

  /** The loop stopped where the specification did: the same entries and the same place, or the same complaint. */
  ghost predicate Agrees(tree: Bytes, want: Parsed, got: Cursor) {
    if want.Err? then got == Err(want.error)
    else got.Ok? && got.value.0 == want.value.0 && From(tree, got.value.1) == want.value.1
  }

  lemma AppendedTwice(a: seq<Entry>, b: seq<Entry>, r: Parsed)
    ensures Appended(a + b, r) == Appended(a, Appended(b, r))
    ensures Appended([], r) == r
  {
    if r.Ok? {
      assert a + b + r.value.0 == a + (b + r.value.0);
      assert [] + r.value.0 == r.value.0;
    }
  }

  /** The entry behind its name, read field by field at the cursor. */
  method ReadEntryAt(src: Source, tree: Bytes, ext: string, dir: string, name: string, at: nat)
    returns (r: Result<(Entry, nat), ReadError>)
    requires at <= |tree|
    ensures var want := ReadEntry(src, ext, dir, name, From(tree, at));
      if want.Err? then r == Err(want.error)
      else r.Ok? && r.value.0 == want.value.0 && From(tree, r.value.1) == want.value.1
  {
    if at + ENTRY_BYTES > |tree| {
      return Err(Truncated);
    }
    EntryFromCursor(src, tree, ext, dir, name, at);
    var f := FieldsAt(tree, at);
    if f.terminator != TERMINATOR {
      return Err(EntryTerminator);
    }
    if f.archive != EMBEDDED {
      return Err(Archive(f.archive));
    }
    var path := Rejoin(Parts(dir, name, ext));
    var data := DataAt(src, tree, at, f);
    if src.h.crc32(data) != f.crc {
      return Err(BadCrc(path));
    }
    return Ok((Entry(path, f.crc, data), at + ENTRY_BYTES + f.preload));
  }

  /** The preloaded bytes behind the entry, and the slice of the data section it names. */
  function DataAt(src: Source, tree: Bytes, at: nat, f: Fields): Bytes {
    var start := src.dataStart + f.offset;
    Slice(tree, at + ENTRY_BYTES, at + ENTRY_BYTES + f.preload) + Slice(src.pack, start, start + f.length)
  }

  lemma EntryFromCursor(src: Source, tree: Bytes, ext: string, dir: string, name: string, at: nat)
    requires at + ENTRY_BYTES <= |tree|
    ensures var f := FieldsAt(tree, at);
      var data := DataAt(src, tree, at, f);
      var path := Rejoin(Parts(dir, name, ext));
      ReadEntry(src, ext, dir, name, From(tree, at)) ==
        if f.terminator != TERMINATOR then Err(EntryTerminator)
        else if f.archive != EMBEDDED then Err(Archive(f.archive))
        else if src.h.crc32(data) != f.crc then Err(BadCrc(path))
        else Ok((Entry(path, f.crc, data), From(tree, at + ENTRY_BYTES + f.preload)))
  {
    FieldsFromCursor(tree, at);
    SliceFromCursor(tree, at, ENTRY_BYTES, ENTRY_BYTES + FieldsAt(tree, at).preload);
  }

  lemma FieldsFromCursor(tree: Bytes, at: nat)
    requires at + ENTRY_BYTES <= |tree|
    ensures FieldsAt(tree, at) == FieldsAt(tree[at..], 0)
  {
  }

  lemma SliceFromCursor(tree: Bytes, at: nat, lo: nat, hi: nat)
    requires at + lo <= |tree| && lo <= hi
    ensures Slice(tree, at + lo, at + hi) == Slice(tree[at..], lo, hi)
    ensures From(tree, at + hi) == From(tree[at..], hi)
  {
  }

  lemma NamesStep(src: Source, ext: string, dir: string, b: Bytes, name: string, behind: Bytes)
    requires TakeString(b) == Some((name, behind)) && name != ""
    ensures ReadNames(src, ext, dir, b) ==
      var one := ReadEntry(src, ext, dir, name, behind);
      if one.Err? then Err(one.error) else Appended([one.value.0], ReadNames(src, ext, dir, one.value.1))
  {
  }

  method ReadNamesAt(src: Source, tree: Bytes, ext: string, dir: string, start: nat) returns (r: Cursor)
    ensures Agrees(tree, ReadNames(src, ext, dir, From(tree, start)), r)
  {
    var entries: seq<Entry>, at := [], start;
    ghost var want := ReadNames(src, ext, dir, From(tree, start));
    AppendedTwice([], [], want);
    while true
      invariant 0 <= at && want == Appended(entries, ReadNames(src, ext, dir, From(tree, at)))
      decreases |From(tree, at)|
    {
      var name, behind := TakeCString(tree, at);
      if name.None? {
        return Err(Unterminated);
      }
      if name.value == "" {
        assert entries + [] == entries;
        return Ok((entries, behind));
      }
      NamesStep(src, ext, dir, From(tree, at), name.value, From(tree, behind));
      var one := ReadEntryAt(src, tree, ext, dir, name.value, behind);
      if one.Err? {
        return Err(one.error);
      }
      AppendedTwice(entries, [one.value.0], ReadNames(src, ext, dir, From(tree, one.value.1)));
      entries, at := entries + [one.value.0], one.value.1;
    }
  }

  lemma DirsStep(src: Source, ext: string, b: Bytes, dir: string, behind: Bytes)
    requires TakeString(b) == Some((dir, behind)) && dir != ""
    ensures ReadDirs(src, ext, b) ==
      var names := ReadNames(src, ext, dir, behind);
      if names.Err? then Err(names.error) else Appended(names.value.0, ReadDirs(src, ext, names.value.1))
  {
  }

  method ReadDirsAt(src: Source, tree: Bytes, ext: string, start: nat) returns (r: Cursor)
    ensures Agrees(tree, ReadDirs(src, ext, From(tree, start)), r)
  {
    var entries: seq<Entry>, at := [], start;
    ghost var want := ReadDirs(src, ext, From(tree, start));
    AppendedTwice([], [], want);
    while true
      invariant 0 <= at && want == Appended(entries, ReadDirs(src, ext, From(tree, at)))
      decreases |From(tree, at)|
    {
      var dir, behind := TakeCString(tree, at);
      if dir.None? {
        return Err(Unterminated);
      }
      if dir.value == "" {
        assert entries + [] == entries;
        return Ok((entries, behind));
      }
      DirsStep(src, ext, From(tree, at), dir.value, From(tree, behind));
      var names := ReadNamesAt(src, tree, ext, dir.value, behind);
      if names.Err? {
        return Err(names.error);
      }
      AppendedTwice(entries, names.value.0, ReadDirs(src, ext, From(tree, names.value.1)));
      entries, at := entries + names.value.0, names.value.1;
    }
  }

  lemma ExtsStep(src: Source, b: Bytes, ext: string, behind: Bytes)
    requires TakeString(b) == Some((ext, behind)) && ext != ""
    ensures ReadExts(src, b) ==
      var dirs := ReadDirs(src, ext, behind);
      if dirs.Err? then Err(dirs.error) else Appended(dirs.value.0, ReadExts(src, dirs.value.1))
  {
  }

  method ReadExtsAt(src: Source, tree: Bytes, start: nat) returns (r: Cursor)
    ensures Agrees(tree, ReadExts(src, From(tree, start)), r)
  {
    var entries: seq<Entry>, at := [], start;
    ghost var want := ReadExts(src, From(tree, start));
    AppendedTwice([], [], want);
    while true
      invariant 0 <= at && want == Appended(entries, ReadExts(src, From(tree, at)))
      decreases |From(tree, at)|
    {
      var ext, behind := TakeCString(tree, at);
      if ext.None? {
        return Err(Unterminated);
      }
      if ext.value == "" {
        assert entries + [] == entries;
        return Ok((entries, behind));
      }
      ExtsStep(src, From(tree, at), ext.value, From(tree, behind));
      var dirs := ReadDirsAt(src, tree, ext.value, behind);
      if dirs.Err? {
        return Err(dirs.error);
      }
      AppendedTwice(entries, dirs.value.0, ReadExts(src, From(tree, dirs.value.1)));
      entries, at := entries + dirs.value.0, dirs.value.1;
    }
  }

  method ReadVpk(h: Hashes, pack: Bytes) returns (r: Result<seq<Entry>, ReadError>)
    ensures r == Read(h, pack)
  {
    var checked := Checked(h, pack);
    if checked.Err? {
      return Err(checked.error);
    }
    var s := checked.value;
    var read := ReadExtsAt(Source(h, pack, s.dataStart), pack[HEADER_BYTES..s.dataStart], 0);
    if read.Err? {
      return Err(read.error);
    }
    return Ok(read.value.0);
  }
}

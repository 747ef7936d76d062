/** A pack byte for byte: what a lone file becomes, what is refused and for which file, and how damage
    and foreign entries are answered (hud/src/vpk.ts). */
module VpkBytes {
  import opened Wrappers
  import opened Octets
  import opened Digests
  import opened Ordered
  import opened Sorting
  import opened Texts
  import opened VpkPath
  import opened VpkFormat
  import opened VpkRoundTrip
  import Lists
  import Utf8

  // ---- The bytes of a lone file

  function LoneTree(h: Hashes, dir: string, name: string, ext: string, data: Bytes): Bytes {
    Utf8.Encode(ext) + [0] + Utf8.Encode(dir) + [0] + Utf8.Encode(name) + [0]
    + Le32(h.crc32(data)) + [0, 0, 0xff, 0x7f, 0, 0, 0, 0] + Le32(|data|) + [0xff, 0xff]
    + [0, 0, 0]
  }

  function LoneHead(tree: nat, data: nat): Bytes {
    [0x34, 0x12, 0xaa, 0x55, 2, 0, 0, 0] + Le32(tree) + Le32(data) + [0, 0, 0, 0, 48, 0, 0, 0, 0, 0, 0, 0]
  }

  lemma HeadIs(tree: nat, data: nat)
    ensures Header(tree, data) == LoneHead(tree, data)
  {
  }

  lemma LoneEntry(h: Hashes, f: File)
    ensures EntryBytes(h, f, 0)
         == Le32(h.crc32(f.data)) + [0, 0, 0xff, 0x7f, 0, 0, 0, 0] + Le32(|f.data|) + [0xff, 0xff]
  {
  }

  lemma LoneGroup(f: File, key: File -> string)
    ensures GroupBy([f], key) == [(key(f), [f])]
  {
    assert With([f], key, key(f)) == [f] && Without([f], key, key(f)) == [];
  }

  lemma LoneGroups(f: File, outer: File -> string, inner: File -> string)
    ensures GroupByTwo([f], outer, inner) == [(outer(f), [(inner(f), [f])])]
  {
    LoneGroup(f, outer);
    LoneGroup(f, inner);
    assert GroupEach([(outer(f), [f])], inner) == [(outer(f), GroupBy([f], inner))];
  }

  lemma LoneNames(h: Hashes, offsets: map<string, nat>, f: File)
    ensures NamesBytes(h, offsets, [f])
         == CString(Split(f.path).name) + EntryBytes(h, f, OffsetIn(offsets, f.path)) + CString("")
  {
  }

  lemma LoneDirs(h: Hashes, offsets: map<string, nat>, dir: string, files: seq<File>)
    ensures DirsBytes(h, offsets, [(dir, files)]) == CString(dir) + NamesBytes(h, offsets, files) + CString("")
  {
  }

  lemma LoneExts(h: Hashes, offsets: map<string, nat>, ext: string, dirs: Record<seq<File>>)
    ensures ExtsBytes(h, offsets, [(ext, dirs)]) == CString(ext) + DirsBytes(h, offsets, dirs) + CString("")
  {
  }

  lemma LoneLevels(h: Hashes, offsets: map<string, nat>, f: File)
    requires OffsetIn(offsets, f.path) == 0
    ensures var p := Split(f.path);
      ExtsBytes(h, offsets, [(p.ext, [(p.dir, [f])])])
      == CString(p.ext) + (CString(p.dir) + (CString(p.name) + EntryBytes(h, f, 0) + [0]) + [0]) + [0]
  {
    var p := Split(f.path);
    LoneNames(h, offsets, f);
    LoneDirs(h, offsets, p.dir, [f]);
    LoneExts(h, offsets, p.ext, [(p.dir, [f])]);
    assert CString("") == [0];
  }

  lemma Flat(ext: Bytes, dir: Bytes, name: Bytes, entry: Bytes)
    ensures (ext + [0]) + ((dir + [0]) + ((name + [0]) + entry + [0]) + [0]) + [0]
         == ext + [0] + dir + [0] + name + [0] + entry + [0, 0, 0]
  {
  }

  lemma LoneParts(h: Hashes, dir: string, name: string, ext: string, data: Bytes, entry: Bytes)
    requires entry == Le32(h.crc32(data)) + [0, 0, 0xff, 0x7f, 0, 0, 0, 0] + Le32(|data|) + [0xff, 0xff]
    ensures CString(ext) + (CString(dir) + (CString(name) + entry + [0]) + [0]) + [0]
         == LoneTree(h, dir, name, ext, data)
  {
    var front := Utf8.Encode(ext) + [0] + Utf8.Encode(dir) + [0] + Utf8.Encode(name) + [0];
    Flat(Utf8.Encode(ext), Utf8.Encode(dir), Utf8.Encode(name), entry);
    assert front + entry + [0, 0, 0] == LoneTree(h, dir, name, ext, data);
  }

  lemma LoneTreeIs(h: Hashes, f: File)
    ensures var p := Split(f.path); TreeBytes(h, [f]) == LoneTree(h, p.dir, p.name, p.ext, f.data)
  {
    var p := Split(f.path);
    LoneGroups(f, ExtOf, InDir);
    LoneLevels(h, Offsets([f]), f);
    LoneEntry(h, f);
    LoneParts(h, p.dir, p.name, p.ext, f.data, EntryBytes(h, f, 0));
  }

  lemma LoneWritten(h: Hashes, f: File)
    requires Faults(h.lower, f.path) == [] && |f.data| < WORD && |TreeBytes(h, [f])| < WORD
    ensures Written(h, [f]) == Ok(Pack(h, TreeBytes(h, [f]), f.data))
  {
    assert ByPath([f]) == [f];
    assert FirstFault(h.lower, [f], 0).None?;
    assert Total([f]) == |f.data| && DataOf([f]) == f.data;
  }

  /** `dir/name.ext` alone in a pack. */
  lemma LonePack(h: Hashes, dir: string, name: string, ext: string, data: Bytes)
    requires '/' !in name && '/' !in ext && '.' !in ext && ext != ""
    requires Faults(h.lower, dir + "/" + name + "." + ext) == []
    requires |data| < WORD && |LoneTree(h, dir, name, ext, data)| < WORD
    ensures var tree := LoneTree(h, dir, name, ext, data);
      var body := LoneHead(|tree|, |data|) + tree + data + h.md5(tree) + h.md5([]);
      Written(h, [File(dir + "/" + name + "." + ext, data)]) == Ok(body + h.md5(body))
  {
    var path := dir + "/" + name + "." + ext;
    var f := File(path, data);
    assert path == dir + "/" + (name + "." + ext);
    FileInDir(path, dir, name + "." + ext);
    CutAtDot(path, name, ext);
    LoneTreeIs(h, f);
    HeadIs(|TreeBytes(h, [f])|, |data|);
    LoneWritten(h, f);
  }

  // ---- What is refused, and for which file

  /** Two files claim the path. */
  ghost predicate Twofold(files: seq<File>, path: string) {
    exists i, j :: 0 <= i < j < |files| && files[i].path == path && files[j].path == path
  }

  /** A path of the list that no pack can hold. */
  ghost predicate Culprit(lower: string -> string, files: seq<File>, path: string) {
    && (exists f <- files :: f.path == path)
    && (Faults(lower, path) != [] || Twofold(files, path))
  }

  function ErrorOf(lower: string -> string, path: string): WriteError {
    if path != lower(path) then BadPath(path, NotLowerCase)
    else if Faults(lower, path) != [] then BadPath(path, NotClean)
    else Twice(path)
  }

  ghost predicate FaultAt(lower: string -> string, sorted: seq<File>, i: nat)
    requires i < |sorted|
  {
    Faults(lower, sorted[i].path) != [] || (i > 0 && sorted[i - 1].path == sorted[i].path)
  }

  lemma {:induction false} FirstFaultAt(lower: string -> string, sorted: seq<File>, i: nat) returns (k: nat)
    requires i <= |sorted| && FirstFault(lower, sorted, i).Some?
    ensures i <= k < |sorted| && FaultAt(lower, sorted, k)
    ensures forall j :: i <= j < k ==> !FaultAt(lower, sorted, j)
    ensures FirstFault(lower, sorted, i) == Some(ErrorOf(lower, sorted[k].path))
    decreases |sorted| - i
  {
    k := i;
    if !FaultAt(lower, sorted, i) {
      k := FirstFaultAt(lower, sorted, i + 1);
    }
  }

  lemma {:induction false} FirstFaultThere(lower: string -> string, sorted: seq<File>, i: nat, j: nat)
    requires i <= j < |sorted| && FaultAt(lower, sorted, j)
    ensures FirstFault(lower, sorted, i).Some?
    decreases j - i
  {
    if i < j {
      FirstFaultThere(lower, sorted, i + 1, j);
    }
  }

  lemma TwoIsCount<T>(xs: seq<T>, x: T)
    ensures multiset(xs)[x] >= 2 <==> exists i, j :: 0 <= i < j < |xs| && xs[i] == x && xs[j] == x
  {
    if x in xs {
      var k :| 0 <= k < |xs| && xs[k] == x;
      var others := Lists.Omit(xs, k);
      Lists.TakenOut(xs, k);
      if x in others {
        var j :| 0 <= j < |others| && others[j] == x;
        assert xs[if j < k then j else j + 1] == x;
      }
      forall i, j | 0 <= i < j < |xs| && xs[i] == x && xs[j] == x ensures x in others {
        var l := if i == k then j else i;
        assert others[if l < k then l else l - 1] == x;
      }
    }
  }

  lemma TwofoldIsCount(files: seq<File>, path: string)
    ensures Twofold(files, path) <==> multiset(PathsOf(files))[path] >= 2
    ensures (exists f <- files :: f.path == path) <==> path in multiset(PathsOf(files))
  {
    var paths := PathsOf(files);
    TwoIsCount(paths, path);
    if Twofold(files, path) {
      var i, j :| 0 <= i < j < |files| && files[i].path == path && files[j].path == path;
      assert paths[i] == path && paths[j] == path;
    }
    if path in paths {
      var i :| 0 <= i < |paths| && paths[i] == path;
      assert files[i] in files;
    }
    forall f | f in files && f.path == path ensures path in paths {
      var i :| 0 <= i < |files| && files[i] == f;
      assert paths[i] == path;
    }
  }

  /** Culprits do not depend on the order of the files. */
  lemma SameCulprits(lower: string -> string, files: seq<File>, again: seq<File>, path: string)
    requires multiset(files) == multiset(again)
    ensures Culprit(lower, files, path) <==> Culprit(lower, again, path)
  {
    SamePaths(files, again);
    TwofoldIsCount(files, path);
    TwofoldIsCount(again, path);
  }

  /** In a sorted list a culprit shows at its last place at the latest. */
  lemma CulpritShows(lower: string -> string, sorted: seq<File>, path: string) returns (k: nat)
    requires Sorted(sorted, PathOf) && Culprit(lower, sorted, path)
    ensures k < |sorted| && sorted[k].path == path && FaultAt(lower, sorted, k)
  {
    if Faults(lower, path) != [] {
      k :| 0 <= k < |sorted| && sorted[k].path == path;
    } else {
      var i, j :| 0 <= i < j < |sorted| && sorted[i].path == path && sorted[j].path == path;
      k := j;
      if i < j - 1 {
        assert !Less(PathOf(sorted[j - 1]), PathOf(sorted[i])) && !Less(PathOf(sorted[j]), PathOf(sorted[j - 1]));
        LessIsTotal(sorted[j - 1].path, path);
      }
    }
  }

  /** The least culprit is the one a refusal names, whatever order the files come in. */
  lemma RefusesTheLeast(h: Hashes, files: seq<File>, path: string)
    requires Culprit(h.lower, files, path)
    requires forall q :: Culprit(h.lower, files, q) ==> !Less(q, path)
    ensures Written(h, files) == Err(ErrorOf(h.lower, path))
  {
    var sorted := ByPath(files);
    SortSorts(files, PathOf);
    SameCulprits(h.lower, files, sorted, path);
    var k := CulpritShows(h.lower, sorted, path);
    FirstFaultThere(h.lower, sorted, 0, k);
    var i := FirstFaultAt(h.lower, sorted, 0);
    var first := sorted[i].path;
    assert Culprit(h.lower, sorted, first) by {
      assert sorted[i] in sorted;
    }
    SameCulprits(h.lower, files, sorted, first);
    assert i == k || !Less(PathOf(sorted[k]), PathOf(sorted[i]));
    LessIsTotal(first, path);
  }

  /** Without a culprit the sizes decide. */
  lemma RefusesNothingElse(h: Hashes, files: seq<File>)
    requires forall q :: !Culprit(h.lower, files, q)
    ensures Written(h, files).Err? ==> Written(h, files).error == OutOfRange
    ensures Written(h, files).Err? <==> Total(ByPath(files)) >= WORD || |TreeBytes(h, ByPath(files))| >= WORD
  {
    var sorted := ByPath(files);
    if FirstFault(h.lower, sorted, 0).Some? {
      var i := FirstFaultAt(h.lower, sorted, 0);
      assert sorted[i] in sorted;
      assert Culprit(h.lower, sorted, sorted[i].path);
      SameCulprits(h.lower, files, sorted, sorted[i].path);
    }
  }

  // ---- Damaged packs

  lemma LowDigit(a: byte, b: byte, x: int, y: int)
    requires a + 256 * x == b + 256 * y
    ensures a == b && x == y
  {
  }

  lemma WordsAgree(a: Bytes, b: Bytes, at: nat)
    requires at + 4 <= |a| && at + 4 <= |b|
    ensures ReadLe32(a, at) == ReadLe32(b, at) <==> a[at..at + 4] == b[at..at + 4]
  {
    var p, q := a[at..at + 4], b[at..at + 4];
    assert a[at] == p[0] && a[at + 1] == p[1] && a[at + 2] == p[2] && a[at + 3] == p[3];
    if ReadLe32(a, at) == ReadLe32(b, at) {
      LowDigit(p[0], q[0], p[1] as int + 256 * (p[2] as int + 256 * p[3] as int),
               q[1] as int + 256 * (q[2] as int + 256 * q[3] as int));
      LowDigit(p[1], q[1], p[2] as int + 256 * p[3] as int, q[2] as int + 256 * q[3] as int);
      LowDigit(p[2], q[2], p[3], q[3]);
    }
  }

  lemma SameHeader(bad: Bytes, pack: Bytes, tree: nat, data: nat)
    requires Announces(pack, tree, data)
    requires |bad| >= HEADER_BYTES && bad[..HEADER_BYTES] == pack[..HEADER_BYTES]
    ensures Announces(bad, tree, data)
  {
    assert forall k :: 0 <= k < HEADER_BYTES ==> bad[k] == bad[..HEADER_BYTES][k] == pack[..HEADER_BYTES][k];
  }

  lemma WrittenAnnounces(h: Hashes, files: seq<File>)
    requires Written(h, files).Ok?
    ensures var pack, tree, data := Written(h, files).value, TreeBytes(h, ByPath(files)), DataOf(ByPath(files));
      && Announces(pack, |tree|, |data|) && Holds(h, pack, tree, data)
  {
    var sorted := ByPath(files);
    var tree, data := TreeBytes(h, sorted), DataOf(sorted);
    var sums := h.md5(tree) + h.md5([]) + h.md5(Body(h, tree, data));
    TotalIsLength(sorted);
    PackIs(h, tree, data, Header(|tree|, |data|), sums, Pack(h, tree, data));
    HeaderAnnounces(|tree|, |data|, tree + data + sums, Pack(h, tree, data));
    PackHolds(h, tree, data, Pack(h, tree, data));
  }

  lemma ReadFails(h: Hashes, bad: Bytes)
    ensures Checked(h, bad).Err? ==> Read(h, bad) == Err(Checked(h, bad).error)
  {
  }

  ghost predicate HeadTold(pack: Bytes, bad: Bytes, read: Result<seq<Entry>, ReadError>)
    requires |pack| >= 28
  {
    && (|bad| < 28 || bad[0..4] != pack[0..4] ==> read == Err(BadSignature))
    && (|bad| >= 28 && bad[0..4] == pack[0..4] && bad[4..8] != pack[4..8]
        ==> read == Err(BadVersion(ReadLe32(bad, 4))))
    && (|bad| >= 28 && bad[..28] == pack[..28] && |bad| != |pack| ==> read == Err(BadSizes))
  }

  lemma BadStart(h: Hashes, pack: Bytes, bad: Bytes, tree: nat, data: nat)
    requires Announces(pack, tree, data)
    ensures |bad| < 28 || bad[0..4] != pack[0..4] ==> Checked(h, bad) == Err(BadSignature)
    ensures |bad| >= 28 && bad[0..4] == pack[0..4] && bad[4..8] != pack[4..8]
        ==> Checked(h, bad) == Err(BadVersion(ReadLe32(bad, 4)))
  {
    if |bad| >= 28 {
      WordsAgree(bad, pack, 0);
      WordsAgree(bad, pack, 4);
    }
  }

  lemma BadLength(h: Hashes, bad: Bytes, tree: nat, data: nat)
    requires Announces(bad, tree, data) && |bad| != HEADER_BYTES + tree + data + OTHER_MD5_BYTES
    ensures Checked(h, bad) == Err(BadSizes)
  {
  }

  lemma HeadIsTold(h: Hashes, pack: Bytes, bad: Bytes, tree: nat, data: nat)
    requires Announces(pack, tree, data) && |pack| == HEADER_BYTES + tree + data + OTHER_MD5_BYTES
    ensures HeadTold(pack, bad, Read(h, bad))
  {
    ReadFails(h, bad);
    BadStart(h, pack, bad, tree, data);
    if |bad| >= 28 && bad[..28] == pack[..28] && |bad| != |pack| {
      SameHeader(bad, pack, tree, data);
      BadLength(h, bad, tree, data);
    }
  }

  /** Damage in the header, and bytes lost or added behind a whole one. */
  lemma HeadDamageIsNamed(h: Hashes, files: seq<File>, bad: Bytes)
    requires Written(h, files).Ok?
    ensures |Written(h, files).value| >= 28 && HeadTold(Written(h, files).value, bad, Read(h, bad))
  {
    WrittenAnnounces(h, files);
    HeadIsTold(h, Written(h, files).value, bad, |TreeBytes(h, ByPath(files))|, |DataOf(ByPath(files))|);
  }

  /** The three digests of a buffer, where its checksum section starts at `end`. */
  function SumAt(b: Bytes, end: nat, k: nat): Bytes
    requires end + 48 <= |b| && k < 3
  {
    b[end + 16 * k..end + 16 * k + 16]
  }

  lemma SliceOfSlice(b: Bytes, lo: nat, n: nat, i: nat, j: nat)
    requires i <= j <= n && lo + n <= |b|
    ensures b[lo..lo + n][i..j] == b[lo + i..lo + j]
  {
    var part, there := b[lo..lo + n][i..j], b[lo + i..lo + j];
    assert |part| == |there| == j - i;
    forall k | 0 <= k < j - i ensures part[k] == there[k] {
      assert part[k] == b[lo..lo + n][i + k] == b[lo + i + k] == there[k];
    }
  }

  lemma SumsInside(b: Bytes, end: nat)
    requires end + 48 <= |b|
    ensures var other := b[end..end + 48];
      other[..16] == SumAt(b, end, 0) && other[16..32] == SumAt(b, end, 1) && other[32..48] == SumAt(b, end, 2)
  {
    var other := b[end..end + 48];
    assert other[..16] == other[0..16];
    SliceOfSlice(b, end, 48, 0, 16);
    SliceOfSlice(b, end, 48, 16, 32);
    SliceOfSlice(b, end, 48, 32, 48);
  }

  predicate SameSum(a: Bytes, b: Bytes, k: nat)
    requires |a| == |b| >= 48 && k < 3
  {
    SumAt(a, |a| - 48, k) == SumAt(b, |b| - 48, k)
  }

  lemma SumsDecide(h: Hashes, b: Bytes, tree: nat, data: nat)
    requires Announces(b, tree, data) && |b| == HEADER_BYTES + tree + data + OTHER_MD5_BYTES
    ensures var start, end := HEADER_BYTES + tree, HEADER_BYTES + tree + data;
      Checked(h, b)
      == if h.md5(b[HEADER_BYTES..start]) != SumAt(b, end, 0) then Err(TreeChecksum)
         else if h.md5([]) != SumAt(b, end, 1) then Err(ArchiveChecksum)
         else if h.md5(b[..end + 32]) != SumAt(b, end, 2) then Err(FileChecksum)
         else Ok(SectionsOf(b))
  {
    var end := HEADER_BYTES + tree + data;
    SumsInside(b, end);
    assert b[end..end] == [];
  }

  lemma SumsAre(h: Hashes, pack: Bytes, tree: Bytes, data: Bytes)
    requires Holds(h, pack, tree, data)
    ensures var start, end := HEADER_BYTES + |tree|, HEADER_BYTES + |tree| + |data|;
      && SumAt(pack, end, 0) == h.md5(pack[HEADER_BYTES..start])
      && SumAt(pack, end, 1) == h.md5([])
      && SumAt(pack, end, 2) == h.md5(pack[..end + 32])
  {
    SumsInside(pack, HEADER_BYTES + |tree| + |data|);
  }

  /** What became of a damaged pack: whether the digests of the tree and of the file still fit their bytes,
      and whether the three that are written down are still the old ones. */
  ghost predicate DamageTold(h: Hashes, pack: Bytes, bad: Bytes, tree: nat, read: Result<seq<Entry>, ReadError>)
    requires |bad| == |pack| >= 28 + tree + 48
  {
    var end := |pack| - 48;
    var sameTree := h.md5(bad[28..28 + tree]) == h.md5(pack[28..28 + tree]);
    var sameBody := h.md5(bad[..end + 32]) == h.md5(pack[..end + 32]);
    && (sameTree != SameSum(bad, pack, 0) ==> read == Err(TreeChecksum))
    && (sameTree && SameSum(bad, pack, 0) && !SameSum(bad, pack, 1) ==> read == Err(ArchiveChecksum))
    && (sameTree && SameSum(bad, pack, 0) && SameSum(bad, pack, 1) && sameBody != SameSum(bad, pack, 2)
        ==> read == Err(FileChecksum))
  }

  lemma DamageIsNamed(h: Hashes, pack: Bytes, bad: Bytes, tree: Bytes, data: Bytes)
    requires Announces(bad, |tree|, |data|) && Holds(h, pack, tree, data) && |bad| == |pack|
    ensures DamageTold(h, pack, bad, |tree|, Read(h, bad))
  {
    var end := HEADER_BYTES + |tree| + |data|;
    SumsDecide(h, bad, |tree|, |data|);
    SumsAre(h, pack, tree, data);
    ReadFails(h, bad);
    assert |pack| - 48 == end;
  }

  /** Damage behind a whole header. A section and its digest of which one changed without the other are told
      apart: first the tree, then the empty archive section, then the file as a whole. */
  lemma BodyDamageIsNamed(h: Hashes, files: seq<File>, bad: Bytes)
    requires Written(h, files).Ok?
    requires |bad| == |Written(h, files).value| && bad[..28] == Written(h, files).value[..28]
    ensures var pack, tree := Written(h, files).value, |TreeBytes(h, ByPath(files))|;
      |pack| >= 28 + tree + 48 && DamageTold(h, pack, bad, tree, Read(h, bad))
  {
    var pack := Written(h, files).value;
    var tree, data := TreeBytes(h, ByPath(files)), DataOf(ByPath(files));
    WrittenAnnounces(h, files);
    SameHeader(bad, pack, |tree|, |data|);
    DamageIsNamed(h, pack, bad, tree, data);
  }

  // ---- Entries somebody else wrote

  predicate WordsFit(f: Fields) {
    f.preload < 65536 && f.archive < 65536 && f.offset < WORD && f.length < WORD && f.terminator < 65536
  }

  function FieldBytes(f: Fields): Bytes {
    Le32(f.crc) + Le16(f.preload) + Le16(f.archive) + Le32(f.offset) + Le32(f.length) + Le16(f.terminator)
  }

  lemma FieldsComeBack(f: Fields, behind: Bytes)
    requires WordsFit(f)
    ensures |FieldBytes(f)| == ENTRY_BYTES && FieldsAt(FieldBytes(f) + behind, 0) == f
  {
    DigitsOf(f.crc);
    DigitsOf(f.offset);
    DigitsOf(f.length);
  }

  /** What the preload adds comes from behind the entry, the rest from the data section. */
  function DataNamed(src: Source, f: Fields, behind: Bytes): Bytes {
    var start := src.dataStart + f.offset;
    Slice(behind, 0, f.preload) + Slice(src.pack, start, start + f.length)
  }

  function PathNamed(ext: string, dir: string, name: string): string {
    (if dir == " " then "" else dir + "/") + name + (if ext == " " then "" else "." + ext)
  }

  lemma BehindTheFields(fields: Bytes, behind: Bytes, n: nat)
    requires |fields| == ENTRY_BYTES
    ensures Slice(fields + behind, ENTRY_BYTES, ENTRY_BYTES + n) == Slice(behind, 0, n)
    ensures From(fields + behind, ENTRY_BYTES + n) == From(behind, n)
  {
  }

  /** In this order the terminator, the archive and the CRC are judged; an entry that passes is taken with
      its preload and its slice. */
  function Judged(src: Source, f: Fields, path: string, behind: Bytes): Result<Entry, ReadError> {
    var data := DataNamed(src, f, behind);
    if f.terminator != 0xffff then Err(EntryTerminator)
    else if f.archive != 0x7fff then Err(Archive(f.archive))
    else if src.h.crc32(data) != f.crc then Err(BadCrc(path))
    else Ok(Entry(path, f.crc, data))
  }

  lemma EntryIs(src: Source, ext: string, dir: string, name: string, f: Fields, b: Bytes, behind: Bytes)
    requires |b| >= ENTRY_BYTES && FieldsAt(b, 0) == f
    requires Slice(b, ENTRY_BYTES, ENTRY_BYTES + f.preload) == Slice(behind, 0, f.preload)
    requires From(b, ENTRY_BYTES + f.preload) == From(behind, f.preload)
    ensures var r := Judged(src, f, PathNamed(ext, dir, name), behind);
      ReadEntry(src, ext, dir, name, b) == if r.Ok? then Ok((r.value, From(behind, f.preload))) else Err(r.error)
  {
    assert Rejoin(Parts(dir, name, ext)) == PathNamed(ext, dir, name);
  }

  lemma NameIs(src: Source, ext: string, dir: string, name: string, b: Bytes, rest: Bytes)
    requires TakeString(b) == Some((name, rest)) && name != ""
    ensures var e := ReadEntry(src, ext, dir, name, rest);
      && (e.Err? ==> ReadNames(src, ext, dir, b) == Err(e.error))
      && (e.Ok? ==>
        var more := ReadNames(src, ext, dir, e.value.1);
        ReadNames(src, ext, dir, b)
        == if more.Err? then Err(more.error) else Ok(([e.value.0] + more.value.0, more.value.1)))
  {
  }

  /** Any entry at all, whoever wrote it. */
  lemma EntryIsJudged(src: Source, ext: string, dir: string, name: string, f: Fields, behind: Bytes)
    requires name != "" && '\0' !in name && WordsFit(f)
    ensures var e := Judged(src, f, PathNamed(ext, dir, name), behind);
      var r := ReadNames(src, ext, dir, CString(name) + (FieldBytes(f) + behind));
      && (e.Err? ==> r == Err(e.error))
      && (e.Ok? ==>
        var more := ReadNames(src, ext, dir, From(behind, f.preload));
        r == if more.Err? then Err(more.error) else Ok(([e.value] + more.value.0, more.value.1)))
  {
    var rest := FieldBytes(f) + behind;
    TakesString(name, rest);
    FieldsComeBack(f, behind);
    BehindTheFields(FieldBytes(f), behind, f.preload);
    EntryIs(src, ext, dir, name, f, rest, behind);
    NameIs(src, ext, dir, name, CString(name) + rest, rest);
  }

  /** A tree that stops inside an entry, and one that stops inside a string. */
  lemma StopsShort(src: Source, ext: string, dir: string, name: string, behind: Bytes)
    requires name != "" && '\0' !in name
    ensures |behind| < 18 ==> ReadNames(src, ext, dir, CString(name) + behind) == Err(Truncated)
    ensures 0 !in behind ==> ReadNames(src, ext, dir, behind) == ReadDirs(src, ext, behind) == Err(Unterminated)
    ensures 0 !in behind ==> ReadExts(src, behind) == Err(Unterminated)
  {
    TakesString(name, behind);
    if 0 !in behind {
      assert IndexOfZero(behind, 0) == |behind|;
    }
  }
}

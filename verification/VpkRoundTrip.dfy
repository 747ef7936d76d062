/** Reading a written pack: which files come back, and when they come back as they were (hud/src/vpk.ts). */
module VpkRoundTrip {
  import opened Wrappers
  import opened Octets
  import opened Digests
  import Lists
  import opened Ordered
  import opened Sorting
  import opened VpkPath
  import opened VpkFormat
  import opened VpkNul
  import Texts
  import Utf8

  // ---- One string, one entry

  lemma TakesString(s: string, rest: Bytes)
    requires '\0' !in s
    ensures TakeString(CString(s) + rest) == Some((s, rest))
  {
    var b := CString(s) + rest;
    var n := |Utf8.Encode(s)|;
    Utf8.ZeroIsNul(s);
    Utf8.DecodesEncoded(s);
    assert b[n] == 0;
    assert forall j :: 0 <= j < n ==> b[j] == Utf8.Encode(s)[j];
    assert IndexOfZero(b, 0) == n;
    assert b[..n] == Utf8.Encode(s) && b[n + 1..] == rest;
  }

  lemma EntryFields(h: Hashes, f: File, offset: nat, rest: Bytes)
    requires offset < WORD && |f.data| < WORD
    ensures FieldsAt(EntryBytes(h, f, offset) + rest, 0)
         == Fields(h.crc32(f.data), 0, EMBEDDED, offset, |f.data|, TERMINATOR)
  {
    DigitsOf(h.crc32(f.data));
    DigitsOf(offset);
    DigitsOf(|f.data|);
  }

  /** The file's data is where its entry will say. */
  ghost predicate Placed(src: Source, offsets: map<string, nat>, f: File) {
    var offset := OffsetIn(offsets, f.path);
    && offset < WORD && |f.data| < WORD
    && Slice(src.pack, src.dataStart + offset, src.dataStart + offset + |f.data|) == f.data
  }

  /** What reading gives for a file: its data and CRC under the path put together again. */
  function EntryOf(h: Hashes, f: File): Entry {
    Entry(Rejoin(Split(f.path)), h.crc32(f.data), f.data)
  }

  function EntriesOf(h: Hashes, files: seq<File>): (r: seq<Entry>)
    ensures |r| == |files|
    ensures forall i :: 0 <= i < |files| ==> r[i] == EntryOf(h, files[i])
  {
    seq(|files|, i requires 0 <= i < |files| => EntryOf(h, files[i]))
  }

  lemma NoPreload(entry: Bytes, rest: Bytes, data: Bytes)
    requires |entry| == ENTRY_BYTES
    ensures Slice(entry + rest, ENTRY_BYTES, ENTRY_BYTES) + data == data
    ensures From(entry + rest, ENTRY_BYTES) == rest
  {
  }

  lemma EntryReads(src: Source, offsets: map<string, nat>, f: File, rest: Bytes)
    requires Placed(src, offsets, f)
    ensures var p := Split(f.path);
      ReadEntry(src, p.ext, p.dir, p.name, EntryBytes(src.h, f, OffsetIn(offsets, f.path)) + rest)
      == Ok((EntryOf(src.h, f), rest))
  {
    var offset := OffsetIn(offsets, f.path);
    var entry := EntryBytes(src.h, f, offset);
    EntryFields(src.h, f, offset, rest);
    NoPreload(entry, rest, f.data);
    FieldsRead(src, f, offset, entry + rest, rest);
  }

  lemma FieldsRead(src: Source, f: File, offset: nat, b: Bytes, rest: Bytes)
    requires |b| >= ENTRY_BYTES
    requires FieldsAt(b, 0) == Fields(src.h.crc32(f.data), 0, EMBEDDED, offset, |f.data|, TERMINATOR)
    requires Slice(b, ENTRY_BYTES, ENTRY_BYTES) + f.data == f.data && From(b, ENTRY_BYTES) == rest
    requires Slice(src.pack, src.dataStart + offset, src.dataStart + offset + |f.data|) == f.data
    ensures var p := Split(f.path); ReadEntry(src, p.ext, p.dir, p.name, b) == Ok((EntryOf(src.h, f), rest))
  {
  }

  // ---- The three levels of the tree

  ghost predicate Level(src: Source, offsets: map<string, nat>, ext: string, dir: string, files: seq<File>) {
    forall f <- files ::
      && Placed(src, offsets, f)
      && '\0' !in Split(f.path).name
      && Split(f.path).ext == ext
      && Split(f.path).dir == dir
  }

  /** No file's name is the empty one that ends a directory. */
  ghost predicate Named(files: seq<File>) {
    forall f <- files :: Split(f.path).name != ""
  }

  lemma NamedParts(a: seq<File>, b: seq<File>)
    ensures Named(a + b) <==> Named(a) && Named(b)
  {
    if Named(a + b) {
      forall f | f in a || f in b ensures Split(f.path).name != "" {
        assert f in a + b;
      }
    }
  }

  lemma NameReads(src: Source, ext: string, dir: string, name: string, b: Bytes, behind: Bytes, e: Entry, next: Bytes,
                  es: seq<Entry>, end: Bytes)
    requires TakeString(b) == Some((name, behind)) && name != ""
    requires ReadEntry(src, ext, dir, name, behind) == Ok((e, next))
    requires ReadNames(src, ext, dir, next) == Ok((es, end))
    ensures ReadNames(src, ext, dir, b) == Ok(([e] + es, end))
  {
  }

  lemma {:induction false} NamesRead(
    src: Source, offsets: map<string, nat>, ext: string, dir: string, files: seq<File>, rest: Bytes)
    requires Level(src, offsets, ext, dir, files) && Named(files)
    ensures ReadNames(src, ext, dir, NamesBytes(src.h, offsets, files) + rest)
         == Ok((EntriesOf(src.h, files), rest))
  {
    if files == [] {
      TakesString("", rest);
    } else {
      var f := files[0];
      var name := Split(f.path).name;
      var entry := EntryBytes(src.h, f, OffsetIn(offsets, f.path));
      var more := NamesBytes(src.h, offsets, files[1..]) + rest;
      Lists.RegroupFour(CString(name), entry, NamesBytes(src.h, offsets, files[1..]), rest);
      TakesString(name, entry + more);
      EntryReads(src, offsets, f, more);
      NamesRead(src, offsets, ext, dir, files[1..], rest);
      NameReads(src, ext, dir, name, CString(name) + (entry + more), entry + more, EntryOf(src.h, f), more,
                EntriesOf(src.h, files[1..]), rest);
      EntriesOfCons(src.h, files);
    }
  }

  lemma EntriesOfCons(h: Hashes, files: seq<File>)
    requires files != []
    ensures EntriesOf(h, files) == [EntryOf(h, files[0])] + EntriesOf(h, files[1..])
  {
  }

  ghost predicate DirLevel(src: Source, offsets: map<string, nat>, ext: string, dirs: Record<seq<File>>) {
    forall j :: 0 <= j < |dirs| ==> Stringy(dirs[j].0) && Level(src, offsets, ext, dirs[j].0, dirs[j].1)
  }

  lemma {:induction false} DirsRead(
    src: Source, offsets: map<string, nat>, ext: string, dirs: Record<seq<File>>, rest: Bytes)
    requires DirLevel(src, offsets, ext, dirs) && Named(Flatten(dirs))
    ensures ReadDirs(src, ext, DirsBytes(src.h, offsets, dirs) + rest)
         == Ok((EntriesOf(src.h, Flatten(dirs)), rest))
  {
    if dirs == [] {
      TakesString("", rest);
    } else {
      var names := NamesBytes(src.h, offsets, dirs[0].1);
      var more := DirsBytes(src.h, offsets, dirs[1..]) + rest;
      Lists.RegroupFour(CString(dirs[0].0), names, DirsBytes(src.h, offsets, dirs[1..]), rest);
      TakesString(dirs[0].0, names + more);
      NamedParts(dirs[0].1, Flatten(dirs[1..]));
      NamesRead(src, offsets, ext, dirs[0].0, dirs[0].1, more);
      DirsRead(src, offsets, ext, dirs[1..], rest);
      EntriesOfAppend(src.h, dirs[0].1, Flatten(dirs[1..]));
    }
  }

  lemma EntriesOfAppend(h: Hashes, a: seq<File>, b: seq<File>)
    ensures EntriesOf(h, a + b) == EntriesOf(h, a) + EntriesOf(h, b)
  {
  }

  ghost predicate ExtLevel(src: Source, offsets: map<string, nat>, exts: Nested<File>) {
    forall i :: 0 <= i < |exts| ==> Stringy(exts[i].0) && DirLevel(src, offsets, exts[i].0, exts[i].1)
  }

  lemma {:induction false} ExtsRead(src: Source, offsets: map<string, nat>, exts: Nested<File>, rest: Bytes)
    requires ExtLevel(src, offsets, exts) && Named(FlattenTwo(exts))
    ensures ReadExts(src, ExtsBytes(src.h, offsets, exts) + rest)
         == Ok((EntriesOf(src.h, FlattenTwo(exts)), rest))
  {
    if exts == [] {
      TakesString("", rest);
    } else {
      var dirs := DirsBytes(src.h, offsets, exts[0].1);
      var more := ExtsBytes(src.h, offsets, exts[1..]) + rest;
      Lists.RegroupFour(CString(exts[0].0), dirs, ExtsBytes(src.h, offsets, exts[1..]), rest);
      TakesString(exts[0].0, dirs + more);
      NamedParts(Flatten(exts[0].1), FlattenTwo(exts[1..]));
      DirsRead(src, offsets, exts[0].0, exts[0].1, more);
      ExtsRead(src, offsets, exts[1..], rest);
      EntriesOfAppend(src.h, Flatten(exts[0].1), FlattenTwo(exts[1..]));
    }
  }

  // ---- The data section

  ghost predicate DistinctPaths(files: seq<File>) {
    forall i, j :: 0 <= i < j < |files| ==> files[i].path != files[j].path
  }

  /** Slices stand in sorted order, one right behind the other, and fill the data section. */
  lemma {:induction false} DataIsCovered(sorted: seq<File>, i: nat)
    requires i < |sorted|
    ensures Total(sorted) == |DataOf(sorted)|
    ensures Total(sorted[..i]) + |sorted[i].data| == Total(sorted[..i + 1]) <= Total(sorted)
    ensures DataOf(sorted)[Total(sorted[..i])..Total(sorted[..i + 1])] == sorted[i].data
  {
    var n := |sorted| - 1;
    var front := sorted[..n];
    assert sorted[..i + 1][..i] == sorted[..i];
    TotalIsLength(sorted);
    TotalIsLength(front);
    if i == n {
      assert sorted[..i + 1] == sorted;
    } else {
      DataIsCovered(front, i);
      assert front[..i] == sorted[..i] && front[..i + 1] == sorted[..i + 1];
    }
  }

  lemma {:induction false} TotalIsLength(files: seq<File>)
    ensures Total(files) == |DataOf(files)|
  {
    if files == [] {
    } else {
      TotalIsLength(files[..|files| - 1]);
    }
  }

  lemma {:induction false} OffsetsArePrefixSums(sorted: seq<File>, i: nat)
    requires i < |sorted| && DistinctPaths(sorted)
    ensures OffsetIn(Offsets(sorted), sorted[i].path) == Total(sorted[..i])
    ensures sorted[i].path in Offsets(sorted)
  {
    var n := |sorted| - 1;
    var front := sorted[..n];
    if i == n {
    } else {
      OffsetsArePrefixSums(front, i);
      assert front[..i] == sorted[..i];
      assert sorted[i].path != sorted[n].path;
    }
  }

  // ---- What the writer's checks establish

  lemma {:induction false} NoFault(lower: string -> string, sorted: seq<File>, i: nat, j: nat)
    requires i <= j < |sorted| && FirstFault(lower, sorted, i).None?
    ensures Faults(lower, sorted[j].path) == []
    ensures j > 0 ==> sorted[j - 1].path != sorted[j].path
    decreases j - i
  {
    if i == j {
    } else {
      NoFault(lower, sorted, i + 1, j);
    }
  }

  lemma AdjacentSuffices(sorted: seq<File>)
    requires Sorted(sorted, PathOf)
    requires forall j :: 0 < j < |sorted| ==> sorted[j - 1].path != sorted[j].path
    ensures DistinctPaths(sorted)
  {
    forall i, j | 0 <= i < j < |sorted| ensures sorted[i].path != sorted[j].path {
      if sorted[i].path == sorted[j].path {
        var k := i + 1;
        assert !Texts.Less(PathOf(sorted[k]), PathOf(sorted[i]));
        assert k < j ==> !Texts.Less(PathOf(sorted[j]), PathOf(sorted[k]));
        Texts.LessIsTotal(sorted[i].path, sorted[k].path);
      }
    }
  }

  /** An accepted list has clean paths, no two the same, sorted. */
  lemma AcceptedFiles(h: Hashes, files: seq<File>)
    requires FirstFault(h.lower, ByPath(files), 0).None?
    ensures DistinctPaths(ByPath(files)) && Sorted(ByPath(files), PathOf)
    ensures forall f <- files :: Faults(h.lower, f.path) == []
    ensures forall f <- ByPath(files) :: Faults(h.lower, f.path) == [] && f in files
  {
    var sorted := ByPath(files);
    SortSorts(files, PathOf);
    SameElements(sorted, files);
    forall j | 0 <= j < |sorted| ensures Faults(h.lower, sorted[j].path) == [] {
      NoFault(h.lower, sorted, 0, j);
    }
    forall j | 0 < j < |sorted| ensures sorted[j - 1].path != sorted[j].path {
      NoFault(h.lower, sorted, 0, j);
    }
    AdjacentSuffices(sorted);
    forall f | f in files ensures Faults(h.lower, f.path) == [] {
      assert f in sorted;
    }
  }

  // ---- The header and the digests

  lemma HeaderFields(tree: uint32, data: uint32, rest: Bytes)
    ensures var b := Header(tree, data) + rest;
      && ReadLe32(b, 0) == SIGNATURE
      && ReadLe32(b, 4) == 2
      && ReadLe32(b, 8) == tree
      && ReadLe32(b, 12) == data
      && ReadLe32(b, 16) == 0
      && ReadLe32(b, 20) == OTHER_MD5_BYTES
      && ReadLe32(b, 24) == 0
  {
    DigitsOf(tree);
    DigitsOf(data);
  }

  lemma Parts4(a: Bytes, b: Bytes, c: Bytes, d: Bytes)
    ensures var all := a + b + c + d;
      && all[..|a|] == a
      && all[|a|..|a| + |b|] == b
      && all[|a| + |b|..|a| + |b| + |c|] == c
      && all[|a| + |b| + |c|..] == d
  {
  }

  /** The fields a header announces. */
  ghost predicate Announces(pack: Bytes, tree: nat, data: nat) {
    && |pack| >= HEADER_BYTES && ReadLe32(pack, 0) == SIGNATURE && ReadLe32(pack, 4) == 2
    && ReadLe32(pack, 8) == tree && ReadLe32(pack, 12) == data && ReadLe32(pack, 16) == 0
    && ReadLe32(pack, 20) == OTHER_MD5_BYTES && ReadLe32(pack, 24) == 0
  }

  lemma HeaderAnnounces(tree: uint32, data: uint32, rest: Bytes, pack: Bytes)
    requires pack == Header(tree, data) + rest
    ensures Announces(pack, tree, data)
  {
    HeaderFields(tree, data, rest);
  }

  /** The sections behind the header, where their lengths put them. */
  ghost predicate Holds(h: Hashes, pack: Bytes, tree: Bytes, data: Bytes) {
    var start := HEADER_BYTES + |tree|;
    var end := start + |data|;
    && |pack| == end + OTHER_MD5_BYTES
    && pack[HEADER_BYTES..start] == tree && pack[start..end] == data
    && var sums := pack[end..end + 48];
    && sums[..16] == h.md5(tree) && sums[16..32] == h.md5([]) && sums[32..48] == h.md5(pack[..end + 32])
  }

  lemma PackHolds(h: Hashes, tree: Bytes, data: Bytes, pack: Bytes)
    requires |tree| < WORD && |data| < WORD && pack == Pack(h, tree, data)
    ensures Holds(h, pack, tree, data)
  {
    var header := Header(|tree|, |data|);
    var sums := h.md5(tree) + h.md5([]) + h.md5(Body(h, tree, data));
    PackIs(h, tree, data, header, sums, pack);
    Parts4(header, tree, data, sums);
    SumsAt(pack, HEADER_BYTES + |tree| + |data|, sums, h.md5(tree), h.md5([]), h.md5(Body(h, tree, data)));
  }

  /** The reader finds the boundaries the writer left, and all three digests agree. */
  lemma PackChecks(h: Hashes, tree: Bytes, data: Bytes)
    requires |tree| < WORD && |data| < WORD
    ensures var pack := Pack(h, tree, data); var dataStart := HEADER_BYTES + |tree|; var end := dataStart + |data|;
      && |pack| == end + OTHER_MD5_BYTES
      && Checked(h, pack) == Ok(Sections(dataStart, end, end, |pack|, |pack|))
      && pack[HEADER_BYTES..dataStart] == tree
      && pack[dataStart..end] == data
  {
    var header := Header(|tree|, |data|);
    var sums := h.md5(tree) + h.md5([]) + h.md5(Body(h, tree, data));
    var pack := Pack(h, tree, data);
    PackIs(h, tree, data, header, sums, pack);
    HeaderAnnounces(|tree|, |data|, tree + data + sums, pack);
    PackHolds(h, tree, data, pack);
    SectionsCheck(h, tree, data, pack);
  }

  /** What the header announces and the digests say is what the reader asks for. */
  lemma SectionsCheck(h: Hashes, tree: Bytes, data: Bytes, pack: Bytes)
    requires Announces(pack, |tree|, |data|) && Holds(h, pack, tree, data)
    ensures var end := HEADER_BYTES + |tree| + |data|;
      Checked(h, pack) == Ok(Sections(HEADER_BYTES + |tree|, end, end, |pack|, |pack|))
  {
    var end := HEADER_BYTES + |tree| + |data|;
    assert pack[end..end] == [];
  }

  lemma PackIs(h: Hashes, tree: Bytes, data: Bytes, header: Bytes, sums: Bytes, pack: Bytes)
    requires |tree| < WORD && |data| < WORD && header == Header(|tree|, |data|) && pack == Pack(h, tree, data)
    requires sums == h.md5(tree) + h.md5([]) + h.md5(Body(h, tree, data))
    ensures pack == header + tree + data + sums == header + (tree + data + sums)
    ensures pack[..|header| + |tree| + |data| + 32] == Body(h, tree, data)
  {
  }

  /** The three digests, where the checksum section starts at `end`. */
  lemma SumsAt(pack: Bytes, end: nat, sums: Bytes, a: Md5, b: Md5, c: Md5)
    requires end + 48 == |pack| && pack[end..] == sums && sums == a + b + c
    ensures pack[end..end + 48] == sums && sums[..16] == a && sums[16..32] == b && sums[32..48] == c
  {
  }

  // ---- The theorems

  /** The order entries come back in: sorted, then grouped by extension, then by directory. */
  function TreeOrder(files: seq<File>): (r: seq<File>)
    ensures multiset(r) == multiset(files)
  {
    FlattenGroupsTwo(ByPath(files), ExtOf, InDir);
    FlattenTwo(TreeOf(ByPath(files)))
  }

  lemma SliceOfData(pack: Bytes, start: nat, data: Bytes, lo: nat, n: nat)
    requires start + |data| <= |pack| && pack[start..start + |data|] == data
    requires lo + n <= |data|
    ensures Slice(pack, start + lo, start + lo + n) == data[lo..lo + n]
  {
    var part := pack[start + lo..start + lo + n];
    assert |part| == n;
    assert forall k :: 0 <= k < n ==> part[k] == pack[start..start + |data|][lo + k];
  }

  lemma FilePlaced(src: Source, sorted: seq<File>, f: File)
    requires DistinctPaths(sorted) && Total(sorted) < WORD && f in sorted
    requires src.dataStart + |DataOf(sorted)| <= |src.pack|
    requires src.pack[src.dataStart..src.dataStart + |DataOf(sorted)|] == DataOf(sorted)
    ensures Placed(src, Offsets(sorted), f)
  {
    var i :| 0 <= i < |sorted| && sorted[i] == f;
    PlacedAt(src, sorted, i);
  }

  /** The file's slice lies in the data section and holds its data. */
  lemma CutFits(sorted: seq<File>, i: nat, offset: nat)
    requires DistinctPaths(sorted) && Total(sorted) < WORD && i < |sorted|
    requires offset == OffsetIn(Offsets(sorted), sorted[i].path)
    ensures offset < WORD && |sorted[i].data| < WORD && offset + |sorted[i].data| <= |DataOf(sorted)|
    ensures DataOf(sorted)[offset..offset + |sorted[i].data|] == sorted[i].data
  {
    DataIsCovered(sorted, i);
    OffsetsArePrefixSums(sorted, i);
  }

  lemma PlacedAt(src: Source, sorted: seq<File>, i: nat)
    requires DistinctPaths(sorted) && Total(sorted) < WORD && i < |sorted|
    requires src.dataStart + |DataOf(sorted)| <= |src.pack|
    requires src.pack[src.dataStart..src.dataStart + |DataOf(sorted)|] == DataOf(sorted)
    ensures Placed(src, Offsets(sorted), sorted[i])
  {
    var offset := OffsetIn(Offsets(sorted), sorted[i].path);
    CutFits(sorted, i, offset);
    PlacedInData(src, Offsets(sorted), sorted[i], offset, DataOf(sorted));
  }

  lemma PlacedInData(src: Source, offsets: map<string, nat>, f: File, offset: nat, data: Bytes)
    requires offset == OffsetIn(offsets, f.path) && offset < WORD && |f.data| < WORD
    requires offset + |f.data| <= |data| && data[offset..offset + |f.data|] == f.data
    requires src.dataStart + |data| <= |src.pack| && src.pack[src.dataStart..src.dataStart + |data|] == data
    ensures Placed(src, offsets, f)
  {
    SliceOfData(src.pack, src.dataStart, data, offset, |f.data|);
  }

  lemma EachPlaced(src: Source, sorted: seq<File>)
    requires DistinctPaths(sorted) && Total(sorted) < WORD
    requires src.dataStart + |DataOf(sorted)| <= |src.pack|
    requires src.pack[src.dataStart..src.dataStart + |DataOf(sorted)|] == DataOf(sorted)
    ensures forall f <- sorted :: Placed(src, Offsets(sorted), f)
  {
    forall f | f in sorted ensures Placed(src, Offsets(sorted), f) {
      FilePlaced(src, sorted, f);
    }
  }

  lemma AllPlaced(h: Hashes, sorted: seq<File>, pack: Bytes, tree: Bytes)
    requires DistinctPaths(sorted) && Total(sorted) < WORD && |tree| < WORD
    requires pack == Pack(h, tree, DataOf(sorted))
    ensures forall f <- sorted :: Placed(Source(h, pack, HEADER_BYTES + |tree|), Offsets(sorted), f)
  {
    TotalIsLength(sorted);
    PackChecks(h, tree, DataOf(sorted));
    EachPlaced(Source(h, pack, HEADER_BYTES + |tree|), sorted);
  }

  lemma TreeLevels(src: Source, offsets: map<string, nat>, sorted: seq<File>)
    requires forall f <- sorted ::
      Placed(src, offsets, f) && Faults(src.h.lower, f.path) == [] && '\0' !in f.path
    ensures ExtLevel(src, offsets, TreeOf(sorted))
  {
    var exts := TreeOf(sorted);
    FlattenGroupsTwo(sorted, ExtOf, InDir);
    GroupByTwoIsKeyed(sorted, ExtOf, InDir);
    GroupsAreInhabited(sorted);
    forall i | 0 <= i < |exts| ensures Stringy(exts[i].0) && DirLevel(src, offsets, exts[i].0, exts[i].1) {
      forall j | 0 <= j < |exts[i].1|
        ensures Stringy(exts[i].0) && Stringy(exts[i].1[j].0)
        ensures Level(src, offsets, exts[i].0, exts[i].1[j].0, exts[i].1[j].1)
      {
        var group := exts[i].1[j];
        assert KeyedBy(group, exts[i].0, ExtOf, InDir);
        forall f | f in group.1 ensures f in sorted {
          InFlattenTwo(exts, i, j, f);
          assert f in multiset(FlattenTwo(exts));
        }
        forall f | f in group.1
          ensures '\0' !in Split(f.path).name && Stringy(Split(f.path).dir) && Stringy(Split(f.path).ext)
        {
          PartsAreStrings(src.h.lower, f.path);
        }
        assert group.1[0] in group.1;
      }
    }
  }

  lemma GroupsAreInhabited(sorted: seq<File>)
    ensures forall i :: 0 <= i < |TreeOf(sorted)| ==> TreeOf(sorted)[i].1 != []
  {
    var groups := GroupBy(sorted, ExtOf);
    GroupEachLength(groups, InDir);
    forall i | 0 <= i < |groups| ensures TreeOf(sorted)[i].1 != [] {
      GroupEachAt(groups, InDir, i);
      GroupsAreKeyed(sorted, ExtOf, i);
    }
  }

  lemma {:induction false} InFlatten(dirs: Record<seq<File>>, j: nat, f: File)
    requires j < |dirs| && f in dirs[j].1
    ensures f in Flatten(dirs)
  {
    if j == 0 {
    } else {
      InFlatten(dirs[1..], j - 1, f);
    }
  }

  lemma {:induction false} InFlattenTwo(exts: Nested<File>, i: nat, j: nat, f: File)
    requires i < |exts| && j < |exts[i].1| && f in exts[i].1[j].1
    ensures f in FlattenTwo(exts)
  {
    if i > 0 {
      InFlattenTwo(exts[1..], i - 1, j, f);
    } else {
      InFlatten(exts[0].1, j, f);
    }
  }

  /** For every accepted list of readable paths: each file once, in tree order, its bytes and CRC intact. */
  lemma ReadsWritten(h: Hashes, files: seq<File>)
    requires Written(h, files).Ok?
    requires forall f <- files :: Readable(f.path)
    ensures Read(h, Written(h, files).value) == Ok(EntriesOf(h, TreeOrder(files)))
  {
    var sorted := ByPath(files);
    var tree := TreeBytes(h, sorted);
    var pack := Written(h, files).value;
    AcceptedFiles(h, files);
    AllPlaced(h, sorted, pack, tree);
    TreeReads(h, sorted, pack, tree);
    TotalIsLength(sorted);
    ReadIs(h, tree, DataOf(sorted), EntriesOf(h, TreeOrder(files)), []);
  }

  lemma ReadIs(h: Hashes, tree: Bytes, data: Bytes, entries: seq<Entry>, rest: Bytes)
    requires |tree| < WORD && |data| < WORD
    requires ReadExts(Source(h, Pack(h, tree, data), HEADER_BYTES + |tree|), tree) == Ok((entries, rest))
    ensures Read(h, Pack(h, tree, data)) == Ok(entries)
  {
    PackChecks(h, tree, data);
  }

  lemma TreeReads(h: Hashes, sorted: seq<File>, pack: Bytes, tree: Bytes)
    requires tree == TreeBytes(h, sorted)
    requires forall f <- sorted ::
      && Placed(Source(h, pack, HEADER_BYTES + |tree|), Offsets(sorted), f)
      && Faults(h.lower, f.path) == [] && Readable(f.path)
    ensures ReadExts(Source(h, pack, HEADER_BYTES + |tree|), tree)
         == Ok((EntriesOf(h, FlattenTwo(TreeOf(sorted))), []))
  {
    var src := Source(h, pack, HEADER_BYTES + |tree|);
    TreeLevels(src, Offsets(sorted), sorted);
    FlattenGroupsTwo(sorted, ExtOf, InDir);
    SameElements(FlattenTwo(TreeOf(sorted)), sorted);
    ExtsRead(src, Offsets(sorted), TreeOf(sorted), []);
    assert tree + [] == tree;
  }

  function Original(h: Hashes, f: File): Entry {
    Entry(f.path, h.crc32(f.data), f.data)
  }

  function Originals(h: Hashes, files: seq<File>): (r: seq<Entry>)
    ensures |r| == |files|
    ensures forall i :: 0 <= i < |files| ==> r[i] == Original(h, files[i])
  {
    seq(|files|, i requires 0 <= i < |files| => Original(h, files[i]))
  }

  lemma ReadableRoundTrip(h: Hashes, files: seq<File>)
    requires Written(h, files).Ok?
    requires forall f <- files :: Readable(f.path)
    ensures Read(h, Written(h, files).value) == Ok(Originals(h, TreeOrder(files)))
       <==> forall f <- files :: Whole(f.path)
  {
    ReadsWritten(h, files);
    var order := TreeOrder(files);
    SameElements(order, files);
    EntriesAreOriginals(h, order);
  }

  /** A path with a NUL in it never comes back, whatever else is packed with it. */
  lemma NulIsNotReadBack(h: Hashes, files: seq<File>, f: File)
    requires Written(h, files).Ok? && f in files && '\0' in f.path
    ensures var read := Read(h, Written(h, files).value);
      && (read.Ok? ==> forall e <- read.value :: e.path != f.path)
      && read != Ok(Originals(h, TreeOrder(files)))
  {
    var read := Read(h, Written(h, files).value);
    if read.Ok? {
      ReadPathsAreNulFree(h, Written(h, files).value);
      SameElements(TreeOrder(files), files);
      var i :| 0 <= i < |TreeOrder(files)| && TreeOrder(files)[i] == f;
      assert Originals(h, TreeOrder(files))[i].path == f.path;
      assert Originals(h, TreeOrder(files))[i] in Originals(h, TreeOrder(files));
    }
  }

  lemma EntriesAreOriginals(h: Hashes, files: seq<File>)
    ensures EntriesOf(h, files) == Originals(h, files) <==> forall f <- files :: Whole(f.path)
  {
    forall f | f in files ensures EntryOf(h, f) == Original(h, f) <==> Whole(f.path) {
      RejoinsIffWhole(f.path);
    }
    if EntriesOf(h, files) == Originals(h, files) {
      forall f | f in files ensures Whole(f.path) {
        var i :| 0 <= i < |files| && files[i] == f;
        assert EntriesOf(h, files)[i] == Originals(h, files)[i];
      }
    }
  }

  // ---- Order does not matter

  function PathsOf(files: seq<File>): (r: seq<string>)
    ensures |r| == |files|
    ensures forall i :: 0 <= i < |r| ==> r[i] == files[i].path
  {
    seq(|files|, i requires 0 <= i < |files| => files[i].path)
  }

  lemma {:induction false} SamePaths(a: seq<File>, b: seq<File>)
    requires multiset(a) == multiset(b)
    ensures multiset(PathsOf(a)) == multiset(PathsOf(b))
  {
    SameElements(a, b);
    if a == [] {
    } else {
      assert a[0] in b;
      var i :| 0 <= i < |b| && b[i] == a[0];
      TakeOut(a, 0);
      TakeOut(b, i);
      SamePaths(Lists.Omit(a, 0), Lists.Omit(b, i));
    }
  }

  lemma TakeOut(b: seq<File>, i: nat)
    requires i < |b|
    ensures |Lists.Omit(b, i)| == |b| - 1 && multiset(Lists.Omit(b, i)) == multiset(b) - multiset{b[i]}
    ensures multiset(PathsOf(b)) == multiset(PathsOf(Lists.Omit(b, i))) + multiset{b[i].path}
  {
    Lists.TakenOut(b, i);
    OmitPath(b, i);
    Lists.TakenOut(PathsOf(b), i);
    assert PathsOf(b)[i] in multiset(PathsOf(b));
  }

  lemma OmitPath(b: seq<File>, i: nat)
    requires i < |b|
    ensures PathsOf(Lists.Omit(b, i)) == Lists.Omit(PathsOf(b), i)
  {
  }

  /** Sorted, two arrangements of the same files have the same paths in the same order. */
  lemma SamePathOrder(files: seq<File>, again: seq<File>)
    requires multiset(files) == multiset(again)
    ensures PathsOf(ByPath(files)) == PathsOf(ByPath(again))
  {
    var a, b := PathsOf(ByPath(files)), PathsOf(ByPath(again));
    SamePaths(ByPath(files), ByPath(again));
    SortSorts(files, PathOf);
    SortSorts(again, PathOf);
    SortedIsUnique(a, b, (x: string) => x);
  }

  lemma {:induction false} SameFaults(lower: string -> string, a: seq<File>, b: seq<File>, i: nat)
    requires PathsOf(a) == PathsOf(b) && i <= |a| && |a| == |b|
    ensures FirstFault(lower, a, i) == FirstFault(lower, b, i)
    decreases |a| - i
  {
    if i == |a| {
    } else {
      assert PathsOf(a)[i] == PathsOf(b)[i] && (i > 0 ==> PathsOf(a)[i - 1] == PathsOf(b)[i - 1]);
      SameFaults(lower, a, b, i + 1);
    }
  }

  /** The same files in any order give the same bytes, or the same complaint. */
  lemma WritesCanonically(h: Hashes, files: seq<File>, again: seq<File>)
    requires multiset(files) == multiset(again)
    ensures Written(h, files) == Written(h, again)
  {
    SamePathOrder(files, again);
    SameElements(ByPath(files), ByPath(again));
    SameFaults(h.lower, ByPath(files), ByPath(again), 0);
    if FirstFault(h.lower, ByPath(files), 0).None? {
      AcceptedFiles(h, files);
      DistinctIsInjective(ByPath(files));
      SameElements(ByPath(files), files);
      SortIsCanonical(files, again, PathOf);
    }
  }

  function FilesOf(entries: seq<Entry>): seq<File> {
    seq(|entries|, i requires 0 <= i < |entries| => File(entries[i].path, entries[i].data))
  }

  /** What is read from a written pack writes that pack again, byte for byte. */
  lemma RewritesRead(h: Hashes, files: seq<File>)
    requires Written(h, files).Ok?
    requires forall f <- files :: Readable(f.path) && Whole(f.path)
    ensures var pack := Written(h, files).value; var entries := Read(h, pack);
      entries.Ok? && Written(h, FilesOf(entries.value)) == Ok(pack)
  {
    ReadableRoundTrip(h, files);
    FilesOfOriginals(h, TreeOrder(files));
    WritesCanonically(h, files, TreeOrder(files));
  }

  lemma FilesOfOriginals(h: Hashes, files: seq<File>)
    ensures FilesOf(Originals(h, files)) == files
  {
  }

  lemma DistinctIsInjective(files: seq<File>)
    requires DistinctPaths(files)
    ensures KeyIsInjective(files, PathOf)
  {
  }

  /** What the writer accepts, and nothing else: clean paths, all different, sizes a word can hold. */
  lemma AcceptsIff(h: Hashes, files: seq<File>)
    ensures Written(h, files).Ok?
       <==> && (forall f <- files :: Faults(h.lower, f.path) == [])
            && DistinctPaths(ByPath(files))
            && Total(ByPath(files)) < WORD
            && |TreeBytes(h, ByPath(files))| < WORD
  {
    var sorted := ByPath(files);
    SameElements(sorted, files);
    if FirstFault(h.lower, sorted, 0).None? {
      AcceptedFiles(h, files);
    } else if (forall f <- files :: Faults(h.lower, f.path) == []) && DistinctPaths(sorted) {
      NoFaultFrom(h.lower, sorted, 0);
    }
  }

  lemma {:induction false} NoFaultFrom(lower: string -> string, sorted: seq<File>, i: nat)
    requires i <= |sorted|
    requires forall f <- sorted :: Faults(lower, f.path) == []
    requires DistinctPaths(sorted)
    ensures FirstFault(lower, sorted, i).None?
    decreases |sorted| - i
  {
    if i == |sorted| {
    } else {
      NoFaultFrom(lower, sorted, i + 1);
    }
  }
}

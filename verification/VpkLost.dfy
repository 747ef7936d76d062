/** Exactly which of the lists the writer accepts come back as they were (hud/src/vpk.ts). */
module VpkLost {
  import opened Wrappers
  import opened Octets
  import opened Digests
  import opened Ordered
  import opened Sorting
  import opened VpkPath
  import opened VpkFormat
  import opened VpkRoundTrip
  import opened VpkCount
  import Lists
  import opened Texts
  import Utf8

  // ---- Behind an empty name

  lemma {:induction false} FirstNameless(files: seq<File>) returns (k: nat)
    requires !Named(files)
    ensures k < |files| && Split(files[k].path).name == "" && Named(files[..k])
  {
    if Split(files[0].path).name == "" {
      k := 0;
    } else {
      assert files == [files[0]] + files[1..];
      var j := FirstNameless(files[1..]);
      k := j + 1;
      assert files[..k] == [files[0]] + files[1..][..j];
    }
  }

  /** A file without a name is written like the end of the names before it, with an entry and more names behind. */
  lemma {:induction false} NamesCut(h: Hashes, offsets: map<string, nat>, files: seq<File>, k: nat)
    requires k < |files| && Split(files[k].path).name == ""
    ensures NamesBytes(h, offsets, files)
         == NamesBytes(h, offsets, files[..k])
            + (EntryBytes(h, files[k], OffsetIn(offsets, files[k].path)) + NamesBytes(h, offsets, files[k + 1..]))
  {
    var entry := EntryBytes(h, files[k], OffsetIn(offsets, files[k].path));
    var behind := NamesBytes(h, offsets, files[k + 1..]);
    if k == 0 {
      Lists.Regroup(CString(""), entry, behind);
    } else {
      assert files[..k][0] == files[0] && files[..k][1..] == files[1..][..k - 1] && files[1..][k..] == files[k + 1..];
      NamesCut(h, offsets, files[1..], k - 1);
      var first := CString(Split(files[0].path).name) + EntryBytes(h, files[0], OffsetIn(offsets, files[0].path));
      Lists.Regroup(first, NamesBytes(h, offsets, files[1..][..k - 1]), entry + behind);
    }
  }

  lemma NamesReadUpTo(src: Source, offsets: map<string, nat>, ext: string, dir: string, files: seq<File>, rest: Bytes,
                      k: nat, entry: Bytes, names: Bytes)
    requires k < |files| && Level(src, offsets, ext, dir, files) && Split(files[k].path).name == "" && Named(files[..k])
    requires entry == EntryBytes(src.h, files[k], OffsetIn(offsets, files[k].path))
    requires names == NamesBytes(src.h, offsets, files[k + 1..])
    ensures ReadNames(src, ext, dir, NamesBytes(src.h, offsets, files) + rest)
         == Ok((EntriesOf(src.h, files[..k]), entry + (names + rest)))
  {
    var before := NamesBytes(src.h, offsets, files[..k]);
    NamesCut(src.h, offsets, files, k);
    Lists.Regroup(before, entry + names, rest);
    Lists.Regroup(entry, names, rest);
    NamesRead(src, offsets, ext, dir, files[..k], entry + (names + rest));
  }

  /** In front of its entry, the blocks an entry can still end in are those of the files behind it. */
  lemma BlocksBehind(h: Hashes, offsets: map<string, nat>, entry: Bytes, files: seq<File>, rest: Bytes,
                     blocks: set<nat>)
    returns (more: set<nat>)
    requires |entry| == ENTRY_BYTES && Covered(rest, blocks)
    ensures var end := entry + (NamesBytes(h, offsets, files) + rest);
      Covered(end, more) && |Ahead(more, |end|)| <= |files| + |blocks|
  {
    var behind := NamesBytes(h, offsets, files) + rest;
    var fewer := NamesBlocks(h, offsets, files, rest, blocks);
    more := fewer + {|entry + behind|};
    CoveredByBlock(entry, behind, fewer);
    OwnBlockIsBehind(fewer, |entry + behind|);
  }

  /** The reader stops short of the entry without a name, which is then no entry any more. */
  lemma NamesShort(src: Source, offsets: map<string, nat>, ext: string, dir: string, files: seq<File>, rest: Bytes,
                   blocks: set<nat>)
    returns (more: set<nat>)
    requires Level(src, offsets, ext, dir, files) && !Named(files) && Covered(rest, blocks)
    ensures var read := ReadNames(src, ext, dir, NamesBytes(src.h, offsets, files) + rest);
      && read.Ok? && Covered(read.value.1, more)
      && |read.value.0| + |Ahead(more, |read.value.1|)| < |files| + |blocks|
  {
    var k := FirstNameless(files);
    var names := NamesBytes(src.h, offsets, files[k + 1..]);
    var entry := EntryBytes(src.h, files[k], OffsetIn(offsets, files[k].path));
    NamesReadUpTo(src, offsets, ext, dir, files, rest, k, entry, names);
    more := BlocksBehind(src.h, offsets, entry, files[k + 1..], rest, blocks);
  }

  lemma ShortHere(src: Source, ext: string, dir: string, b: Bytes, behind: Bytes, more: set<nat>, n: nat)
    requires TakeString(b) == Some((dir, behind)) && dir != ""
    requires var read := ReadNames(src, ext, dir, behind);
      read.Ok? ==> Covered(read.value.1, more) && |read.value.0| + |Ahead(more, |read.value.1|)| < n
    ensures var read := ReadDirs(src, ext, b);
      read.Ok? ==> Covered(read.value.1, more) && |read.value.0| + |Ahead(more, |read.value.1|)| < n
  {
    var read := ReadNames(src, ext, dir, behind);
    if read.Ok? && ReadDirs(src, ext, read.value.1).Ok? {
      DirsUse(src, ext, read.value.1, more);
    }
  }

  lemma ShortLater(src: Source, ext: string, dir: string, b: Bytes, behind: Bytes, entries: seq<Entry>, next: Bytes,
                   more: set<nat>, n: nat)
    requires TakeString(b) == Some((dir, behind)) && dir != ""
    requires ReadNames(src, ext, dir, behind) == Ok((entries, next))
    requires var read := ReadDirs(src, ext, next);
      read.Ok? ==> Covered(read.value.1, more) && |read.value.0| + |Ahead(more, |read.value.1|)| < n
    ensures var read := ReadDirs(src, ext, b);
      read.Ok? ==> Covered(read.value.1, more) && |read.value.0| + |Ahead(more, |read.value.1|)| < |entries| + n
  {
  }

  lemma {:induction false} DirsShort(src: Source, offsets: map<string, nat>, ext: string, dirs: Record<seq<File>>,
                                     rest: Bytes, blocks: set<nat>)
    returns (more: set<nat>)
    requires DirLevel(src, offsets, ext, dirs) && !Named(Flatten(dirs)) && Covered(rest, blocks)
    ensures var read := ReadDirs(src, ext, DirsBytes(src.h, offsets, dirs) + rest);
      read.Ok? ==>
        && Covered(read.value.1, more)
        && |read.value.0| + |Ahead(more, |read.value.1|)| < |Flatten(dirs)| + |blocks|
  {
    var (dir, files) := dirs[0];
    var names := NamesBytes(src.h, offsets, files);
    var behind := DirsBytes(src.h, offsets, dirs[1..]) + rest;
    var b := CString(dir) + (names + behind);
    Lists.RegroupFour(CString(dir), names, DirsBytes(src.h, offsets, dirs[1..]), rest);
    TakesString(dir, names + behind);
    NamedParts(files, Flatten(dirs[1..]));
    if Named(files) {
      NamesRead(src, offsets, ext, dir, files, behind);
      more := DirsShort(src, offsets, ext, dirs[1..], rest, blocks);
      ShortLater(src, ext, dir, b, names + behind, EntriesOf(src.h, files), behind, more,
                 |Flatten(dirs[1..])| + |blocks|);
    } else {
      var fewer := DirsBlocks(src.h, offsets, dirs[1..], rest, blocks);
      more := NamesShort(src, offsets, ext, dir, files, behind, fewer);
      ShortHere(src, ext, dir, b, names + behind, more, |files| + |fewer|);
    }
  }

  lemma ShortExtHere(src: Source, ext: string, b: Bytes, behind: Bytes, more: set<nat>, n: nat)
    requires TakeString(b) == Some((ext, behind)) && ext != ""
    requires var read := ReadDirs(src, ext, behind);
      read.Ok? ==> Covered(read.value.1, more) && |read.value.0| + |Ahead(more, |read.value.1|)| < n
    ensures var read := ReadExts(src, b); read.Ok? ==> |read.value.0| < n
  {
    var read := ReadDirs(src, ext, behind);
    if read.Ok? && ReadExts(src, read.value.1).Ok? {
      ExtsUse(src, read.value.1, more);
    }
  }

  lemma ShortExtLater(src: Source, ext: string, b: Bytes, behind: Bytes, entries: seq<Entry>, next: Bytes, n: nat)
    requires TakeString(b) == Some((ext, behind)) && ext != ""
    requires ReadDirs(src, ext, behind) == Ok((entries, next))
    requires var read := ReadExts(src, next); read.Ok? ==> |read.value.0| < n
    ensures var read := ReadExts(src, b); read.Ok? ==> |read.value.0| < |entries| + n
  {
  }

  lemma {:induction false} ExtsShort(src: Source, offsets: map<string, nat>, exts: Nested<File>)
    requires ExtLevel(src, offsets, exts) && !Named(FlattenTwo(exts))
    ensures var read := ReadExts(src, ExtsBytes(src.h, offsets, exts));
      read.Ok? ==> |read.value.0| < |FlattenTwo(exts)|
  {
    var (ext, groups) := exts[0];
    var dirs, behind := DirsBytes(src.h, offsets, groups), ExtsBytes(src.h, offsets, exts[1..]);
    var b := CString(ext) + (dirs + behind);
    Lists.Regroup(CString(ext), dirs, behind);
    TakesString(ext, dirs + behind);
    NamedParts(Flatten(groups), FlattenTwo(exts[1..]));
    if Named(Flatten(groups)) {
      DirsRead(src, offsets, ext, groups, behind);
      ExtsShort(src, offsets, exts[1..]);
      ShortExtLater(src, ext, b, dirs + behind, EntriesOf(src.h, Flatten(groups)), behind, |FlattenTwo(exts[1..])|);
    } else {
      var fewer := ExtsBlocks(src.h, offsets, exts[1..]);
      var more := DirsShort(src, offsets, ext, groups, behind, fewer);
      ShortExtHere(src, ext, b, dirs + behind, more, |Flatten(groups)| + |fewer|);
    }
  }

  lemma ReadIsShort(h: Hashes, tree: Bytes, data: Bytes, n: nat)
    requires |tree| < WORD && |data| < WORD
    requires var r := ReadExts(Source(h, Pack(h, tree, data), HEADER_BYTES + |tree|), tree);
      r.Ok? ==> |r.value.0| < n
    ensures var read := Read(h, Pack(h, tree, data)); read.Ok? ==> |read.value| < n
  {
    PackChecks(h, tree, data);
  }

  /**
   * A list with a file whose name is empty, whatever is packed with it and whatever the checksums: the reader refuses
   * the pack or finds fewer files in it than it was written from.
   */
  lemma NamelessIsLost(h: Hashes, files: seq<File>, f: File)
    requires Written(h, files).Ok? && f in files && Split(f.path).name == ""
    requires forall g <- files :: '\0' !in g.path
    ensures var read := Read(h, Written(h, files).value); read.Ok? ==> |read.value| < |files|
  {
    var sorted := ByPath(files);
    var tree, data := TreeBytes(h, sorted), DataOf(sorted);
    var src := Source(h, Pack(h, tree, data), HEADER_BYTES + |tree|);
    AcceptedFiles(h, files);
    AllPlaced(h, sorted, src.pack, tree);
    TreeLevels(src, Offsets(sorted), sorted);
    SameElements(TreeOrder(files), files);
    assert f in TreeOrder(files);
    ExtsShort(src, Offsets(sorted), TreeOf(sorted));
    TotalIsLength(sorted);
    ReadIsShort(h, tree, data, |files|);
  }

  /**
   * The round trip, exactly: the files of an accepted list come back as they were if and only if each of them has a
   * name, no NUL in its path, no final dot or dot and blank, and no blank directory.
   */
  lemma RoundTripIff(h: Hashes, files: seq<File>)
    requires Written(h, files).Ok?
    ensures Read(h, Written(h, files).value) == Ok(Originals(h, TreeOrder(files)))
       <==> forall f <- files :: '\0' !in f.path && Split(f.path).name != "" && Whole(f.path)
  {
    if f :| f in files && '\0' in f.path {
      NulIsNotReadBack(h, files, f);
    } else if f :| f in files && Split(f.path).name == "" {
      NamelessIsLost(h, files, f);
      SameElements(TreeOrder(files), files);
    } else {
      ReadableRoundTrip(h, files);
    }
  }

  // ---- The pack of one file

  lemma OneTree(f: File, p: Parts)
    requires Split(f.path) == p
    ensures TreeOf([f]) == [(p.ext, [(p.dir, [f])])]
  {
    assert With([f], ExtOf, p.ext) == [f] && Without([f], ExtOf, p.ext) == [];
    assert With([f], InDir, p.dir) == [f] && Without([f], InDir, p.dir) == [];
    assert GroupBy([f], ExtOf) == [(p.ext, [f])];
    assert GroupBy([f], InDir) == [(p.dir, [f])];
    assert GroupEach(GroupBy([f], ExtOf)[1..], InDir) == [];
  }

  lemma OneName(h: Hashes, offsets: map<string, nat>, f: File)
    ensures NamesBytes(h, offsets, [f])
         == CString(Split(f.path).name) + EntryBytes(h, f, OffsetIn(offsets, f.path)) + [0]
  {
    assert NamesBytes(h, offsets, [f][1..]) == [0];
  }

  lemma OneDir(h: Hashes, offsets: map<string, nat>, dir: string, files: seq<File>)
    ensures DirsBytes(h, offsets, [(dir, files)]) == CString(dir) + NamesBytes(h, offsets, files) + [0]
  {
    assert DirsBytes(h, offsets, [(dir, files)][1..]) == [0];
  }

  lemma OneExt(h: Hashes, offsets: map<string, nat>, ext: string, dirs: Record<seq<File>>)
    ensures ExtsBytes(h, offsets, [(ext, dirs)]) == CString(ext) + DirsBytes(h, offsets, dirs) + [0]
  {
    assert ExtsBytes(h, offsets, [(ext, dirs)][1..]) == [0];
  }

  lemma ThreeEnds(a: Bytes, b: Bytes, c: Bytes, d: Bytes)
    ensures a + (b + (c + d + [0]) + [0]) + [0] == a + (b + (c + (d + [0, 0, 0])))
  {
  }

  lemma OneTreeBytes(h: Hashes, offsets: map<string, nat>, f: File, p: Parts)
    requires Split(f.path) == p && OffsetIn(offsets, f.path) == 0
    ensures ExtsBytes(h, offsets, [(p.ext, [(p.dir, [f])])])
         == CString(p.ext) + (CString(p.dir) + (CString(p.name) + (EntryBytes(h, f, 0) + [0, 0, 0])))
  {
    OneName(h, offsets, f);
    OneDir(h, offsets, p.dir, [f]);
    OneExt(h, offsets, p.ext, [(p.dir, [f])]);
    ThreeEnds(CString(p.ext), CString(p.dir), CString(p.name), EntryBytes(h, f, 0));
  }

  lemma OneFile(h: Hashes, f: File, p: Parts)
    requires Split(f.path) == p && Faults(h.lower, f.path) == []
    ensures ByPath([f]) == [f] && FirstFault(h.lower, [f], 0).None?
    ensures TreeBytes(h, [f])
         == CString(p.ext) + (CString(p.dir) + (CString(p.name) + (EntryBytes(h, f, 0) + [0, 0, 0])))
  {
    assert [f][..0] == [] && Sort([f][..0], PathOf) == [];
    assert Offsets([f]) == map[f.path := 0];
    OneTree(f, p);
    OneTreeBytes(h, Offsets([f]), f, p);
  }

  lemma OneFileData(f: File)
    ensures Total([f]) == |f.data| && DataOf([f]) == f.data
  {
    assert [f][..0] == [];
  }

  lemma OneFileWritten(h: Hashes, f: File, p: Parts)
    requires Split(f.path) == p && Faults(h.lower, f.path) == []
    requires |f.data| < WORD && |TreeBytes(h, [f])| < WORD
    ensures Written(h, [f]) == Ok(Pack(h, TreeBytes(h, [f]), f.data))
  {
    OneFile(h, f, p);
    OneFileData(f);
  }

  // ---- One file, and some that are lost

  /** One file alone comes back exactly when its path has a name, no NUL, and is whole. */
  lemma LoneFileComesBackIff(h: Hashes, f: File)
    requires Written(h, [f]).Ok?
    ensures Read(h, Written(h, [f]).value) == Ok([Original(h, f)])
       <==> '\0' !in f.path && Split(f.path).name != "" && Whole(f.path)
  {
    OneInOrder(h, f);
    RoundTripIff(h, [f]);
    assert f in [f];
  }

  lemma OneInOrder(h: Hashes, f: File)
    ensures Originals(h, TreeOrder([f])) == [Original(h, f)]
  {
    SameElements(TreeOrder([f]), [f]);
    assert TreeOrder([f])[0] in TreeOrder([f]);
  }

  lemma {:induction false} EncodeBound(s: string)
    ensures |Utf8.Encode(s)| <= 4 * |s|
  {
    if s == "" {
    } else {
      EncodeBound(s[1..]);
    }
  }

  /** A clean path of modest length is accepted. */
  lemma OneFileAccepted(h: Hashes, f: File, p: Parts)
    requires Split(f.path) == p && Faults(h.lower, f.path) == [] && f.data == []
    requires |p.dir| < 100 && |p.name| < 100 && |p.ext| < 100
    ensures Written(h, [f]).Ok?
  {
    EncodeBound(p.dir);
    EncodeBound(p.name);
    EncodeBound(p.ext);
    OneFile(h, f, p);
    OneFileWritten(h, f, p);
  }

  /** The writer takes the file, and the reader does not give it back. */
  ghost predicate TakenAndLost(h: Hashes, path: string) {
    && Written(h, [File(path, [])]).Ok?
    && Read(h, Written(h, [File(path, [])]).value) != Ok([Original(h, File(path, []))])
  }

  lemma LostFrom(h: Hashes, path: string, p: Parts)
    requires Split(path) == p && Faults(h.lower, path) == []
    requires |p.dir| < 100 && |p.name| < 100 && |p.ext| < 100
    requires '\0' in path || p.name == "" || !Whole(path)
    ensures TakenAndLost(h, path)
  {
    OneFileAccepted(h, File(path, []), p);
    LoneFileComesBackIff(h, File(path, []));
  }

  lemma FinalDotIsLost(h: Hashes, path: string)
    requires path == "a." && h.lower(path) == path
    ensures TakenAndLost(h, path)
  {
    PartsAreClean(h.lower, path, [path]);
    FileAlone(path);
    CutAtDot(path, "a", "");
    LostFrom(h, path, Parts(" ", "a", " "));
  }

  lemma BlankDirectoryIsLost(h: Hashes, path: string)
    requires path == " /x" && h.lower(path) == path
    ensures TakenAndLost(h, path)
  {
    TwoParts(" ", "x");
    PartsAreClean(h.lower, path, [" ", "x"]);
    FileInDir(path, " ", "x");
    CutWithoutDot(path);
    LostFrom(h, path, Parts(" ", "x", " "));
  }

  lemma LeadingDotIsLost(h: Hashes, path: string)
    requires path == "d/.x" && h.lower(path) == path
    ensures TakenAndLost(h, path)
  {
    TwoParts("d", ".x");
    PartsAreClean(h.lower, path, ["d", ".x"]);
    FileInDir(path, "d", ".x");
    CutAtDot(path, "", "x");
    LostFrom(h, path, Parts("d", "", "x"));
  }

  lemma NulIsLost(h: Hashes, path: string)
    requires path == "a\0" && h.lower(path) == path
    ensures TakenAndLost(h, path)
  {
    assert path[1] == '\0';
    PartsAreClean(h.lower, path, [path]);
    FileAlone(path);
    CutWithoutDot(path);
    LostFrom(h, path, Parts(" ", path, " "));
  }

  lemma TwoParts(dir: string, file: string)
    ensures Join([dir, file], '/') == dir + "/" + file
  {
    assert [dir, file][1..] == [file];
  }
}

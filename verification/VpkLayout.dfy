/** The arithmetic of a pack, and what an accepted buffer promises (hud/src/vpk.ts). */
module VpkLayout {
  import opened Octets
  import opened Digests
  import opened Lists
  import opened Ordered
  import opened Sorting
  import opened VpkPath
  import opened VpkFormat
  import opened VpkRoundTrip
  import Utf8

  // ---- Lengths in closed form

  function NameCost(f: File): nat {
    |Utf8.Encode(Split(f.path).name)| + 1 + ENTRY_BYTES
  }

  function FileCost(files: seq<File>): nat {
    if files == [] then 0 else NameCost(files[0]) + FileCost(files[1..])
  }

  /** A directory costs its name, the name's NUL and the empty name that ends it. */
  function DirCost(dirs: Record<seq<File>>): nat {
    if dirs == [] then 0 else |Utf8.Encode(dirs[0].0)| + 2 + DirCost(dirs[1..])
  }

  function ExtCost(exts: Nested<File>): nat {
    if exts == [] then 0 else |Utf8.Encode(exts[0].0)| + 2 + DirCost(exts[0].1) + ExtCost(exts[1..])
  }

  lemma {:induction false} NamesLength(h: Hashes, offsets: map<string, nat>, files: seq<File>)
    ensures |NamesBytes(h, offsets, files)| == FileCost(files) + 1
  {
    if files == [] {
    } else {
      NamesLength(h, offsets, files[1..]);
    }
  }

  lemma {:induction false} FileCostAppend(a: seq<File>, b: seq<File>)
    ensures FileCost(a + b) == FileCost(a) + FileCost(b)
  {
    if a == [] {
      assert a + b == b;
    } else {
      FileCostAppend(a[1..], b);
      assert (a + b)[1..] == a[1..] + b;
    }
  }

  lemma {:induction false} DirsLength(h: Hashes, offsets: map<string, nat>, dirs: Record<seq<File>>)
    ensures |DirsBytes(h, offsets, dirs)| == DirCost(dirs) + FileCost(Flatten(dirs)) + 1
  {
    if dirs == [] {
    } else {
      NamesLength(h, offsets, dirs[0].1);
      DirsLength(h, offsets, dirs[1..]);
      FileCostAppend(dirs[0].1, Flatten(dirs[1..]));
    }
  }

  lemma {:induction false} ExtsLength(h: Hashes, offsets: map<string, nat>, exts: Nested<File>)
    ensures |ExtsBytes(h, offsets, exts)| == ExtCost(exts) + FileCost(FlattenTwo(exts)) + 1
  {
    if exts == [] {
    } else {
      DirsLength(h, offsets, exts[0].1);
      ExtsLength(h, offsets, exts[1..]);
      FileCostAppend(Flatten(exts[0].1), FlattenTwo(exts[1..]));
    }
  }

  lemma {:induction false} FileCostOfRest(files: seq<File>, i: nat)
    requires i < |files|
    ensures FileCost(files) == NameCost(files[i]) + FileCost(Omit(files, i))
  {
    CutAt(files, i);
    FileCostAppend(files[..i], files[i..]);
    FileCostAppend(files[..i], files[i + 1..]);
  }

  /** The names cost the same in whatever order they are written. */
  lemma {:induction false} FileCostIgnoresOrder(a: seq<File>, b: seq<File>)
    requires multiset(a) == multiset(b)
    ensures FileCost(a) == FileCost(b)
  {
    SameElements(a, b);
    if a == [] {
    } else {
      assert a[0] in b;
      var i :| 0 <= i < |b| && b[i] == a[0];
      FileCostOfRest(b, i);
      TailTaken(a);
      TakenOut(b, i);
      FileCostIgnoresOrder(a[1..], Omit(b, i));
    }
  }

  /** The pack is header, tree, data and checksums, and the tree is as long as its strings say. */
  lemma PackLength(h: Hashes, files: seq<File>)
    requires Written(h, files).Ok?
    ensures var tree := |TreeBytes(h, ByPath(files))|;
      && tree == ExtCost(TreeOf(ByPath(files))) + FileCost(files) + 1
      && |Written(h, files).value| == HEADER_BYTES + tree + Total(ByPath(files)) + OTHER_MD5_BYTES
  {
    var sorted := ByPath(files);
    ExtsLength(h, Offsets(sorted), TreeOf(sorted));
    FlattenGroupsTwo(sorted, ExtOf, InDir);
    FileCostIgnoresOrder(FlattenTwo(TreeOf(sorted)), files);
    TotalIsLength(sorted);
    PackChecks(h, TreeBytes(h, sorted), DataOf(sorted));
  }

  /** Two entries' slices never overlap, and the earlier path has the earlier slice. */
  lemma {:induction false} SlicesAreDisjoint(sorted: seq<File>, i: nat, j: nat)
    requires i < j < |sorted| && DistinctPaths(sorted)
    ensures OffsetIn(Offsets(sorted), sorted[i].path) + |sorted[i].data| <= OffsetIn(Offsets(sorted), sorted[j].path)
    ensures OffsetIn(Offsets(sorted), sorted[j].path) + |sorted[j].data| <= |DataOf(sorted)|
    decreases j
  {
    OffsetsArePrefixSums(sorted, i);
    OffsetsArePrefixSums(sorted, j);
    DataIsCovered(sorted, i);
    DataIsCovered(sorted, j);
    TotalGrows(sorted, i + 1, j);
  }

  lemma {:induction false} TotalGrows(sorted: seq<File>, i: nat, j: nat)
    requires i <= j <= |sorted|
    ensures Total(sorted[..i]) <= Total(sorted[..j])
    decreases j
  {
    if i == j {
    } else {
      TotalGrows(sorted, i, j - 1);
      assert sorted[..j][..j - 1] == sorted[..j - 1];
    }
  }

  // ---- Any buffer the reader accepts

  ghost predicate CrcsHold(h: Hashes, entries: seq<Entry>) {
    forall e <- entries :: h.crc32(e.data) == e.crc32
  }

  lemma {:induction false} NamesHold(src: Source, ext: string, dir: string, rest: Bytes)
    ensures var r := ReadNames(src, ext, dir, rest); r.Ok? ==> CrcsHold(src.h, r.value.0)
    decreases |rest|
  {
    var s := TakeString(rest);
    if s.None? || s.value.0 == "" {
    } else {
      var e := ReadEntry(src, ext, dir, s.value.0, s.value.1);
      if e.Ok? {
        NamesHold(src, ext, dir, e.value.1);
      }
    }
  }

  lemma {:induction false} DirsHold(src: Source, ext: string, rest: Bytes)
    ensures var r := ReadDirs(src, ext, rest); r.Ok? ==> CrcsHold(src.h, r.value.0)
    decreases |rest|
  {
    var s := TakeString(rest);
    if s.None? || s.value.0 == "" {
    } else {
      var n := ReadNames(src, ext, s.value.0, s.value.1);
      if n.Ok? {
        NamesHold(src, ext, s.value.0, s.value.1);
        DirsHold(src, ext, n.value.1);
      }
    }
  }

  lemma {:induction false} ExtsHold(src: Source, rest: Bytes)
    ensures var r := ReadExts(src, rest); r.Ok? ==> CrcsHold(src.h, r.value.0)
    decreases |rest|
  {
    var s := TakeString(rest);
    if s.None? || s.value.0 == "" {
    } else {
      var d := ReadDirs(src, s.value.0, s.value.1);
      if d.Ok? {
        DirsHold(src, s.value.0, s.value.1);
        ExtsHold(src, d.value.1);
      }
    }
  }

  /** Whatever the buffer: once accepted, its sections partition it, its digests agree and so does every CRC. */
  lemma AcceptedIsChecked(h: Hashes, pack: Bytes)
    requires Read(h, pack).Ok?
    ensures |pack| >= HEADER_BYTES
    ensures var s := SectionsOf(pack);
      && HEADER_BYTES <= s.dataStart <= s.archiveStart <= s.otherStart
      && s.signatureStart == s.otherStart + OTHER_MD5_BYTES <= s.end == |pack|
      && var sums := pack[s.otherStart..s.signatureStart];
      && h.md5(pack[HEADER_BYTES..s.dataStart]) == sums[..16]
      && h.md5(pack[s.archiveStart..s.otherStart]) == sums[16..32]
      && h.md5(pack[..s.otherStart + 32]) == sums[32..48]
    ensures CrcsHold(h, Read(h, pack).value)
  {
    var s := SectionsOf(pack);
    ExtsHold(Source(h, pack, s.dataStart), pack[HEADER_BYTES..s.dataStart]);
  }
}

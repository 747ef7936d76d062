/**
 * How many entries a stretch of bytes can hold. Strings and their ends hold no 0xff, so the two that end an entry lie
 * in the eighteen-byte blocks the writer put there, and no block can end two entries (hud/src/vpk.ts).
 */
module VpkCount {
  import opened Wrappers
  import opened Octets
  import opened Digests
  import Lists
  import opened Ordered
  import opened VpkPath
  import opened VpkFormat
  import Utf8

  const MARK: byte := 255

  // ---- Where a 0xff can stand

  /** Blocks by where they start, counted from the end of the bytes: what is that far from the end lies in one. */
  ghost predicate Within(blocks: set<nat>, fromEnd: nat) {
    exists d <- blocks :: fromEnd <= d < fromEnd + ENTRY_BYTES
  }

  ghost predicate Covered(b: Bytes, blocks: set<nat>) {
    forall i :: 0 <= i < |b| && b[i] == MARK ==> Within(blocks, |b| - i)
  }

  lemma CoveredBehind(b: Bytes, blocks: set<nat>, k: nat)
    requires Covered(b, blocks) && k <= |b|
    ensures Covered(b[k..], blocks)
  {
    forall i | 0 <= i < |b[k..]| && b[k..][i] == MARK ensures Within(blocks, |b[k..]| - i) {
      assert b[k + i] == MARK;
    }
  }

  lemma CoveredInFront(front: Bytes, b: Bytes, blocks: set<nat>)
    requires MARK !in front && Covered(b, blocks)
    ensures Covered(front + b, blocks)
  {
    assert forall i :: 0 <= i < |front| ==> front[i] != MARK;
    forall i | 0 <= i < |front + b| && (front + b)[i] == MARK ensures Within(blocks, |front + b| - i) {
      assert b[i - |front|] == MARK;
    }
  }

  /** An entry in front is one more block. */
  lemma CoveredByBlock(block: Bytes, b: Bytes, blocks: set<nat>)
    requires |block| == ENTRY_BYTES && Covered(b, blocks)
    ensures Covered(block + b, blocks + {|block + b|})
  {
    var more := blocks + {|block + b|};
    forall i | 0 <= i < |block + b| && (block + b)[i] == MARK ensures Within(more, |block + b| - i) {
      if i < ENTRY_BYTES {
        assert |block + b| in more;
      } else {
        assert b[i - ENTRY_BYTES] == MARK;
        var d :| d in blocks && |b| - (i - ENTRY_BYTES) <= d < |b| - (i - ENTRY_BYTES) + ENTRY_BYTES;
        assert d in more;
      }
    }
  }

  /** UTF-8 has no such byte. */
  lemma StringsAreUnmarked(s: string)
    ensures MARK !in CString(s)
  {
    Utf8.NeverAllOnes(s);
  }

  // ---- The blocks of a tree

  lemma OneMore(blocks: set<nat>, d: nat)
    ensures |blocks + {d}| <= |blocks| + 1
  {
    if d in blocks {
      assert blocks + {d} == blocks;
    }
  }

  lemma {:induction false} NamesBlocks(h: Hashes, offsets: map<string, nat>, files: seq<File>, rest: Bytes,
                                       blocks: set<nat>)
    returns (more: set<nat>)
    requires Covered(rest, blocks)
    ensures Covered(NamesBytes(h, offsets, files) + rest, more) && |more| <= |files| + |blocks|
  {
    if files == [] {
      more := blocks;
      StringsAreUnmarked("");
      CoveredInFront(CString(""), rest, blocks);
    } else {
      var name, entry := CString(Split(files[0].path).name), EntryBytes(h, files[0], OffsetIn(offsets, files[0].path));
      var behind := NamesBytes(h, offsets, files[1..]) + rest;
      var fewer := NamesBlocks(h, offsets, files[1..], rest, blocks);
      more := fewer + {|entry + behind|};
      OneMore(fewer, |entry + behind|);
      CoveredByBlock(entry, behind, fewer);
      StringsAreUnmarked(Split(files[0].path).name);
      CoveredInFront(name, entry + behind, more);
      Lists.RegroupFour(name, entry, NamesBytes(h, offsets, files[1..]), rest);
    }
  }

  lemma {:induction false} DirsBlocks(h: Hashes, offsets: map<string, nat>, dirs: Record<seq<File>>, rest: Bytes,
                                      blocks: set<nat>)
    returns (more: set<nat>)
    requires Covered(rest, blocks)
    ensures Covered(DirsBytes(h, offsets, dirs) + rest, more) && |more| <= |Flatten(dirs)| + |blocks|
  {
    if dirs == [] {
      more := blocks;
      StringsAreUnmarked("");
      CoveredInFront(CString(""), rest, blocks);
    } else {
      var behind := DirsBytes(h, offsets, dirs[1..]) + rest;
      var names := NamesBytes(h, offsets, dirs[0].1);
      var fewer := DirsBlocks(h, offsets, dirs[1..], rest, blocks);
      more := NamesBlocks(h, offsets, dirs[0].1, behind, fewer);
      StringsAreUnmarked(dirs[0].0);
      CoveredInFront(CString(dirs[0].0), names + behind, more);
      Lists.RegroupFour(CString(dirs[0].0), names, DirsBytes(h, offsets, dirs[1..]), rest);
    }
  }

  lemma {:induction false} ExtsBlocks(h: Hashes, offsets: map<string, nat>, exts: Nested<File>)
    returns (blocks: set<nat>)
    ensures Covered(ExtsBytes(h, offsets, exts), blocks) && |blocks| <= |FlattenTwo(exts)|
  {
    if exts == [] {
      blocks := {};
      StringsAreUnmarked("");
    } else {
      var dirs, behind := DirsBytes(h, offsets, exts[0].1), ExtsBytes(h, offsets, exts[1..]);
      var fewer := ExtsBlocks(h, offsets, exts[1..]);
      blocks := DirsBlocks(h, offsets, exts[0].1, behind, fewer);
      StringsAreUnmarked(exts[0].0);
      CoveredInFront(CString(exts[0].0), dirs + behind, blocks);
      Lists.Regroup(CString(exts[0].0), dirs, behind);
    }
  }

  // ---- Every entry the reader takes uses one up

  /** The blocks an entry can still end in, this far from the end: a name takes two bytes before it. */
  function Ahead(blocks: set<nat>, fromEnd: nat): set<nat> {
    set d | d in blocks && d + 2 <= fromEnd
  }

  /** The block that starts right here is behind already. */
  lemma OwnBlockIsBehind(blocks: set<nat>, fromEnd: nat)
    ensures |Ahead(blocks + {fromEnd}, fromEnd)| <= |blocks|
  {
    Fewer(Ahead(blocks + {fromEnd}, fromEnd), blocks);
  }

  lemma AheadShrinks(blocks: set<nat>, near: nat, far: nat)
    requires near <= far
    ensures |Ahead(blocks, near)| <= |Ahead(blocks, far)|
  {
    Fewer(Ahead(blocks, near), Ahead(blocks, far));
  }

  lemma {:induction false} Fewer(a: set<nat>, b: set<nat>)
    requires a <= b
    ensures |a| <= |b|
  {
    assert |b| == |a| + |b - a| by {
      assert a + (b - a) == b;
    }
  }

  lemma OneUsed(blocks: set<nat>, near: nat, far: nat, d: nat)
    requires d in Ahead(blocks, far) && d !in Ahead(blocks, near) && near <= far
    ensures |Ahead(blocks, near)| < |Ahead(blocks, far)|
  {
    Fewer(Ahead(blocks, near), Ahead(blocks, far) - {d});
  }

  /** A string that is not empty takes two bytes at least. */
  lemma StringTaken(rest: Bytes, blocks: set<nat>)
    requires TakeString(rest).Some? && Covered(rest, blocks)
    ensures var (s, behind) := TakeString(rest).value;
      && Covered(behind, blocks) && |behind| < |rest| && (s != "" ==> |behind| + 2 <= |rest|)
  {
    CoveredBehind(rest, blocks, IndexOfZero(rest, 0) + 1);
  }

  lemma EntryTaken(src: Source, ext: string, dir: string, name: string, rest: Bytes, blocks: set<nat>)
    requires ReadEntry(src, ext, dir, name, rest).Ok? && Covered(rest, blocks)
    ensures var next := ReadEntry(src, ext, dir, name, rest).value.1;
      && Covered(next, blocks) && |next| <= |rest|
      && |Ahead(blocks, |next|)| < |Ahead(blocks, |rest| + 2)|
  {
    var next := ReadEntry(src, ext, dir, name, rest).value.1;
    CoveredBehind(rest, blocks, |rest| - |next|);
    assert rest[17] == MARK;
    var d :| d in blocks && |rest| - 17 <= d < |rest| - 17 + ENTRY_BYTES;
    OneUsed(blocks, |next|, |rest| + 2, d);
  }

  lemma {:induction false} NamesUse(src: Source, ext: string, dir: string, rest: Bytes, blocks: set<nat>)
    requires ReadNames(src, ext, dir, rest).Ok? && Covered(rest, blocks)
    ensures var (entries, end) := ReadNames(src, ext, dir, rest).value;
      Covered(end, blocks) && |entries| + |Ahead(blocks, |end|)| <= |Ahead(blocks, |rest|)|
    decreases |rest|
  {
    StringTaken(rest, blocks);
    var (name, behind) := TakeString(rest).value;
    if name == "" {
      AheadShrinks(blocks, |behind|, |rest|);
    } else {
      EntryTaken(src, ext, dir, name, behind, blocks);
      NamesUse(src, ext, dir, ReadEntry(src, ext, dir, name, behind).value.1, blocks);
      AheadShrinks(blocks, |behind| + 2, |rest|);
    }
  }

  lemma {:induction false} DirsUse(src: Source, ext: string, rest: Bytes, blocks: set<nat>)
    requires ReadDirs(src, ext, rest).Ok? && Covered(rest, blocks)
    ensures var (entries, end) := ReadDirs(src, ext, rest).value;
      Covered(end, blocks) && |entries| + |Ahead(blocks, |end|)| <= |Ahead(blocks, |rest|)|
    decreases |rest|
  {
    StringTaken(rest, blocks);
    var (dir, behind) := TakeString(rest).value;
    AheadShrinks(blocks, |behind|, |rest|);
    if dir == "" {
    } else {
      NamesUse(src, ext, dir, behind, blocks);
      DirsUse(src, ext, ReadNames(src, ext, dir, behind).value.1, blocks);
    }
  }

  lemma {:induction false} ExtsUse(src: Source, rest: Bytes, blocks: set<nat>)
    requires ReadExts(src, rest).Ok? && Covered(rest, blocks)
    ensures |ReadExts(src, rest).value.0| <= |Ahead(blocks, |rest|)|
    decreases |rest|
  {
    StringTaken(rest, blocks);
    var (ext, behind) := TakeString(rest).value;
    AheadShrinks(blocks, |behind|, |rest|);
    if ext == "" {
    } else {
      DirsUse(src, ext, behind, blocks);
      ExtsUse(src, ReadDirs(src, ext, behind).value.1, blocks);
    }
  }
}

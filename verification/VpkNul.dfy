/** No path the reader puts together holds a NUL, whatever the buffer (hud/src/vpk.ts). */
module VpkNul {
  import opened Octets
  import opened Digests
  import opened VpkPath
  import opened VpkFormat
  import Utf8

  ghost predicate NulFree(entries: seq<Entry>) {
    forall e <- entries :: '\0' !in e.path
  }

  /** A string ends at the first zero byte, so it holds none. */
  lemma StringsAreNulFree(rest: Bytes)
    requires TakeString(rest).Some?
    ensures '\0' !in TakeString(rest).value.0
  {
    Utf8.NoZeroNoNul(rest[..IndexOfZero(rest, 0)]);
  }

  lemma RejoinedIsNulFree(dir: string, name: string, ext: string)
    requires '\0' !in dir && '\0' !in name && '\0' !in ext
    ensures '\0' !in Rejoin(Parts(dir, name, ext))
  {
  }

  lemma {:induction false} NamesAreNulFree(src: Source, ext: string, dir: string, rest: Bytes)
    requires '\0' !in dir && '\0' !in ext && ReadNames(src, ext, dir, rest).Ok?
    ensures NulFree(ReadNames(src, ext, dir, rest).value.0)
    decreases |rest|
  {
    var (name, behind) := TakeString(rest).value;
    if name == "" {
    } else {
      StringsAreNulFree(rest);
      RejoinedIsNulFree(dir, name, ext);
      NamesAreNulFree(src, ext, dir, ReadEntry(src, ext, dir, name, behind).value.1);
    }
  }

  lemma {:induction false} DirsAreNulFree(src: Source, ext: string, rest: Bytes)
    requires '\0' !in ext && ReadDirs(src, ext, rest).Ok?
    ensures NulFree(ReadDirs(src, ext, rest).value.0)
    decreases |rest|
  {
    var (dir, behind) := TakeString(rest).value;
    if dir == "" {
    } else {
      StringsAreNulFree(rest);
      NamesAreNulFree(src, ext, dir, behind);
      DirsAreNulFree(src, ext, ReadNames(src, ext, dir, behind).value.1);
    }
  }

  lemma {:induction false} ExtsAreNulFree(src: Source, rest: Bytes)
    requires ReadExts(src, rest).Ok?
    ensures NulFree(ReadExts(src, rest).value.0)
    decreases |rest|
  {
    var (ext, behind) := TakeString(rest).value;
    if ext == "" {
    } else {
      StringsAreNulFree(rest);
      DirsAreNulFree(src, ext, behind);
      ExtsAreNulFree(src, ReadDirs(src, ext, behind).value.1);
    }
  }

  /** Whatever the buffer, no path it gives has a NUL in it. */
  lemma ReadPathsAreNulFree(h: Hashes, pack: Bytes)
    requires Read(h, pack).Ok?
    ensures NulFree(Read(h, pack).value)
  {
    var s := SectionsOf(pack);
    ExtsAreNulFree(Source(h, pack, s.dataStart), pack[HEADER_BYTES..s.dataStart]);
  }
}

/** How a path is cut for the tree of a pack, and which paths come out of it whole (hud/src/vpk.ts). */
module VpkPath {
  import opened Texts

  datatype Parts = Parts(dir: string, name: string, ext: string)

  /** The directory of a path, a blank when there is none. */
  function DirOf(path: string): string {
    var slash := LastIndexOf(path, '/');
    if slash < 0 then " " else path[..slash]
  }

  function FileOf(path: string): string {
    path[LastIndexOf(path, '/') + 1..]
  }

  function Split(path: string): Parts {
    var file := FileOf(path);
    var dot := LastIndexOf(file, '.');
    if dot < 0 then Parts(DirOf(path), file, " ")
    else Parts(DirOf(path), file[..dot], if file[dot + 1..] == "" then " " else file[dot + 1..])
  }

  function Front(dir: string): string {
    if dir == " " then "" else dir + "/"
  }

  function Back(name: string, ext: string): string {
    if ext == " " then name else name + "." + ext
  }

  /** The path the reader puts together again. */
  function Rejoin(p: Parts): string {
    Front(p.dir) + Back(p.name, p.ext)
  }

  datatype PathFault = NotLowerCase | NotClean

  /** `checkPath`: what it throws, if anything. */
  function Faults(lower: string -> string, path: string): (faults: seq<PathFault>)
    ensures |faults| <= 1
  {
    if path != lower(path) then [NotLowerCase]
    else if StartsWith(path, "/") || '\\' in path || (exists p <- SplitOn(path, '/') :: p == "" || p == "..")
    then [NotClean]
    else []
  }

  predicate CleanPart(p: string) {
    '/' !in p && p != "" && p != ".."
  }

  lemma PartsAreClean(lower: string -> string, path: string, parts: seq<string>)
    requires parts != [] && path == Join(parts, '/') && lower(path) == path
    requires forall p <- parts :: CleanPart(p)
    requires path != "" && path[0] != '/' && '\\' !in path
    ensures Faults(lower, path) == []
  {
    SplitsJoined(parts, '/');
  }

  // ---- Which paths are clean

  /** What stands between two separators, or between one and an end of the string. */
  ghost predicate Segment(s: string, c: char, lo: int, hi: int) {
    && 0 <= lo <= hi <= |s| && c !in s[lo..hi]
    && (lo == 0 || s[lo - 1] == c) && (hi == |s| || s[hi] == c)
  }

  lemma {:induction false} SegmentIsAPart(s: string, c: char, lo: int, hi: int) returns (k: nat)
    requires Segment(s, c, lo, hi)
    ensures k < |SplitOn(s, c)| && SplitOn(s, c)[k] == s[lo..hi]
    ensures k == 0 <==> lo == 0
    decreases hi
  {
    k := 0;
    if s == "" {
    } else if lo > 0 {
      assert s[1..][lo - 1..hi - 1] == s[lo..hi];
      k := SegmentIsAPart(s[1..], c, lo - 1, hi - 1);
      if s[0] == c {
        k := k + 1;
      }
    } else if hi > 0 {
      assert s[0] in s[lo..hi] && s[1..][0..hi - 1] == s[lo..hi][1..];
      k := SegmentIsAPart(s[1..], c, 0, hi - 1);
    }
  }

  lemma {:induction false} PartIsASegment(s: string, c: char, k: nat) returns (lo: int, hi: int)
    requires k < |SplitOn(s, c)|
    ensures Segment(s, c, lo, hi) && s[lo..hi] == SplitOn(s, c)[k]
    ensures k == 0 <==> lo == 0
    decreases |s|
  {
    lo, hi := 0, 0;
    if s == "" || (s[0] == c && k == 0) {
    } else {
      lo, hi := PartIsASegment(s[1..], c, if s[0] == c then k - 1 else k);
      assert s[1..][lo..hi] == s[lo + 1..hi + 1];
      if s[0] == c || k > 0 {
        lo, hi := lo + 1, hi + 1;
      } else {
        assert s[0..hi + 1] == [s[0]] + s[1..hi + 1];
        hi := hi + 1;
      }
    }
  }

  /** No backslash, and no segment that is empty or leads up. */
  ghost predicate CleanPath(path: string) {
    && '\\' !in path
    && forall lo, hi :: Segment(path, '/', lo, hi) ==> path[lo..hi] != "" && path[lo..hi] != ".."
  }

  /** Which paths are refused, told from their characters; an upper-case one is refused for that. */
  lemma FaultIs(lower: string -> string, path: string)
    ensures Faults(lower, path)
         == if path != lower(path) then [NotLowerCase] else if CleanPath(path) then [] else [NotClean]
  {
    var parts := SplitOn(path, '/');
    if CleanPath(path) {
      forall p | p in parts ensures p != "" && p != ".." {
        var k :| 0 <= k < |parts| && parts[k] == p;
        var lo, hi := PartIsASegment(path, '/', k);
      }
      assert StartsWith(path, "/") ==> Segment(path, '/', 0, 0);
    } else if '\\' !in path {
      var lo, hi :| Segment(path, '/', lo, hi) && (path[lo..hi] == "" || path[lo..hi] == "..");
      var k := SegmentIsAPart(path, '/', lo, hi);
      assert parts[k] in parts;
    }
  }

  // ---- Cutting paths given by their parts

  lemma FoundAt(s: string, c: char, i: nat)
    requires i < |s| && s[i] == c && forall j :: i < j < |s| ==> s[j] != c
    ensures LastIndexOf(s, c) == i
  {
  }

  lemma FileInDir(path: string, dir: string, file: string)
    requires path == dir + "/" + file && '/' !in file
    ensures DirOf(path) == dir && FileOf(path) == file
  {
    FoundAt(path, '/', |dir|);
  }

  lemma FileAlone(path: string)
    requires '/' !in path
    ensures DirOf(path) == " " && FileOf(path) == path
  {
  }

  lemma CutAtDot(path: string, name: string, ext: string)
    requires FileOf(path) == name + "." + ext && '.' !in ext
    ensures Split(path) == Parts(DirOf(path), name, if ext == "" then " " else ext)
  {
    FoundAt(FileOf(path), '.', |name|);
  }

  lemma CutWithoutDot(path: string)
    requires '.' !in FileOf(path)
    ensures Split(path) == Parts(DirOf(path), FileOf(path), " ")
  {
  }

  // ---- The paths that survive

  predicate Readable(path: string) {
    '\0' !in path && Split(path).name != ""
  }

  predicate EndsInDot(path: string) {
    |path| >= 1 && path[|path| - 1] == '.'
  }

  predicate EndsInDotBlank(path: string) {
    |path| >= 2 && path[|path| - 2] == '.' && path[|path| - 1] == ' '
  }

  /** `" /x"` and no slash after that one. */
  predicate BlankDirectory(path: string) {
    |path| >= 2 && path[0] == ' ' && path[1] == '/' && forall j :: 2 <= j < |path| ==> path[j] != '/'
  }

  /** What a caller can look for: a final dot, a lone blank for an extension, a lone blank for a directory. */
  predicate Whole(path: string) {
    !EndsInDot(path) && !EndsInDotBlank(path) && !BlankDirectory(path)
  }

  /** Cutting and joining gives a path back exactly when it is `Whole`. */
  lemma RejoinsIffWhole(path: string)
    ensures Rejoin(Split(path)) == path <==> Whole(path)
  {
    var p, front := Split(path), path[..LastIndexOf(path, '/') + 1];
    FrontSurvives(path);
    BackSurvives(path);
    BothOrShorter(Front(p.dir), Back(p.name, p.ext), front, FileOf(path));
    assert path == front + FileOf(path);
  }

  lemma BothOrShorter(a: string, b: string, front: string, back: string)
    requires a == front || |a| < |front|
    requires b == back || |b| < |back|
    ensures a + b == front + back <==> a == front && b == back
  {
    if a + b == front + back {
      assert |a + b| == |front + back|;
    }
  }

  lemma FrontSurvives(path: string)
    ensures var front, back := path[..LastIndexOf(path, '/') + 1], Front(DirOf(path));
      if BlankDirectory(path) then |back| < |front| else back == front
  {
    var slash := LastIndexOf(path, '/');
    if BlankDirectory(path) {
      assert slash == 1;
      assert path[..1] == [' '];
    } else if slash >= 0 {
      assert path[..slash + 1] == path[..slash] + "/";
      BlankIsOneLong(path, slash);
    }
  }

  lemma BlankIsOneLong(path: string, slash: nat)
    requires slash < |path| && path[slash] == '/'
    requires forall j :: slash < j < |path| ==> path[j] != '/'
    ensures path[..slash] == " " ==> BlankDirectory(path)
  {
    if path[..slash] == " " {
      assert |path[..slash]| == 1 && path[..slash][0] == ' ';
    }
  }

  lemma BackSurvives(path: string)
    ensures var file, back := FileOf(path), Back(Split(path).name, Split(path).ext);
      if EndsInDot(path) || EndsInDotBlank(path) then |back| < |file| else back == file
  {
    var file := FileOf(path);
    var dot := LastIndexOf(file, '.');
    if dot >= 0 {
      assert file == file[..dot] + "." + file[dot + 1..];
      if dot == |file| - 2 {
        assert file[dot + 1..] == [file[dot + 1]];
      }
      if file[dot + 1..] == " " {
        assert file[dot + 1] == file[dot + 1..][0];
      }
    }
  }

  predicate Stringy(s: string) {
    s != "" && '\0' !in s
  }

  /** What the tree needs of a path the writer accepted: strings that are not terminators, but for an empty name. */
  lemma PartsAreStrings(lower: string -> string, path: string)
    requires Faults(lower, path) == [] && '\0' !in path
    ensures Stringy(Split(path).dir) && Stringy(Split(path).ext)
    ensures Stringy(Split(path).name) <==> Split(path).name != ""
  {
    StartsWithSlash(path);
    assert LastIndexOf(path, '/') != 0;
    DirIsString(path);
    FileHasNoNul(path);
    CutHasNoNul(path, FileOf(path));
  }

  lemma NotInSlice(s: string, c: char, lo: nat, hi: nat)
    requires c !in s && lo <= hi <= |s|
    ensures c !in s[lo..hi]
  {
    forall x | x in s[lo..hi] ensures x != c {
      var j :| 0 <= j < hi - lo && s[lo..hi][j] == x;
      assert s[lo + j] == x;
    }
  }

  lemma DirIsString(path: string)
    requires '\0' !in path && LastIndexOf(path, '/') != 0
    ensures Stringy(DirOf(path))
  {
    var slash := LastIndexOf(path, '/');
    if slash > 0 {
      NotInSlice(path, '\0', 0, slash);
    }
  }

  lemma FileHasNoNul(path: string)
    requires '\0' !in path
    ensures '\0' !in FileOf(path)
  {
    NotInSlice(path, '\0', LastIndexOf(path, '/') + 1, |path|);
  }

  lemma CutHasNoNul(path: string, file: string)
    requires file == FileOf(path) && '\0' !in file
    ensures '\0' !in Split(path).name && Stringy(Split(path).ext)
  {
    var dot := LastIndexOf(file, '.');
    if dot >= 0 {
      NotInSlice(file, '\0', 0, dot);
      NotInSlice(file, '\0', dot + 1, |file|);
    }
  }

  lemma StartsWithSlash(path: string)
    ensures path != "" && path[0] == '/' ==> StartsWith(path, "/")
  {
    if path != "" && path[0] == '/' {
      assert path[..1] == "/";
    }
  }
}

/** The honesty check over `hud/dist/`: what it complains about (hud/src/dist.ts). */
module Dist {
  import opened Wrappers
  import opened Octets
  import opened Digests
  import opened Ordered
  import opened Sorting
  import opened Texts
  import opened Addon
  import Stamp
  import VpkFormat

  const VPK_NAME := "ezpug_hud.vpk"

  datatype FileInfo = FileInfo(sha256: string, bytes: nat)
  datatype PackInfo = PackInfo(file: string, sha256: string, bytes: nat)

  /** `manifest.json`, parsed; what compiled it is a text nobody checks. */
  datatype Manifest = Manifest(
    compiler: string,
    sources: Record<string>,
    files: Record<FileInfo>,
    pack: PackInfo,
    stamp: Option<string>)

  datatype Problem =
    | ManifestMissing
    | OfStamp(stampProblem: Stamp.StampProblem)
    | NoStamp
    | OtherStamp(manifest: string, sources: string)
    | Changed(source: string)
    | New(source: string)
    | Gone(source: string)
    | FilesDiffer(recorded: seq<string>, expected: seq<string>)
    | NotInManifest(file: string)
    | LooseMissing(file: string)
    | LooseHash(file: string)
    | PackName(name: string)
    | PackMissing
    | PackHash
    | PackList(packed: seq<string>, recorded: seq<string>)
    | PackDiffers(path: string)
    | PackUnreadable(error: VpkFormat.ReadError)

  // ---- The checks, one list each

  function OfStamps(ps: seq<Stamp.StampProblem>): seq<Problem> {
    seq(|ps|, i requires 0 <= i < |ps| => OfStamp(ps[i]))
  }

  function StampCheck(ps: seq<Stamp.StampProblem>, said: Option<string>, stamp: string): seq<Problem> {
    OfStamps(ps)
    + match said {
      case None => [NoStamp]
      case Some(s) => if ps == [] && s != stamp then [OtherStamp(s, stamp)] else []
    }
  }

  function ChangedSources(now: Record<string>, recorded: Record<string>): seq<Problem> {
    if now == [] then []
    else
      (match Get(recorded, now[0].0)
       case None => [New(now[0].0)]
       case Some(hash) =>
         if hash == now[0].1 then [] else if hash == "" then [New(now[0].0)] else [Changed(now[0].0)])
      + ChangedSources(now[1..], recorded)
  }

  function GoneSources(recorded: seq<string>, now: Record<string>): seq<Problem> {
    if recorded == [] then []
    else (if Get(now, recorded[0]).None? then [Gone(recorded[0])] else []) + GoneSources(recorded[1..], now)
  }

  /** Two lists compared the way the check does: sorted, joined by newlines. */
  predicate SameList(a: seq<string>, b: seq<string>) {
    Join(SortTexts(a), '\n') == Join(SortTexts(b), '\n')
  }

  function Strays(onDisk: seq<string>, files: Record<FileInfo>): seq<Problem> {
    if onDisk == [] then []
    else
      var file := "panorama/" + onDisk[0];
      (if Get(files, file).None? then [NotInManifest(file)] else []) + Strays(onDisk[1..], files)
  }

  function LooseFiles(h: Hashes, tree: Tree, files: Record<FileInfo>): seq<Problem> {
    if files == [] then []
    else
      (match Get(tree, "dist/" + files[0].0)
       case None => [LooseMissing(files[0].0)]
       case Some(bytes) => if h.sha256(bytes) != files[0].1.sha256 then [LooseHash(files[0].0)] else [])
      + LooseFiles(h, tree, files[1..])
  }

  function Paths(entries: seq<VpkFormat.Entry>): (r: seq<string>)
    ensures |r| == |entries|
    ensures forall i :: 0 <= i < |r| ==> r[i] == entries[i].path
  {
    seq(|entries|, i requires 0 <= i < |entries| => entries[i].path)
  }

  function PackedFiles(h: Hashes, entries: seq<VpkFormat.Entry>, files: Record<FileInfo>): seq<Problem> {
    if entries == [] then []
    else
      (match Get(files, entries[0].path)
       case None => []
       case Some(want) => if h.sha256(entries[0].data) != want.sha256 then [PackDiffers(entries[0].path)] else [])
      + PackedFiles(h, entries[1..], files)
  }

  function PackCheck(h: Hashes, pack: Bytes, files: Record<FileInfo>): seq<Problem> {
    match VpkFormat.Read(h, pack)
    case Err(e) => [PackUnreadable(e)]
    case Ok(entries) =>
      (if !SameList(Paths(entries), Keys(files))
       then [PackList(SortTexts(Paths(entries)), SortTexts(Keys(files)))] else [])
      + PackedFiles(h, entries, files)
  }

  /** The stamps, the source hashes and the list of files the sources compile to. */
  function SourceCheck(m: Manifest, sources: seq<Source>, ps: seq<Stamp.StampProblem>, stamp: string,
                       now: Record<string>): seq<Problem>
  {
    StampCheck(ps, m.stamp, stamp)
    + ChangedSources(now, m.sources)
    + GoneSources(Keys(m.sources), now)
    + (if !SameList(CompiledPaths(sources), Keys(m.files))
       then [FilesDiffer(SortTexts(Keys(m.files)), SortTexts(CompiledPaths(sources)))] else [])
  }

  /** Everything up to the pack. */
  function LooseCheck(h: Hashes, tree: Tree, m: Manifest, sources: seq<Source>, ps: seq<Stamp.StampProblem>,
                      stamp: string, now: Record<string>): seq<Problem>
  {
    SourceCheck(m, sources, ps, stamp, now)
    + Strays(ListFiles(tree, "dist/panorama"), m.files)
    + LooseFiles(h, tree, m.files)
    + (if m.pack.file != VPK_NAME then [PackName(m.pack.file)] else [])
  }

  function Verdict(h: Hashes, tree: Tree, m: Manifest, sources: seq<Source>, ps: seq<Stamp.StampProblem>, stamp: string,
                   now: Record<string>): seq<Problem>
  {
    LooseCheck(h, tree, m, sources, ps, stamp, now)
    + match Get(tree, "dist/" + VPK_NAME) {
      case None => [PackMissing]
      case Some(pack) =>
        (if h.sha256(pack) != m.pack.sha256 then [PackHash] else []) + PackCheck(h, pack, m.files)
    }
  }

  /** `verifyDist`: what it returns, or what stops it on the way. */
  function Problems(h: Hashes, tree: Tree, manifest: Option<Manifest>): Result<seq<Problem>, Fault> {
    match manifest
    case None => Ok([ManifestMissing])
    case Some(m) =>
      var ps :- Stamp.StampProblems(h, tree);
      var stamp :- Stamp.StampOf(h, tree);
      var sources :- Sources(h, Keys(tree));
      var now :- SourceHashes(h, tree, sources);
      Ok(Verdict(h, tree, m, sources, ps, stamp, now))
  }

  // ---- When each check is content

  lemma {:induction false} SourcesUnchanged(now: Record<string>, recorded: Record<string>)
    ensures ChangedSources(now, recorded) == []
       <==> forall i :: 0 <= i < |now| ==> Get(recorded, now[i].0) == Some(now[i].1)
  {
    if now == [] {
    } else {
      SourcesUnchanged(now[1..], recorded);
      assert forall i :: 1 <= i < |now| ==> now[i] == now[1..][i - 1];
    }
  }

  lemma {:induction false} NoneGone(recorded: seq<string>, now: Record<string>)
    ensures GoneSources(recorded, now) == [] <==> forall k <- recorded :: Get(now, k).Some?
  {
    if recorded == [] {
    } else {
      NoneGone(recorded[1..], now);
      assert recorded[0] in recorded && forall k :: k in recorded <==> k == recorded[0] || k in recorded[1..];
      var own := if Get(now, recorded[0]).None? then [Gone(recorded[0])] else [];
      assert GoneSources(recorded, now) == own + GoneSources(recorded[1..], now);
    }
  }

  lemma {:induction false} NoStrays(onDisk: seq<string>, files: Record<FileInfo>)
    ensures Strays(onDisk, files) == [] <==> forall f <- onDisk :: Get(files, "panorama/" + f).Some?
  {
    if onDisk == [] {
    } else {
      NoStrays(onDisk[1..], files);
      assert forall k :: k in onDisk <==> k == onDisk[0] || k in onDisk[1..];
    }
  }

  ghost predicate LooseHolds(h: Hashes, tree: Tree, path: string, info: FileInfo) {
    Get(tree, "dist/" + path).Some? && h.sha256(Get(tree, "dist/" + path).value) == info.sha256
  }

  lemma {:induction false} LooseFilesHold(h: Hashes, tree: Tree, files: Record<FileInfo>)
    ensures LooseFiles(h, tree, files) == []
       <==> forall i :: 0 <= i < |files| ==> LooseHolds(h, tree, files[i].0, files[i].1)
  {
    if files == [] {
    } else {
      LooseFilesHold(h, tree, files[1..]);
      assert forall i :: 1 <= i < |files| ==> files[i] == files[1..][i - 1];
    }
  }

  ghost predicate EntryHolds(h: Hashes, files: Record<FileInfo>, e: VpkFormat.Entry) {
    Get(files, e.path).Some? ==> h.sha256(e.data) == Get(files, e.path).value.sha256
  }

  lemma {:induction false} PackedFilesHold(h: Hashes, entries: seq<VpkFormat.Entry>, files: Record<FileInfo>)
    ensures PackedFiles(h, entries, files) == [] <==> forall e <- entries :: EntryHolds(h, files, e)
  {
    if entries == [] {
    } else {
      PackedFilesHold(h, entries[1..], files);
      assert entries[0] in entries && forall e :: e in entries <==> e == entries[0] || e in entries[1..];
      assert PackedFiles(h, entries, files) == [] <==>
        PackedFiles(h, entries[1..], files) == [] && EntryHolds(h, files, entries[0]);
    }
  }

  // ---- Honesty

  /** Nothing in these lists of contents shares a hash with anything else in them. */
  ghost predicate CollisionFree(h: Hashes, tree: Tree, entries: seq<VpkFormat.Entry>) {
    forall i, e :: 0 <= i < |tree| && e in entries && h.sha256(tree[i].1) == h.sha256(e.data) ==> tree[i].1 == e.data
  }

  /** A list of paths a newline cannot confuse. */
  ghost predicate Proper(paths: seq<string>) {
    forall p <- paths :: '\n' !in p && p != ""
  }

  lemma SameListIsSameFiles(a: seq<string>, b: seq<string>)
    requires Proper(a) && Proper(b)
    ensures SameList(a, b) <==> multiset(a) == multiset(b)
  {
    if SameList(a, b) {
      SameElements(SortTexts(a), a);
      SameElements(SortTexts(b), b);
      JoinIsInjective(SortTexts(a), SortTexts(b), '\n');
    }
    SortTextsIsCanonical(a, b);
  }

  lemma SameMultisetIsUnique(a: seq<string>, b: seq<string>)
    requires multiset(a) == multiset(b) && Unique(b)
    ensures Unique(a)
  {
    forall i, j | 0 <= i < j < |a| ensures a[i] != a[j] {
      if a[i] == a[j] {
        TwiceIsTwo(a, i, j);
        UniqueIsOne(b, a[i]);
      }
    }
  }

  lemma TwiceIsTwo(a: seq<string>, i: nat, j: nat)
    requires i < j < |a| && a[i] == a[j]
    ensures multiset(a)[a[i]] >= 2
  {
    assert a == a[..i] + [a[i]] + a[i + 1..j] + [a[j]] + a[j + 1..];
  }

  lemma {:induction false} UniqueIsOne(b: seq<string>, x: string)
    requires Unique(b)
    ensures multiset(b)[x] <= 1
  {
    if b == [] {
    } else {
      UniqueIsOne(b[1..], x);
      assert b == [b[0]] + b[1..];
      if b[0] == x {
        assert x !in b[1..];
      }
    }
  }

  lemma {:induction false} UnderHolds(keys: seq<string>, dir: string, f: string)
    ensures f in Under(keys, dir) <==> dir + "/" + f in keys
  {
    if keys == [] {
    } else {
      UnderHolds(keys[1..], dir, f);
      assert StartsWith(keys[0], dir + "/") ==> keys[0] == dir + "/" + keys[0][|dir| + 1..];
      assert keys[0] == dir + "/" + f ==> StartsWith(keys[0], dir + "/") && keys[0][|dir| + 1..] == f;
      assert forall k :: k in keys <==> k == keys[0] || k in keys[1..];
    }
  }

  /** What an empty verdict promises, given what was read on the way. */
  ghost predicate Honest(h: Hashes, tree: Tree, m: Manifest, sources: seq<Source>, stamp: string, now: Record<string>) {
    && m.stamp == Some(stamp)
    && (forall i :: 0 <= i < |now| ==> Get(m.sources, now[i].0) == Some(now[i].1))
    && (forall k <- Keys(m.sources) :: Get(now, k).Some?)
    && SameList(CompiledPaths(sources), Keys(m.files))
    && (forall f <- ListFiles(tree, "dist/panorama") :: Get(m.files, "panorama/" + f).Some?)
    && (forall i :: 0 <= i < |m.files| ==> LooseHolds(h, tree, m.files[i].0, m.files[i].1))
    && m.pack.file == VPK_NAME
  }

  ghost predicate PackHonest(h: Hashes, tree: Tree, m: Manifest) {
    && Get(tree, "dist/" + VPK_NAME).Some?
    && var pack := Get(tree, "dist/" + VPK_NAME).value;
    && h.sha256(pack) == m.pack.sha256
    && VpkFormat.Read(h, pack).Ok?
    && var entries := VpkFormat.Read(h, pack).value;
    && SameList(Paths(entries), Keys(m.files))
    && forall e <- entries :: EntryHolds(h, m.files, e)
  }

  lemma StampCheckHolds(ps: seq<Stamp.StampProblem>, said: Option<string>, stamp: string)
    ensures StampCheck(ps, said, stamp) == [] <==> ps == [] && said == Some(stamp)
  {
    assert |OfStamps(ps)| == |ps|;
  }

  lemma LooseCheckHolds(h: Hashes, tree: Tree, m: Manifest, sources: seq<Source>, ps: seq<Stamp.StampProblem>,
                        stamp: string, now: Record<string>)
    ensures LooseCheck(h, tree, m, sources, ps, stamp, now) == []
       <==> ps == [] && Honest(h, tree, m, sources, stamp, now)
  {
    StampCheckHolds(ps, m.stamp, stamp);
    SourcesUnchanged(now, m.sources);
    NoneGone(Keys(m.sources), now);
    NoStrays(ListFiles(tree, "dist/panorama"), m.files);
    LooseFilesHold(h, tree, m.files);
  }

  lemma PackCheckHolds(h: Hashes, pack: Bytes, files: Record<FileInfo>)
    ensures PackCheck(h, pack, files) == [] <==>
      && VpkFormat.Read(h, pack).Ok?
      && SameList(Paths(VpkFormat.Read(h, pack).value), Keys(files))
      && forall e <- VpkFormat.Read(h, pack).value :: EntryHolds(h, files, e)
  {
    var read := VpkFormat.Read(h, pack);
    if read.Ok? {
      PackedFilesHold(h, read.value, files);
    }
  }

  lemma VerdictHolds(h: Hashes, tree: Tree, m: Manifest, sources: seq<Source>, ps: seq<Stamp.StampProblem>,
                     stamp: string, now: Record<string>)
    ensures Verdict(h, tree, m, sources, ps, stamp, now) == []
       <==> ps == [] && Honest(h, tree, m, sources, stamp, now) && PackHonest(h, tree, m)
  {
    LooseCheckHolds(h, tree, m, sources, ps, stamp, now);
    if Get(tree, "dist/" + VPK_NAME).Some? {
      PackCheckHolds(h, Get(tree, "dist/" + VPK_NAME).value, m.files);
    }
  }

  /** No problems, exactly: the sources could be read, the stamps are right, and every list and hash agrees. */
  lemma NoProblemsIffHonest(h: Hashes, tree: Tree, m: Manifest)
    ensures Problems(h, tree, Some(m)) == Ok([]) <==>
      && Stamp.StampProblems(h, tree) == Ok([])
      && Stamp.StampOf(h, tree).Ok?
      && Sources(h, Keys(tree)).Ok?
      && var sources := Sources(h, Keys(tree)).value;
      && SourceHashes(h, tree, sources).Ok?
      && Honest(h, tree, m, sources, Stamp.StampOf(h, tree).value, SourceHashes(h, tree, sources).value)
      && PackHonest(h, tree, m)
  {
    var ps, stamp, sources := Stamp.StampProblems(h, tree), Stamp.StampOf(h, tree), Sources(h, Keys(tree));
    if ps.Ok? && stamp.Ok? && sources.Ok? {
      var now := SourceHashes(h, tree, sources.value);
      if now.Ok? {
        VerdictHolds(h, tree, m, sources.value, ps.value, stamp.value, now.value);
      }
    }
  }
}

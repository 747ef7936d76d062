/** A build leaves a tree the honesty check has nothing to say about (hud/src/cli.ts, hud/src/dist.ts). */
module BuildHonest {
  import opened Wrappers
  import opened Octets
  import opened Digests
  import opened Ordered
  import opened Sorting
  import opened Texts
  import opened Addon
  import opened Dist
  import opened Build
  import Stamp
  import VpkFormat
  import VpkPath
  import VpkRoundTrip

  // ---- What lies beside `dist/`

  predicate InDist(k: string) {
    StartsWith(k, DIST)
  }

  /** The tree without `dist/`: all the sources can be. */
  function Beside(tree: Tree): Tree {
    if tree == [] then []
    else if InDist(tree[0].0) then Beside(tree[1..])
    else [tree[0]] + Beside(tree[1..])
  }

  lemma {:induction false} GetBeside(tree: Tree, k: string)
    requires !InDist(k)
    ensures Get(Beside(tree), k) == Get(tree, k)
  {
    if tree == [] {
    } else {
      GetBeside(tree[1..], k);
    }
  }

  lemma {:induction false} PutInDist(tree: Tree, k: string, v: Bytes)
    requires InDist(k)
    ensures Beside(Put(tree, k, v)) == Beside(tree)
  {
    if tree == [] || tree[0].0 == k {
    } else {
      PutInDist(tree[1..], k, v);
    }
  }

  lemma {:induction false} RemovedBeside(tree: Tree)
    ensures Beside(Removed(tree)) == Beside(tree)
  {
    if tree == [] {
    } else {
      RemovedBeside(tree[1..]);
      PrefixOfPrefix(tree[0].0);
    }
  }

  lemma PrefixOfPrefix(k: string)
    ensures StartsWith(k, DIST + PANORAMA) ==> InDist(k)
  {
    if StartsWith(k, DIST + PANORAMA) {
      assert k[..5] == (DIST + PANORAMA)[..5] == DIST;
    }
  }

  lemma {:induction false} CopiedBeside(out: Tree, tree: Tree, listed: seq<string>)
    ensures Beside(Copied(out, tree, listed)) == Beside(tree)
    decreases |listed|
  {
    if listed == [] {
    } else {
      var front, path := listed[..|listed| - 1], PANORAMA + listed[|listed| - 1];
      CopiedBeside(out, tree, front);
      assert (DIST + path)[..5] == DIST;
      PutInDist(Copied(out, tree, front), DIST + path, Contents(out, path));
    }
  }

  /** A folder of sources. */
  predicate SourceDir(dir: string) {
    dir == "layout" || dir == "styles" || dir == "images" || dir == "banners" || dir == "art"
  }

  lemma SourceDirIsBeside(dir: string, k: string)
    requires SourceDir(dir)
    ensures StartsWith(k, dir + "/") ==> !InDist(k)
  {
    FirstChar(k, dir + "/");
    FirstChar(k, DIST);
  }

  lemma FirstChar(k: string, prefix: string)
    requires prefix != ""
    ensures StartsWith(k, prefix) ==> k != "" && k[0] == prefix[0]
  {
    if StartsWith(k, prefix) {
      assert k[..|prefix|][0] == prefix[0];
    }
  }

  lemma {:induction false} UnderBeside(tree: Tree, dir: string)
    requires SourceDir(dir)
    ensures Under(Keys(Beside(tree)), dir) == Under(Keys(tree), dir)
  {
    if tree == [] {
    } else {
      UnderBeside(tree[1..], dir);
      SourceDirIsBeside(dir, tree[0].0);
      assert Keys(tree)[0] == tree[0].0 && Keys(tree)[1..] == Keys(tree[1..]);
      if !InDist(tree[0].0) {
        var rest := Beside(tree[1..]);
        assert Keys([tree[0]] + rest)[0] == tree[0].0 && Keys([tree[0]] + rest)[1..] == Keys(rest);
      }
    }
  }

  lemma SourcesBeside(h: Hashes, tree: Tree)
    ensures Sources(h, Keys(Beside(tree))) == Sources(h, Keys(tree))
  {
    UnderBeside(tree, "layout");
    UnderBeside(tree, "styles");
    UnderBeside(tree, "images");
    UnderBeside(tree, "banners");
    UnderBeside(tree, "art");
  }

  // ---- No source is in `dist/`

  ghost predicate NoneInDist(sources: seq<Source>) {
    forall s <- sources :: !InDist(s.source)
  }

  lemma {:induction false} PlainBeside(folder: string, root: string, names: seq<string>)
    requires SourceDir(folder)
    ensures NoneInDist(Plain(folder, root, names))
  {
    if names == [] {
    } else {
      PlainBeside(folder, root, names[1..]);
      SourceDirIsBeside(folder, folder + "/" + names[0]);
      assert (folder + "/" + names[0])[..|folder| + 1] == folder + "/";
    }
  }

  lemma {:induction false} PicturesBeside(folder: string, under: string, names: seq<string>)
    requires SourceDir(folder)
    ensures NoneInDist(Pictures(folder, under, names))
  {
    if names == [] {
    } else {
      PicturesBeside(folder, under, names[1..]);
      SourceDirIsBeside(folder, folder + "/" + names[0]);
      assert (folder + "/" + names[0])[..|folder| + 1] == folder + "/";
    }
  }

  lemma MappedBeside(keys: seq<string>)
    ensures NoneInDist(Mapped(keys))
  {
    assert INFO[0] == 'a' && DIST[0] == 'd';
    assert !InDist(INFO);
    PlainBeside("layout", "panorama/layout/custom_game", FilesIn(keys, "layout", ".xml"));
    PlainBeside("styles", "panorama/styles/custom_game", FilesIn(keys, "styles", ".css"));
    PicturesBeside("images", "", FilesIn(keys, "images", ".png"));
    PicturesBeside("banners", "banners/", FilesIn(keys, "banners", ".png"));
    PicturesBeside("art", "art/", FilesIn(keys, "art", ".png"));
  }

  lemma {:induction false} LinesBeside(h: Hashes, tree: Tree, sources: seq<Source>)
    requires NoneInDist(sources)
    ensures Stamp.Lines(h, Beside(tree), sources) == Stamp.Lines(h, tree, sources)
    ensures Stamp.Labelled(Beside(tree), sources) == Stamp.Labelled(tree, sources)
    decreases |sources|
  {
    if sources == [] {
    } else {
      assert sources[0] in sources;
      assert forall s :: s in sources[1..] ==> s in sources;
      GetBeside(tree, sources[0].source);
      LinesBeside(h, tree, sources[1..]);
    }
  }

  lemma {:induction false} HashesBeside(h: Hashes, tree: Tree, sources: seq<Source>)
    requires NoneInDist(sources)
    ensures SourceHashes(h, Beside(tree), sources) == SourceHashes(h, tree, sources)
    decreases |sources|
  {
    if sources == [] {
    } else {
      var front := sources[..|sources| - 1];
      assert sources[|sources| - 1] in sources;
      assert forall s :: s in front ==> s in sources;
      GetBeside(tree, sources[|sources| - 1].source);
      HashesBeside(h, tree, front);
    }
  }

  lemma {:induction false} SaidBeside(tree: Tree, layouts: seq<string>)
    requires forall l <- layouts :: !InDist(l)
    ensures Stamp.Said(Beside(tree), layouts) == Stamp.Said(tree, layouts)
  {
    if layouts == [] {
    } else {
      assert layouts[0] in layouts;
      assert forall l :: l in layouts[1..] ==> l in layouts;
      GetBeside(tree, layouts[0]);
      SaidBeside(tree, layouts[1..]);
    }
  }

  lemma {:induction false} LabelledBeside(tree: Tree, sources: seq<Source>)
    requires NoneInDist(sources)
    ensures forall l <- Stamp.Labelled(tree, sources) :: !InDist(l)
  {
    if sources == [] {
    } else {
      assert sources[0] in sources;
      assert forall s :: s in sources[1..] ==> s in sources;
      LabelledBeside(tree, sources[1..]);
    }
  }

  lemma StampBeside(h: Hashes, tree: Tree)
    ensures Stamp.StampOf(h, Beside(tree)) == Stamp.StampOf(h, tree)
    ensures Stamp.StampProblems(h, Beside(tree)) == Stamp.StampProblems(h, tree)
  {
    SourcesBeside(h, tree);
    MappedBeside(Keys(tree));
    var sources := Sources(h, Keys(tree));
    if sources.Ok? {
      LinesBeside(h, tree, sources.value);
      LabelledBeside(tree, sources.value);
      SaidBeside(tree, Stamp.Labelled(tree, sources.value));
    }
  }

  /** Trees that agree beside `dist/` have the same sources, the same stamps and the same hashes. */
  lemma SameBeside(h: Hashes, a: Tree, b: Tree)
    requires Beside(a) == Beside(b)
    ensures Sources(h, Keys(a)) == Sources(h, Keys(b))
    ensures Stamp.StampOf(h, a) == Stamp.StampOf(h, b)
    ensures Stamp.StampProblems(h, a) == Stamp.StampProblems(h, b)
    ensures Sources(h, Keys(a)).Ok? ==>
      SourceHashes(h, a, Sources(h, Keys(a)).value) == SourceHashes(h, b, Sources(h, Keys(a)).value)
  {
    SourcesBeside(h, a);
    SourcesBeside(h, b);
    StampBeside(h, a);
    StampBeside(h, b);
    MappedBeside(Keys(a));
    if Sources(h, Keys(a)).Ok? {
      HashesBeside(h, a, Sources(h, Keys(a)).value);
      HashesBeside(h, b, Sources(h, Keys(a)).value);
    }
  }

  // ---- The copied files, the recorded ones and the packed ones

  function Target(f: string): string {
    DIST + (PANORAMA + f)
  }

  lemma PathsDiffer(a: string, b: string)
    ensures PANORAMA + a == PANORAMA + b <==> a == b
    ensures Target(a) == Target(b) <==> a == b
  {
    assert (PANORAMA + a)[|PANORAMA|..] == a && (PANORAMA + b)[|PANORAMA|..] == b;
    assert Target(a)[|DIST|..] == PANORAMA + a && Target(b)[|DIST|..] == PANORAMA + b;
  }

  lemma {:induction false} CopiedHas(out: Tree, tree: Tree, listed: seq<string>, i: nat)
    requires Unique(listed) && i < |listed|
    ensures Get(Copied(out, tree, listed), Target(listed[i])) == Some(Contents(out, PANORAMA + listed[i]))
    decreases |listed|
  {
    var n := |listed| - 1;
    var front, path := listed[..n], PANORAMA + listed[n];
    GetPut(Copied(out, tree, front), DIST + path, Contents(out, path), Target(listed[i]));
    PathsDiffer(listed[i], listed[n]);
    if i == n {
    } else {
      CopiedHas(out, tree, front, i);
    }
  }

  lemma {:induction false} CopiedAddsOnly(out: Tree, tree: Tree, listed: seq<string>, f: string)
    requires Get(Copied(out, tree, listed), Target(f)).Some?
    ensures f in listed || Get(tree, Target(f)).Some?
    decreases |listed|
  {
    if listed == [] {
    } else {
      var n := |listed| - 1;
      var front, path := listed[..n], PANORAMA + listed[n];
      GetPut(Copied(out, tree, front), DIST + path, Contents(out, path), Target(f));
      PathsDiffer(f, listed[n]);
      if f != listed[n] {
        CopiedAddsOnly(out, tree, front, f);
      }
    }
  }

  lemma {:induction false} RemovedIsGone(tree: Tree, f: string)
    ensures Get(Removed(tree), Target(f)).None?
  {
    if tree == [] {
    } else {
      RemovedIsGone(tree[1..], f);
      if tree[0].0 == Target(f) {
        assert Target(f)[..|DIST + PANORAMA|] == DIST + PANORAMA;
      }
    }
  }

  function Prefixed(listed: seq<string>): (r: seq<string>)
    ensures |r| == |listed|
    ensures forall i :: 0 <= i < |listed| ==> r[i] == PANORAMA + listed[i]
  {
    seq(|listed|, i requires 0 <= i < |listed| => PANORAMA + listed[i])
  }

  lemma {:induction false} RecordedKeys(h: Hashes, out: Tree, listed: seq<string>)
    requires Unique(listed)
    ensures Keys(Recorded(h, out, listed)) == Prefixed(listed)
    decreases |listed|
  {
    if listed == [] {
    } else {
      var n := |listed| - 1;
      var front, path := listed[..n], PANORAMA + listed[n];
      RecordedKeys(h, out, front);
      forall i | 0 <= i < n ensures Prefixed(front)[i] != path {
        PathsDiffer(listed[i], listed[n]);
      }
      PutNewKey(Recorded(h, out, front), path, InfoOf(h, Contents(out, path)));
      KeysAppend(Recorded(h, out, front), path, InfoOf(h, Contents(out, path)));
      assert Prefixed(listed) == Prefixed(front) + [path];
    }
  }

  lemma KeysAppend<V>(m: Record<V>, k: string, v: V)
    ensures Keys(m + [(k, v)]) == Keys(m) + [k]
  {
  }

  lemma PrefixedIsUnique(listed: seq<string>)
    requires Unique(listed)
    ensures Unique(Prefixed(listed))
  {
    forall i, j | 0 <= i < j < |listed| ensures Prefixed(listed)[i] != Prefixed(listed)[j] {
      PathsDiffer(listed[i], listed[j]);
    }
  }

  lemma {:induction false} RecordedGet(h: Hashes, out: Tree, listed: seq<string>, i: nat)
    requires Unique(listed) && i < |listed|
    ensures Get(Recorded(h, out, listed), PANORAMA + listed[i]) == Some(InfoOf(h, Contents(out, PANORAMA + listed[i])))
    decreases |listed|
  {
    var n := |listed| - 1;
    var front, path := listed[..n], PANORAMA + listed[n];
    GetPut(Recorded(h, out, front), path, InfoOf(h, Contents(out, path)), PANORAMA + listed[i]);
    PathsDiffer(listed[i], listed[n]);
    if i == n {
    } else {
      RecordedGet(h, out, front, i);
    }
  }

  // ---- Listings have no duplicates

  lemma {:induction false} UnderIsUnique(keys: seq<string>, dir: string)
    requires Unique(keys)
    ensures Unique(Under(keys, dir))
  {
    if keys == [] {
    } else {
      UnderIsUnique(keys[1..], dir);
      if StartsWith(keys[0], dir + "/") {
        var f := keys[0][|dir| + 1..];
        assert keys[0] == dir + "/" + f;
        UnderHolds(keys[1..], dir, f);
        assert keys[0] !in keys[1..];
      }
    }
  }

  lemma ListingIsUnique(tree: Tree, dir: string)
    requires Unique(Keys(tree))
    ensures Unique(ListFiles(tree, dir))
  {
    UnderIsUnique(Keys(tree), dir);
    SameMultisetIsUnique(ListFiles(tree, dir), Under(Keys(tree), dir));
  }

  // ---- The manifest's sources

  lemma PutKeepsUnique<V>(m: Record<V>, k: string, v: V)
    requires Unique(Keys(m))
    ensures Unique(Keys(Put(m, k, v)))
  {
    if k in Keys(m) {
      PutKeepsKeys(m, k, v);
    } else {
      PutNewKey(m, k, v);
      KeysAppend(m, k, v);
    }
  }

  lemma {:induction false} HashesAreUnique(h: Hashes, tree: Tree, sources: seq<Source>)
    ensures SourceHashes(h, tree, sources).Ok? ==> Unique(Keys(SourceHashes(h, tree, sources).value))
    decreases |sources|
  {
    if sources == [] {
    } else {
      var front := sources[..|sources| - 1];
      HashesAreUnique(h, tree, front);
      var last := sources[|sources| - 1].source;
      if SourceHashes(h, tree, front).Ok? && Get(tree, last).Some? {
        PutKeepsUnique(SourceHashes(h, tree, front).value, last, h.sha256(Get(tree, last).value));
      }
    }
  }

  lemma OwnHashesAgree(now: Record<string>)
    requires Unique(Keys(now))
    ensures forall i: nat :: i < |now| ==> Get(now, now[i].0) == Some(now[i].1)
  {
    forall i: nat | i < |now| {
      MemberIsGet(now, i);
    }
  }

  lemma KeysAreFound(now: Record<string>)
    ensures forall k <- Keys(now) :: Get(now, k).Some?
  {
    forall k | k in Keys(now) ensures Get(now, k).Some? {
      GetIsMember(now, k);
    }
  }

  // ---- The theorem

  /** The compiler's output, as paths in the addon. */
  function OutputPaths(out: Tree): seq<string> {
    Prefixed(ListFiles(out, "panorama"))
  }

  /** What a build that goes through needs: stable labels, one of them at least, readable lower-case sources, and a
      compiler that makes one file for each compiled path, with names and sizes the pack can hold. */
  ghost predicate Buildable(h: Hashes, tree: Tree, tools: Tools, out: Tree) {
    && Stamp.StampOf(h, tree).Ok? && Stamp.AllStable(h, tree)
    && Stamp.StampedLayouts(h, tree).value != []
    && var stamped := Stamp.StampLayouts(h, tree);
    && stamped.Ok?
    && var sources := Sources(h, Keys(tree)).value;
    && tools.compile(Staged(stamped.value.0, sources, tools.vtexFor)) == Some(out)
    && Unique(Keys(out))
    && multiset(CompiledPaths(sources)) == multiset(OutputPaths(out))
    && VpkFormat.Written(h, Packed(out, ListFiles(out, "panorama"))).Ok?
    && forall p <- OutputPaths(out) :: VpkPath.Readable(p) && VpkPath.Whole(p)
  }

  /** The loose half of the check, on the tree before the pack is added and after. */
  lemma LooseHalf(h: Hashes, out: Tree, tree: Tree, pack: Bytes)
    requires Unique(Keys(out))
    ensures var listed := ListFiles(out, "panorama");
      var after := Put(Copied(out, Removed(tree), listed), DIST + VPK_NAME, pack);
      var files := Recorded(h, out, listed);
      && (forall f <- ListFiles(after, "dist/panorama") :: Get(files, "panorama/" + f).Some?)
      && (forall i :: 0 <= i < |files| ==> LooseHolds(h, after, files[i].0, files[i].1))
      && Get(after, DIST + VPK_NAME) == Some(pack)
      && Beside(after) == Beside(tree)
  {
    var listed := ListFiles(out, "panorama");
    var copied := Copied(out, Removed(tree), listed);
    var after := Put(copied, DIST + VPK_NAME, pack);
    ListingIsUnique(out, "panorama");
    GetPut(copied, DIST + VPK_NAME, pack, DIST + VPK_NAME);
    assert (DIST + VPK_NAME)[..5] == DIST;
    PutInDist(copied, DIST + VPK_NAME, pack);
    CopiedBeside(out, Removed(tree), listed);
    RemovedBeside(tree);
    forall f | f in ListFiles(after, "dist/panorama") ensures Get(Recorded(h, out, listed), "panorama/" + f).Some? {
      ListedWasCopied(out, tree, listed, pack, f);
      var i :| 0 <= i < |listed| && listed[i] == f;
      RecordedGet(h, out, listed, i);
    }
    RecordedKeys(h, out, listed);
    forall i | 0 <= i < |listed|
      ensures LooseHolds(h, after, Recorded(h, out, listed)[i].0, Recorded(h, out, listed)[i].1)
    {
      RecordedHolds(h, out, tree, listed, pack, i);
    }
  }

  lemma PackIsElsewhere(f: string)
    ensures Target(f) != DIST + VPK_NAME
  {
    assert Target(f)[5] == 'p' && (DIST + VPK_NAME)[5] == 'e';
  }

  lemma ListedWasCopied(out: Tree, tree: Tree, listed: seq<string>, pack: Bytes, f: string)
    requires f in ListFiles(Put(Copied(out, Removed(tree), listed), DIST + VPK_NAME, pack), "dist/panorama")
    ensures f in listed
  {
    var copied := Copied(out, Removed(tree), listed);
    ListedIsThere(Put(copied, DIST + VPK_NAME, pack), f);
    GetPut(copied, DIST + VPK_NAME, pack, Target(f));
    PackIsElsewhere(f);
    CopiedAddsOnly(out, Removed(tree), listed, f);
    RemovedIsGone(tree, f);
  }

  lemma ListedIsThere(tree: Tree, f: string)
    requires f in ListFiles(tree, "dist/panorama")
    ensures Get(tree, Target(f)).Some?
  {
    SameElements(ListFiles(tree, "dist/panorama"), Under(Keys(tree), "dist/panorama"));
    UnderHolds(Keys(tree), "dist/panorama", f);
    assert "dist/panorama" + "/" + f == Target(f);
    GetIsMember(tree, Target(f));
  }

  lemma RecordedHolds(h: Hashes, out: Tree, tree: Tree, listed: seq<string>, pack: Bytes, i: nat)
    requires Unique(listed) && i < |listed| && Keys(Recorded(h, out, listed)) == Prefixed(listed)
    ensures var (path, info) := Recorded(h, out, listed)[i];
      LooseHolds(h, Put(Copied(out, Removed(tree), listed), DIST + VPK_NAME, pack), path, info)
  {
    var copied := Copied(out, Removed(tree), listed);
    var files := Recorded(h, out, listed);
    assert files[i].0 == Keys(files)[i] == PANORAMA + listed[i];
    PrefixedIsUnique(listed);
    MemberIsGet(files, i);
    RecordedGet(h, out, listed, i);
    CopiedHas(out, Removed(tree), listed, i);
    GetPut(copied, DIST + VPK_NAME, pack, Target(listed[i]));
    PackIsElsewhere(listed[i]);
  }

  /** The packed half of the check: the round trip gives back every file under its own path. */
  lemma PackHalf(h: Hashes, out: Tree, listed: seq<string>)
    requires Unique(listed)
    requires VpkFormat.Written(h, Packed(out, listed)).Ok?
    requires forall p <- Prefixed(listed) :: VpkPath.Readable(p) && VpkPath.Whole(p)
    ensures var read := VpkFormat.Read(h, VpkFormat.Written(h, Packed(out, listed)).value);
      && read.Ok?
      && SameList(Paths(read.value), Keys(Recorded(h, out, listed)))
      && forall e <- read.value :: EntryHolds(h, Recorded(h, out, listed), e)
  {
    PackedComesBack(h, out, listed);
    EntriesAgree(h, out, listed, VpkRoundTrip.TreeOrder(Packed(out, listed)));
  }

  lemma EntriesAgree(h: Hashes, out: Tree, listed: seq<string>, order: seq<VpkFormat.File>)
    requires Unique(listed) && multiset(order) == multiset(Packed(out, listed))
    ensures var entries := VpkRoundTrip.Originals(h, order);
      && SameList(Paths(entries), Keys(Recorded(h, out, listed)))
      && forall e <- entries :: EntryHolds(h, Recorded(h, out, listed), e)
  {
    RecordedKeys(h, out, listed);
    PathsFollow(h, order, Packed(out, listed), Prefixed(listed));
    SortTextsIsCanonical(Paths(VpkRoundTrip.Originals(h, order)), Prefixed(listed));
    SameElements(order, Packed(out, listed));
    EntriesHold(h, out, listed, order);
  }

  lemma PackedComesBack(h: Hashes, out: Tree, listed: seq<string>)
    requires VpkFormat.Written(h, Packed(out, listed)).Ok?
    requires forall p <- Prefixed(listed) :: VpkPath.Readable(p) && VpkPath.Whole(p)
    ensures var files := Packed(out, listed);
      VpkFormat.Read(h, VpkFormat.Written(h, files).value)
      == Ok(VpkRoundTrip.Originals(h, VpkRoundTrip.TreeOrder(files)))
  {
    var files := Packed(out, listed);
    forall f | f in files ensures VpkPath.Readable(f.path) && VpkPath.Whole(f.path) {
      var i :| 0 <= i < |files| && files[i] == f;
      assert f.path == Prefixed(listed)[i];
    }
    VpkRoundTrip.ReadableRoundTrip(h, files);
  }

  lemma EntriesHold(h: Hashes, out: Tree, listed: seq<string>, order: seq<VpkFormat.File>)
    requires Unique(listed) && forall f <- order :: f in Packed(out, listed)
    ensures forall e <- VpkRoundTrip.Originals(h, order) :: EntryHolds(h, Recorded(h, out, listed), e)
  {
    var entries := VpkRoundTrip.Originals(h, order);
    forall e | e in entries ensures EntryHolds(h, Recorded(h, out, listed), e) {
      var j :| 0 <= j < |entries| && entries[j] == e;
      assert order[j] in Packed(out, listed);
      var i :| 0 <= i < |listed| && Packed(out, listed)[i] == order[j];
      RecordedGet(h, out, listed, i);
    }
  }

  lemma PathsFollow(h: Hashes, order: seq<VpkFormat.File>, files: seq<VpkFormat.File>, paths: seq<string>)
    requires multiset(order) == multiset(files)
    requires VpkRoundTrip.PathsOf(files) == paths
    ensures multiset(Paths(VpkRoundTrip.Originals(h, order))) == multiset(paths)
  {
    assert Paths(VpkRoundTrip.Originals(h, order)) == VpkRoundTrip.PathsOf(order);
    VpkRoundTrip.SamePaths(order, files);
  }

  /** What a build leaves passes the check it ends with, so it never dies of dishonesty. */
  lemma BuildIsHonest(h: Hashes, tree: Tree, manifest: Option<Manifest>, tools: Tools, out: Tree)
    requires Buildable(h, tree, tools, out)
    ensures var done := Built(h, tree, manifest, tools);
      && done.error == None
      && done.manifest.Some?
      && Problems(h, done.tree, done.manifest) == Ok([])
  {
    Stamp.StampIsFixedPoint(h, tree);
    var (stamped, stamp) := Stamp.StampLayouts(h, tree).value;
    var sources := Sources(h, Keys(tree)).value;
    var listed := ListFiles(out, "panorama");
    var pack := VpkFormat.Written(h, Packed(out, listed)).value;
    var after := Put(Copied(out, Removed(stamped), listed), DIST + VPK_NAME, pack);
    LooseHalf(h, out, stamped, pack);
    SameBeside(h, after, stamped);
    HashesOfStamped(h, after);
    PackagedIsHonest(h, out, stamped, after, pack, sources, stamp, tools.compiler);
  }

  /** A tree whose stamp can be taken has all its sources. */
  lemma HashesOfStamped(h: Hashes, tree: Tree)
    requires Stamp.StampOf(h, tree).Ok?
    ensures Sources(h, Keys(tree)).Ok? && SourceHashes(h, tree, Sources(h, Keys(tree)).value).Ok?
  {
    var sources := Sources(h, Keys(tree)).value;
    LinesNeedAll(h, tree, sources);
    HashesNeedAll(h, tree, sources);
  }

  lemma {:induction false} LinesNeedAll(h: Hashes, tree: Tree, sources: seq<Source>)
    requires Stamp.Lines(h, tree, sources).Ok?
    ensures forall s <- sources :: Get(tree, s.source).Some?
  {
    if sources == [] {
    } else {
      LinesNeedAll(h, tree, sources[1..]);
      assert sources == [sources[0]] + sources[1..];
    }
  }

  lemma {:induction false} HashesNeedAll(h: Hashes, tree: Tree, sources: seq<Source>)
    requires forall s <- sources :: Get(tree, s.source).Some?
    ensures SourceHashes(h, tree, sources).Ok?
    decreases |sources|
  {
    if sources == [] {
    } else {
      var front := sources[..|sources| - 1];
      assert sources[|sources| - 1] in sources && forall s :: s in front ==> s in sources;
      HashesNeedAll(h, tree, front);
    }
  }

  lemma PackagedIsHonest(h: Hashes, out: Tree, stamped: Tree, after: Tree, pack: Bytes, sources: seq<Source>,
                         stamp: string, compiler: string)
    requires Unique(Keys(out))
    requires var listed := ListFiles(out, "panorama");
      && VpkFormat.Written(h, Packed(out, listed)) == Ok(pack)
      && (forall p <- Prefixed(listed) :: VpkPath.Readable(p) && VpkPath.Whole(p))
      && multiset(CompiledPaths(sources)) == multiset(Prefixed(listed))
      && after == Put(Copied(out, Removed(stamped), listed), DIST + VPK_NAME, pack)
    requires Sources(h, Keys(after)) == Ok(sources) && SourceHashes(h, after, sources).Ok?
    requires Stamp.StampOf(h, after) == Ok(stamp) && Stamp.StampProblems(h, after) == Ok([])
    ensures Problems(h, after, Some(ManifestOf(h, out, after, pack, sources, stamp, compiler))) == Ok([])
  {
    var m := ManifestOf(h, out, after, pack, sources, stamp, compiler);
    LooseIsHonest(h, out, stamped, after, pack, sources, stamp, compiler);
    PackIsHonest(h, out, stamped, after, pack, sources, stamp, compiler);
    NoProblemsIffHonest(h, after, m);
  }

  function ManifestOf(h: Hashes, out: Tree, after: Tree, pack: Bytes, sources: seq<Source>, stamp: string,
                      compiler: string): Manifest
    requires SourceHashes(h, after, sources).Ok?
  {
    Manifest(compiler, SourceHashes(h, after, sources).value, Recorded(h, out, ListFiles(out, "panorama")),
             PackInfo(VPK_NAME, h.sha256(pack), |pack|), Some(stamp))
  }

  lemma LooseIsHonest(h: Hashes, out: Tree, stamped: Tree, after: Tree, pack: Bytes, sources: seq<Source>,
                      stamp: string, compiler: string)
    requires Unique(Keys(out)) && SourceHashes(h, after, sources).Ok?
    requires multiset(CompiledPaths(sources)) == multiset(Prefixed(ListFiles(out, "panorama")))
    requires after == Put(Copied(out, Removed(stamped), ListFiles(out, "panorama")), DIST + VPK_NAME, pack)
    ensures Honest(h, after, ManifestOf(h, out, after, pack, sources, stamp, compiler), sources, stamp,
                   SourceHashes(h, after, sources).value)
  {
    var now := SourceHashes(h, after, sources).value;
    LooseHalf(h, out, stamped, pack);
    HashesAreUnique(h, after, sources);
    OwnHashesAgree(now);
    KeysAreFound(now);
    ListingIsUnique(out, "panorama");
    RecordedKeys(h, out, ListFiles(out, "panorama"));
    SortTextsIsCanonical(CompiledPaths(sources), Prefixed(ListFiles(out, "panorama")));
  }

  lemma PackIsHonest(h: Hashes, out: Tree, stamped: Tree, after: Tree, pack: Bytes, sources: seq<Source>,
                     stamp: string, compiler: string)
    requires Unique(Keys(out)) && SourceHashes(h, after, sources).Ok?
    requires VpkFormat.Written(h, Packed(out, ListFiles(out, "panorama"))) == Ok(pack)
    requires forall p <- Prefixed(ListFiles(out, "panorama")) :: VpkPath.Readable(p) && VpkPath.Whole(p)
    requires after == Put(Copied(out, Removed(stamped), ListFiles(out, "panorama")), DIST + VPK_NAME, pack)
    ensures PackHonest(h, after, ManifestOf(h, out, after, pack, sources, stamp, compiler))
  {
    ListingIsUnique(out, "panorama");
    LooseHalf(h, out, stamped, pack);
    PackHalf(h, out, ListFiles(out, "panorama"));
  }
}

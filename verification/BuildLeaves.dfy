/** What a build leaves on the disk and in the manifest, path by path, and what it leaves when it stops
    (hud/src/cli.ts). */
module BuildLeaves {
  import opened Wrappers
  import opened Octets
  import opened Digests
  import opened Ordered
  import opened Sorting
  import opened Texts
  import opened Addon
  import opened Dist
  import opened Build
  import BuildHonest
  import Stamp
  import VpkFormat

  // ---- Path by path

  predicate InPanorama(p: string) {
    StartsWith(p, "panorama/")
  }

  predicate InDistPanorama(q: string) {
    StartsWith(q, "dist/panorama/")
  }

  lemma Names(f: string)
    ensures BuildHonest.Target(f) == "dist/panorama/" + f && InDistPanorama(BuildHonest.Target(f))
    ensures InPanorama("panorama/" + f) && ("panorama/" + f)[9..] == f
  {
    assert BuildHonest.Target(f)[..14] == "dist/panorama/";
  }

  lemma Behind(q: string)
    ensures InDistPanorama(q) ==> InPanorama(q[5..]) && q == BuildHonest.Target(q[14..])
    ensures InPanorama(q) ==> q == "panorama/" + q[9..]
  {
    if InDistPanorama(q) {
      assert q[5..][..9] == q[..14][5..] == "panorama/";
      assert q == q[..14] + q[14..];
    }
  }

  /** What the compiler left under `panorama/` is what is listed. */
  lemma Listed(out: Tree, f: string)
    ensures f in ListFiles(out, "panorama") <==> Get(out, "panorama/" + f).Some?
  {
    SameElements(ListFiles(out, "panorama"), Under(Keys(out), "panorama"));
    UnderHolds(Keys(out), "panorama", f);
    assert "panorama" + "/" + f == "panorama/" + f;
    GetIsMember(out, "panorama/" + f);
  }

  lemma {:induction false} RemovedLeaves(tree: Tree, q: string)
    ensures Get(Removed(tree), q) == if InDistPanorama(q) then None else Get(tree, q)
  {
    if tree == [] {
    } else {
      RemovedLeaves(tree[1..], q);
      assert DIST + PANORAMA == "dist/panorama/";
    }
  }

  lemma {:induction false} CopiedLeaves(out: Tree, tree: Tree, listed: seq<string>, q: string)
    ensures Get(Copied(out, tree, listed), q)
         == if InDistPanorama(q) && q[14..] in listed then Some(Contents(out, q[5..])) else Get(tree, q)
    decreases |listed|
  {
    if listed == [] {
    } else {
      var front, f := listed[..|listed| - 1], listed[|listed| - 1];
      CopiedLeaves(out, tree, front, q);
      GetPut(Copied(out, tree, front), DIST + (PANORAMA + f), Contents(out, PANORAMA + f), q);
      assert listed == front + [f];
      Names(f);
      Behind(q);
    }
  }

  lemma {:induction false} RecordedIs(h: Hashes, out: Tree, listed: seq<string>, p: string)
    ensures Get(Recorded(h, out, listed), p)
         == if InPanorama(p) && p[9..] in listed
            then Some(FileInfo(h.sha256(Contents(out, p)), |Contents(out, p)|)) else None
    decreases |listed|
  {
    if listed == [] {
    } else {
      var front, f := listed[..|listed| - 1], listed[|listed| - 1];
      RecordedIs(h, out, front, p);
      GetPut(Recorded(h, out, front), PANORAMA + f, InfoOf(h, Contents(out, PANORAMA + f)), p);
      assert listed == front + [f];
      Names(f);
      Behind(p);
    }
  }

  lemma {:induction false} HashesAre(h: Hashes, tree: Tree, sources: seq<Source>, p: string)
    requires SourceHashes(h, tree, sources).Ok?
    ensures Get(SourceHashes(h, tree, sources).value, p)
         == if exists s <- sources :: s.source == p then Some(h.sha256(Contents(tree, p))) else None
    decreases |sources|
  {
    if sources == [] {
    } else {
      var front, last := sources[..|sources| - 1], sources[|sources| - 1];
      HashesAre(h, tree, front, p);
      GetPut(SourceHashes(h, tree, front).value, last.source, h.sha256(Contents(tree, last.source)), p);
      assert sources == front + [last];
      assert last in sources && forall s :: s in front ==> s in sources;
    }
  }

  // ---- What a finished build leaves

  /** `hud/` with the compiler's output for `dist/panorama/`, old files gone, and the pack. */
  ghost predicate LeavesOutput(done: Tree, stamped: Tree, out: Tree, pack: Option<Bytes>) {
    forall q :: Get(done, q)
      == if q == "dist/ezpug_hud.vpk" && pack.Some? then pack
         else if InDistPanorama(q) then Get(out, q[5..])
         else Get(stamped, q)
  }

  function InfoFor(h: Hashes, out: Tree, p: string): Option<FileInfo> {
    if InPanorama(p) && Get(out, p).Some? then Some(FileInfo(h.sha256(Contents(out, p)), |Contents(out, p)|)) else None
  }

  ghost function HashFor(h: Hashes, stamped: Tree, sources: seq<Source>, p: string): Option<string> {
    if exists s <- sources :: s.source == p then Some(h.sha256(Contents(stamped, p))) else None
  }

  /** Every compiled file and every source with its hash, and no others; the pack, the compiler and the stamp. */
  ghost predicate Records(h: Hashes, m: Manifest, stamped: Tree, sources: seq<Source>, out: Tree, pack: Bytes) {
    && (forall p :: Get(m.files, p) == InfoFor(h, out, p))
    && (forall p :: Get(m.sources, p) == HashFor(h, stamped, sources, p))
    && m.pack == PackInfo("ezpug_hud.vpk", h.sha256(pack), |pack|)
  }

  /** The pack is of the compiler's output under `panorama/`. */
  ghost predicate PacksOutput(files: seq<VpkFormat.File>, out: Tree) {
    forall f :: f in files <==> InPanorama(f.path) && Get(out, f.path) == Some(f.data)
  }

  lemma CopiedIs(stamped: Tree, out: Tree)
    ensures LeavesOutput(Copied(out, Removed(stamped), ListFiles(out, "panorama")), stamped, out, None)
  {
    var listed := ListFiles(out, "panorama");
    forall q ensures Get(Copied(out, Removed(stamped), listed), q)
                  == if InDistPanorama(q) then Get(out, q[5..]) else Get(stamped, q)
    {
      CopiedLeaves(out, Removed(stamped), listed, q);
      RemovedLeaves(stamped, q);
      Behind(q);
      if InDistPanorama(q) {
        Listed(out, q[14..]);
        assert q[5..] == "panorama/" + q[14..];
      }
    }
  }

  lemma PackedAre(out: Tree)
    ensures PacksOutput(Packed(out, ListFiles(out, "panorama")), out)
  {
    var listed := ListFiles(out, "panorama");
    var files := Packed(out, listed);
    forall f ensures f in files <==> InPanorama(f.path) && Get(out, f.path) == Some(f.data) {
      if f in files {
        var i :| 0 <= i < |files| && files[i] == f;
        Listed(out, listed[i]);
        Names(listed[i]);
      }
      if InPanorama(f.path) && Get(out, f.path) == Some(f.data) {
        Behind(f.path);
        Listed(out, f.path[9..]);
        var i :| 0 <= i < |listed| && listed[i] == f.path[9..];
        assert files[i] == f;
      }
    }
  }

  lemma RecordedAre(h: Hashes, out: Tree)
    ensures forall p :: Get(Recorded(h, out, ListFiles(out, "panorama")), p) == InfoFor(h, out, p)
  {
    forall p ensures Get(Recorded(h, out, ListFiles(out, "panorama")), p) == InfoFor(h, out, p) {
      RecordedIs(h, out, ListFiles(out, "panorama"), p);
      Behind(p);
      if InPanorama(p) {
        Listed(out, p[9..]);
      }
    }
  }

  function After(stamped: Tree, out: Tree, pack: Bytes): Tree {
    Put(Copied(out, Removed(stamped), ListFiles(out, "panorama")), DIST + VPK_NAME, pack)
  }

  lemma AfterIs(stamped: Tree, out: Tree, pack: Bytes)
    ensures LeavesOutput(After(stamped, out, pack), stamped, out, Some(pack))
  {
    var copied := Copied(out, Removed(stamped), ListFiles(out, "panorama"));
    CopiedIs(stamped, out);
    assert DIST + VPK_NAME == "dist/ezpug_hud.vpk";
    forall q
      ensures Get(After(stamped, out, pack), q) == if q == "dist/ezpug_hud.vpk" then Some(pack) else Get(copied, q)
    {
      GetPut(copied, DIST + VPK_NAME, pack, q);
    }
  }

  lemma AfterBeside(stamped: Tree, out: Tree, pack: Bytes)
    ensures BuildHonest.Beside(After(stamped, out, pack)) == BuildHonest.Beside(stamped)
  {
    var listed := ListFiles(out, "panorama");
    assert (DIST + VPK_NAME)[..5] == DIST;
    BuildHonest.PutInDist(Copied(out, Removed(stamped), listed), DIST + VPK_NAME, pack);
    BuildHonest.CopiedBeside(out, Removed(stamped), listed);
    BuildHonest.RemovedBeside(stamped);
  }

  /** The sources the manifest records are the stamped ones. */
  lemma SourcesAfter(h: Hashes, stamped: Tree, out: Tree, pack: Bytes, sources: seq<Source>)
    requires Sources(h, Keys(stamped)) == Ok(sources) && forall s <- sources :: Get(stamped, s.source).Some?
    ensures var after := After(stamped, out, pack);
      && Sources(h, Keys(after)) == Ok(sources) && SourceHashes(h, after, sources).Ok?
      && forall p :: Get(SourceHashes(h, after, sources).value, p) == HashFor(h, stamped, sources, p)
  {
    AfterBeside(stamped, out, pack);
    BuildHonest.SameBeside(h, After(stamped, out, pack), stamped);
    BuildHonest.HashesNeedAll(h, stamped, sources);
    forall p ensures Get(SourceHashes(h, stamped, sources).value, p) == HashFor(h, stamped, sources, p) {
      HashesAre(h, stamped, sources, p);
    }
  }

  lemma PackagedIs(h: Hashes, stamped: Tree, manifest: Option<Manifest>, out: Tree, stamp: string, compiler: string,
                   pack: Bytes, sources: seq<Source>)
    requires VpkFormat.Written(h, Packed(out, ListFiles(out, "panorama"))) == Ok(pack)
    requires var after := After(stamped, out, pack);
      Sources(h, Keys(after)) == Ok(sources) && SourceHashes(h, after, sources).Ok?
    ensures var after := After(stamped, out, pack);
      Packaged(h, stamped, manifest, out, stamp, compiler)
      == Checked(h, after, Manifest(compiler, SourceHashes(h, after, sources).value,
                                    Recorded(h, out, ListFiles(out, "panorama")),
                                    PackInfo("ezpug_hud.vpk", h.sha256(pack), |pack|), Some(stamp)))
  {
  }

  lemma BuiltIs(h: Hashes, tree: Tree, manifest: Option<Manifest>, tools: Tools, sources: seq<Source>,
                stamped: Tree, stamp: string, out: Tree)
    requires Stamp.StampLayouts(h, tree) == Ok((stamped, stamp)) && Sources(h, Keys(stamped)) == Ok(sources)
    requires tools.compile(Staged(stamped, sources, tools.vtexFor)) == Some(out)
    ensures Built(h, tree, manifest, tools) == Packaged(h, stamped, manifest, out, stamp, tools.compiler)
  {
  }

  /** Stamping neither adds nor takes a file, and it needs every source. */
  lemma StampingKeepsFiles(h: Hashes, tree: Tree, sources: seq<Source>)
    requires Stamp.StampLayouts(h, tree).Ok? && Sources(h, Keys(tree)) == Ok(sources)
    ensures var stamped := Stamp.StampLayouts(h, tree).value.0;
      Keys(stamped) == Keys(tree) && forall s <- sources :: Get(stamped, s.source).Some?
  {
    var (stamped, stamp) := Stamp.StampLayouts(h, tree).value;
    Stamp.LabelledAre(tree, sources);
    BuildHonest.LinesNeedAll(h, tree, sources);
    Stamp.WriteStampsRewrites(tree, Stamp.Labelled(tree, sources), stamp, "");
    forall s | s in sources ensures Get(stamped, s.source).Some? {
      Stamp.WriteStampsRewrites(tree, Stamp.Labelled(tree, sources), stamp, s.source);
    }
  }

  /**
   * Whatever the compiler's output, once it can be packed: the build leaves the stamped sources, that output loose and
   * packed, and a manifest of both; it ends well exactly when the check of what it left finds nothing.
   */
  lemma BuildLeaves(h: Hashes, tree: Tree, manifest: Option<Manifest>, tools: Tools, sources: seq<Source>,
                    stamped: Tree, stamp: string, out: Tree)
    requires Stamp.StampLayouts(h, tree) == Ok((stamped, stamp)) && Sources(h, Keys(tree)) == Ok(sources)
    requires tools.compile(Staged(stamped, sources, tools.vtexFor)) == Some(out)
    requires VpkFormat.Written(h, Packed(out, ListFiles(out, "panorama"))).Ok?
    ensures var done := Built(h, tree, manifest, tools);
      var files := Packed(out, ListFiles(out, "panorama")); var pack := VpkFormat.Written(h, files).value;
      && PacksOutput(files, out)
      && LeavesOutput(done.tree, stamped, out, Some(pack))
      && done.manifest.Some? && Records(h, done.manifest.value, stamped, sources, out, pack)
      && done.manifest.value.compiler == tools.compiler && done.manifest.value.stamp == Some(stamp)
      && done.error == match Problems(h, done.tree, done.manifest) {
           case Ok(problems) => if problems == [] then None else Some(NotHonest(problems))
           case Err(fault) => Some(Stopped(fault))
         }
  {
    var pack := VpkFormat.Written(h, Packed(out, ListFiles(out, "panorama"))).value;
    StampingKeepsFiles(h, tree, sources);
    AfterIs(stamped, out, pack);
    SourcesAfter(h, stamped, out, pack, sources);
    BuiltIs(h, tree, manifest, tools, sources, stamped, stamp, out);
    PackagedIs(h, stamped, manifest, out, stamp, tools.compiler, pack, sources);
    PackedAre(out);
    RecordedAre(h, out);
  }

  /** A build that stops keeps the old manifest: nothing is touched before the stamp is known, only the layouts before
      the compiler has answered, and only the loose files before there is a pack. */
  lemma BuildStops(h: Hashes, tree: Tree, manifest: Option<Manifest>, tools: Tools)
    ensures var stamping, done := Stamp.StampLayouts(h, tree), Built(h, tree, manifest, tools);
      && (stamping.Err? ==> done == Outcome(tree, manifest, Some(Stopped(stamping.error))))
      && (stamping.Ok? ==>
        var stamped := stamping.value.0;
        && Sources(h, Keys(stamped)) == Sources(h, Keys(tree)) && Sources(h, Keys(tree)).Ok?
        && var out := tools.compile(Staged(stamped, Sources(h, Keys(tree)).value, tools.vtexFor));
        && (out.None? ==> done == Outcome(stamped, manifest, Some(CompileFailed)))
        && (out.Some? ==>
          var pack := VpkFormat.Written(h, Packed(out.value, ListFiles(out.value, "panorama")));
          pack.Err? ==>
            && LeavesOutput(done.tree, stamped, out.value, None)
            && done.manifest == manifest && done.error == Some(PackFailed(pack.error))))
  {
    var stamping := Stamp.StampLayouts(h, tree);
    if stamping.Ok? {
      StampingKeepsFiles(h, tree, Sources(h, Keys(tree)).value);
      var stamped := stamping.value.0;
      var out := tools.compile(Staged(stamped, Sources(h, Keys(tree)).value, tools.vtexFor));
      if out.Some? {
        CopiedIs(stamped, out.value);
      }
    }
  }
}

/** What the compiler is given: every source under its addon path, stamped, and a descriptor beside each picture. */
module BuildStage {
  import opened Wrappers
  import opened Octets
  import opened Digests
  import opened Ordered
  import opened Addon
  import opened Build
  import opened Dist
  import opened StampRewrite
  import BuildHonest
  import Stamp
  import StampSees
  import Utf8
  import VpkFormat

  // ---- The staged folder

  /** A source puts a file at this path: itself, or its texture descriptor. */
  predicate PutsAt(s: Source, p: string) {
    s.addonPath == p || s.vtex == Some(p)
  }

  /** No two sources put a file at the same path, and no picture its descriptor over itself. */
  ghost predicate StageApart(sources: seq<Source>) {
    && (forall s <- sources :: s.vtex != Some(s.addonPath))
    && forall i, j, p :: 0 <= i < j < |sources| && PutsAt(sources[i], p) ==> !PutsAt(sources[j], p)
  }

  lemma {:induction false} StagedHasOnly(tree: Tree, sources: seq<Source>, vtexFor: string -> Bytes, p: string)
    ensures Get(Staged(tree, sources, vtexFor), p).Some? <==> exists s <- sources :: PutsAt(s, p)
    decreases |sources|
  {
    if sources == [] {
    } else {
      var s, front := sources[|sources| - 1], sources[..|sources| - 1];
      var before := Staged(tree, front, vtexFor);
      StagedHasOnly(tree, front, vtexFor, p);
      GetPut(before, s.addonPath, Contents(tree, s.source), p);
      if s.vtex.Some? {
        GetPut(Put(before, s.addonPath, Contents(tree, s.source)), s.vtex.value, vtexFor(s.addonPath), p);
      }
      LastOrFront(sources, p);
    }
  }

  lemma LastOrFront(sources: seq<Source>, p: string)
    requires sources != []
    ensures (exists s <- sources :: PutsAt(s, p))
       <==> PutsAt(sources[|sources| - 1], p) || exists s <- sources[..|sources| - 1] :: PutsAt(s, p)
  {
    var last, front := sources[|sources| - 1], sources[..|sources| - 1];
    assert sources == front + [last];
    if s :| s in front && PutsAt(s, p) {
      assert s in sources;
    }
  }

  /** The last source that puts a file somewhere decides what is there. */
  lemma {:induction false} StagedIsTheLast(tree: Tree, sources: seq<Source>, vtexFor: string -> Bytes, i: nat,
                                           p: string)
    requires i < |sources| && PutsAt(sources[i], p)
    requires forall j :: i < j < |sources| ==> !PutsAt(sources[j], p)
    ensures Get(Staged(tree, sources, vtexFor), p)
         == Some(if sources[i].vtex == Some(p) then vtexFor(sources[i].addonPath)
                 else Contents(tree, sources[i].source))
    decreases |sources|
  {
    var s, front := sources[|sources| - 1], sources[..|sources| - 1];
    var before := Staged(tree, front, vtexFor);
    GetPut(before, s.addonPath, Contents(tree, s.source), p);
    if s.vtex.Some? {
      GetPut(Put(before, s.addonPath, Contents(tree, s.source)), s.vtex.value, vtexFor(s.addonPath), p);
    }
    if i < |sources| - 1 {
      assert !PutsAt(sources[|sources| - 1], p);
      StagedIsTheLast(tree, front, vtexFor, i, p);
    }
  }

  /** A folder with each source's bytes under its addon path, each picture's descriptor beside it, and nothing else. */
  ghost predicate IsStage(folder: Tree, tree: Tree, sources: seq<Source>, vtexFor: string -> Bytes) {
    && (forall s <- sources :: Get(folder, s.addonPath) == Get(tree, s.source))
    && (forall s <- sources :: s.vtex.Some? ==> Get(folder, s.vtex.value) == Some(vtexFor(s.addonPath)))
    && forall p :: p in Keys(folder) ==> exists s <- sources :: PutsAt(s, p)
  }

  lemma StagedIsStage(tree: Tree, sources: seq<Source>, vtexFor: string -> Bytes)
    requires StageApart(sources) && forall s <- sources :: Get(tree, s.source).Some?
    ensures IsStage(Staged(tree, sources, vtexFor), tree, sources, vtexFor)
  {
    var folder := Staged(tree, sources, vtexFor);
    forall s | s in sources
      ensures Get(folder, s.addonPath) == Get(tree, s.source)
      ensures s.vtex.Some? ==> Get(folder, s.vtex.value) == Some(vtexFor(s.addonPath))
    {
      var i :| 0 <= i < |sources| && sources[i] == s;
      assert PutsAt(sources[i], s.addonPath);
      StagedIsTheLast(tree, sources, vtexFor, i, s.addonPath);
      if s.vtex.Some? {
        assert PutsAt(sources[i], s.vtex.value);
        StagedIsTheLast(tree, sources, vtexFor, i, s.vtex.value);
      }
    }
    forall p | p in Keys(folder) ensures exists s <- sources :: PutsAt(s, p) {
      StagedHasOnly(tree, sources, vtexFor, p);
      GetIsMember(folder, p);
    }
  }

  // ---- And what the stamp has made of it

  /** The same sources, with every label of every layout saying the stamp and nothing else of any changed. */
  ghost predicate IsStamped(after: Tree, tree: Tree, sources: seq<Source>, stamp: string) {
    forall s <- sources ::
      && Get(after, s.source).Some?
      && StampSees.SameSource(tree, after, s.source, s.source)
      && (Stamp.IsXml(s.source) ==> EachSays(Values(Stamp.TextOf(after, s.source)), stamp))
  }

  lemma OneStamped(h: Hashes, tree: Tree, sources: seq<Source>, stamp: string, layouts: seq<string>, i: nat)
    requires Stamp.AllStable(h, tree) && Sources(h, Keys(tree)) == Ok(sources) && Stamp.StampOf(h, tree) == Ok(stamp)
    requires Stamp.StampedLayouts(h, tree) == Ok(layouts) && layouts == Stamp.Labelled(tree, sources)
    requires i < |sources| && Get(tree, sources[i].source).Some?
    ensures var after, q := Stamp.WriteStamps(tree, layouts, stamp), sources[i].source;
      && Get(after, q).Some? && StampSees.SameSource(tree, after, q, q)
      && (Stamp.IsXml(q) ==> EachSays(Values(Stamp.TextOf(after, q)), stamp))
  {
    var q := sources[i].source;
    var after := Stamp.WriteStamps(tree, layouts, stamp);
    Stamp.StampableWithStamp(h, tree, sources, layouts, stamp);
    Stamp.WriteStampsEffect(tree, layouts, stamp, q);
    StampSees.LayoutIsStable(h, tree, sources, i);
    StampSees.LabelledHas(tree, sources, i);
    assert Stamp.TextOf(tree, q) == Utf8.Decode(Contents(tree, q));
    assert Stamp.TextOf(after, q) == Utf8.Decode(Contents(after, q));
    if Stamp.IsXml(q) {
      ValuesAfterWrite(Stamp.TextOf(tree, q), stamp);
      StampSees.RewriteKeepsSkeleton(Stamp.TextOf(tree, q), stamp);
    }
  }

  lemma EachStamped(h: Hashes, tree: Tree, sources: seq<Source>, stamp: string, layouts: seq<string>)
    requires Stamp.AllStable(h, tree) && Sources(h, Keys(tree)) == Ok(sources) && Stamp.StampOf(h, tree) == Ok(stamp)
    requires Stamp.StampedLayouts(h, tree) == Ok(layouts) && layouts == Stamp.Labelled(tree, sources)
    requires forall s <- sources :: Get(tree, s.source).Some?
    ensures IsStamped(Stamp.WriteStamps(tree, layouts, stamp), tree, sources, stamp)
  {
    var after := Stamp.WriteStamps(tree, layouts, stamp);
    forall s | s in sources
      ensures Get(after, s.source).Some? && StampSees.SameSource(tree, after, s.source, s.source)
      ensures Stamp.IsXml(s.source) ==> EachSays(Values(Stamp.TextOf(after, s.source)), stamp)
    {
      var i :| 0 <= i < |sources| && sources[i] == s;
      OneStamped(h, tree, sources, stamp, layouts, i);
    }
  }

  lemma StampedIsStamped(h: Hashes, tree: Tree, sources: seq<Source>, stamp: string)
    requires Stamp.AllStable(h, tree) && Sources(h, Keys(tree)) == Ok(sources) && Stamp.StampOf(h, tree) == Ok(stamp)
    ensures Stamp.StampLayouts(h, tree).Ok? && Stamp.StampLayouts(h, tree).value.1 == stamp
    ensures var after := Stamp.StampLayouts(h, tree).value.0;
      Keys(after) == Keys(tree) && IsStamped(after, tree, sources, stamp)
  {
    Stamp.StampIsFixedPoint(h, tree);
    BuildHonest.LinesNeedAll(h, tree, sources);
    EachStamped(h, tree, sources, stamp, Stamp.Labelled(tree, sources));
  }

  /**
   * What the build hands to the compiler, whatever the compiler makes of it: a stage of the sources as they are once
   * stamped, so that every label in it says the stamp that the manifest records in the end.
   */
  lemma CompilerIsGiven(h: Hashes, tree: Tree, manifest: Option<Manifest>, tools: Tools, sources: seq<Source>)
    returns (folder: Tree, stamped: Tree)
    requires Stamp.AllStable(h, tree) && Stamp.StampOf(h, tree).Ok?
    requires Sources(h, Keys(tree)) == Ok(sources) && StageApart(sources)
    ensures IsStamped(stamped, tree, sources, Stamp.StampOf(h, tree).value)
    ensures IsStage(folder, stamped, sources, tools.vtexFor)
    ensures var built := Built(h, tree, manifest, tools);
      && (tools.compile(folder).None? <==> built.error == Some(CompileFailed))
      && (built.error.None? ==>
            built.manifest.Some? && built.manifest.value.stamp == Some(Stamp.StampOf(h, tree).value))
  {
    var stamp := Stamp.StampOf(h, tree).value;
    StampedIsStamped(h, tree, sources, stamp);
    stamped := Stamp.StampLayouts(h, tree).value.0;
    StagedIsStage(stamped, sources, tools.vtexFor);
    folder := Staged(stamped, sources, tools.vtexFor);
    BuiltFromStage(h, stamped, manifest, tools, sources, stamp);
    BuiltIs(h, tree, manifest, tools, stamped, stamp);
  }

  lemma BuiltIs(h: Hashes, tree: Tree, manifest: Option<Manifest>, tools: Tools, stamped: Tree, stamp: string)
    requires Stamp.StampLayouts(h, tree) == Ok((stamped, stamp))
    ensures Built(h, tree, manifest, tools) == BuiltFrom(h, stamped, manifest, tools, stamp)
  {
  }

  lemma BuiltFromStage(h: Hashes, stamped: Tree, manifest: Option<Manifest>, tools: Tools, sources: seq<Source>,
                       stamp: string)
    requires Sources(h, Keys(stamped)) == Ok(sources)
    ensures var built := BuiltFrom(h, stamped, manifest, tools, stamp);
      && (tools.compile(Staged(stamped, sources, tools.vtexFor)).None? <==> built.error == Some(CompileFailed))
      && (built.error.None? ==> built.manifest.Some? && built.manifest.value.stamp == Some(stamp))
  {
    var compiled := tools.compile(Staged(stamped, sources, tools.vtexFor));
    if compiled.Some? {
      PackagedRecords(h, stamped, manifest, compiled.value, stamp, tools.compiler);
    }
  }

  lemma PackagedRecords(h: Hashes, tree: Tree, manifest: Option<Manifest>, out: Tree, stamp: string,
                        compiler: string)
    ensures var built := Packaged(h, tree, manifest, out, stamp, compiler);
      && built.error != Some(CompileFailed)
      && (built.error.None? ==> built.manifest.Some? && built.manifest.value.stamp == Some(stamp))
  {
    var listed := ListFiles(out, "panorama");
    var copied := Copied(out, Removed(tree), listed);
    var pack := VpkFormat.Written(h, Packed(out, listed));
    if pack.Ok? {
      var after := Put(copied, DIST + VPK_NAME, pack.value);
      var sources := Sources(h, Keys(after));
      if sources.Ok? {
        var hashes := SourceHashes(h, after, sources.value);
        if hashes.Ok? {
          var info := PackInfo(VPK_NAME, h.sha256(pack.value), |pack.value|);
          CheckedKeeps(h, after, Manifest(compiler, hashes.value, Recorded(h, out, listed), info, Some(stamp)));
        }
      }
    }
  }

  lemma CheckedKeeps(h: Hashes, tree: Tree, m: Manifest)
    ensures Checked(h, tree, m).error != Some(CompileFailed) && Checked(h, tree, m).manifest == Some(m)
  {
  }
}

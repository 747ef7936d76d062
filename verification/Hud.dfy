/** `hud/` on disk, and what the tools do to it: stamp, check and build (hud/src/stamp.ts, dist.ts, cli.ts). */
module Hud {
  import opened Wrappers
  import opened Octets
  import opened Digests
  import opened Ordered
  import opened Sorting
  import opened Addon
  import opened Dist
  import opened Build
  import Stamp
  import StampRewrite
  import Utf8
  import Vpk
  import VpkFormat

  class Disk {
    var tree: Tree
    var manifest: Option<Manifest>

    constructor (tree: Tree, manifest: Option<Manifest>)
      ensures this.tree == tree && this.manifest == manifest
    {
      this.tree, this.manifest := tree, manifest;
    }

    /** Writes the stamp into every layout that carries a label; a layout that says it already is not touched. */
    method StampLayouts(h: Hashes) returns (r: Result<string, Fault>)
      modifies this`tree
      ensures match Stamp.StampLayouts(h, old(tree)) {
        case Err(fault) => r == Err(fault) && tree == old(tree)
        case Ok((after, stamp)) => r == Ok(stamp) && tree == after
      }
    {
      var stamp := Stamp.StampOf(h, tree);
      if stamp.Err? {
        return Err(stamp.error);
      }
      var layouts := Stamp.StampedLayouts(h, tree);
      if layouts.Err? {
        return Err(layouts.error);
      }
      for i := 0 to |layouts.value|
        invariant Stamp.WriteStamps(tree, layouts.value[i..], stamp.value)
               == Stamp.WriteStamps(old(tree), layouts.value, stamp.value)
      {
        var before := Stamp.TextOf(tree, layouts.value[i]);
        var after := StampRewrite.Rewrite(before, stamp.value);
        assert layouts.value[i..][1..] == layouts.value[i + 1..];
        if after != before {
          tree := Put(tree, layouts.value[i], Utf8.Encode(after));
        }
      }
      return Ok(stamp.value);
    }

    /** The honesty check: reads everything, changes nothing. */
    method VerifyDist(h: Hashes) returns (r: Result<seq<Problem>, Fault>)
      ensures r == Problems(h, tree, manifest)
    {
      if manifest.None? {
        return Ok([ManifestMissing]);
      }
      var m := manifest.value;
      var ps := Stamp.StampProblems(h, tree);
      if ps.Err? {
        return Err(ps.error);
      }
      // What the stamp problems read could be read, so the stamp and the sources can.
      var stamp := Stamp.StampOf(h, tree).value;
      var sources := Sources(h, Keys(tree)).value;
      var now := SourceHashes(h, tree, sources);
      if now.Err? {
        return Err(now.error);
      }
      var problems := CheckLoose(h, m, sources, ps.value, stamp, now.value);
      var pack := Get(tree, "dist/" + VPK_NAME);
      if pack.None? {
        return Ok(problems + [PackMissing]);
      }
      var packed := CheckPack(h, pack.value, m.files);
      var own: seq<Problem> := if h.sha256(pack.value) != m.pack.sha256 then [PackHash] else [];
      return Ok(problems + (own + packed));
    }

    /** The checks up to the pack, in their order. */
    method CheckLoose(h: Hashes, m: Manifest, sources: seq<Source>, ps: seq<Stamp.StampProblem>, stamp: string,
                      now: Record<string>) returns (problems: seq<Problem>)
      ensures problems == LooseCheck(h, tree, m, sources, ps, stamp, now)
    {
      problems := CheckSources(m, sources, ps, stamp, now);
      problems := AddStrays(problems, ListFiles(tree, "dist/panorama"), m.files);
      problems := AddLoose(h, problems, m.files);
      if m.pack.file != VPK_NAME {
        problems := problems + [PackName(m.pack.file)];
      }
    }

    method AddLoose(h: Hashes, before: seq<Problem>, files: Record<FileInfo>) returns (problems: seq<Problem>)
      ensures problems == before + LooseFiles(h, tree, files)
    {
      problems := before;
      for i := 0 to |files|
        invariant problems + LooseFiles(h, tree, files[i..]) == before + LooseFiles(h, tree, files)
      {
        var (file, info) := files[i];
        assert files[i..][1..] == files[i + 1..];
        var bytes := Get(tree, "dist/" + file);
        if bytes.None? {
          problems := problems + [LooseMissing(file)];
        } else if h.sha256(bytes.value) != info.sha256 {
          problems := problems + [LooseHash(file)];
        }
      }
    }

    /** Stamp, stage, compile, copy, pack, record, check; what stops it leaves what was done so far. */
    method Build(h: Hashes, tools: Tools) returns (error: Option<BuildError>)
      modifies this
      ensures Outcome(tree, manifest, error) == Built(h, old(tree), old(manifest), tools)
    {
      var stamp := StampLayouts(h);
      if stamp.Err? {
        return Some(Stopped(stamp.error));
      }
      error := Compile(h, tools, stamp.value);
    }

    /** Stages the sources, has them compiled, and packages what comes out. */
    method Compile(h: Hashes, tools: Tools, stamp: string) returns (error: Option<BuildError>)
      modifies this
      ensures Outcome(tree, manifest, error) == BuiltFrom(h, old(tree), old(manifest), tools, stamp)
    {
      var sources := Sources(h, Keys(tree));
      if sources.Err? {
        return Some(Stopped(sources.error));
      }
      var compiled := tools.compile(Staged(tree, sources.value, tools.vtexFor));
      if compiled.None? {
        return Some(CompileFailed);
      }
      error := Package(h, compiled.value, stamp, tools.compiler);
    }

    /** Every compiled file, copied beside the manifest, recorded for it and put on the list to pack. */
    method CopyOut(h: Hashes, out: Tree, listed: seq<string>)
      returns (files: Record<FileInfo>, packed: seq<VpkFormat.File>)
      modifies this`tree
      ensures tree == Copied(out, old(tree), listed)
      ensures files == Recorded(h, out, listed) && packed == Packed(out, listed)
    {
      files, packed := [], [];
      for i := 0 to |listed|
        invariant tree == Copied(out, old(tree), listed[..i])
        invariant files == Recorded(h, out, listed[..i]) && packed == Packed(out, listed[..i])
      {
        var path := PANORAMA + listed[i];
        var data := Contents(out, path);
        OneMore(out, listed, i);
        tree := Put(tree, DIST + path, data);
        files := Put(files, path, FileInfo(h.sha256(data), |data|));
        packed := packed + [VpkFormat.File(path, data)];
      }
      assert listed[..|listed|] == listed;
    }

    /** What `build` does with the compiler's output. */
    method Package(h: Hashes, out: Tree, stamp: string, compiler: string) returns (error: Option<BuildError>)
      modifies this
      ensures Outcome(tree, manifest, error) == Packaged(h, old(tree), old(manifest), out, stamp, compiler)
    {
      tree := Removed(tree);
      var files, packed := CopyOut(h, out, ListFiles(out, "panorama"));
      var pack := Vpk.WriteVpk(h, packed);
      if pack.Err? {
        return Some(PackFailed(pack.error));
      }
      tree := Put(tree, DIST + VPK_NAME, pack.value);
      var sources := Sources(h, Keys(tree));
      if sources.Err? {
        return Some(Stopped(sources.error));
      }
      var hashes := SourceHashes(h, tree, sources.value);
      if hashes.Err? {
        return Some(Stopped(hashes.error));
      }
      manifest := Some(Manifest(compiler, hashes.value, files,
                                PackInfo(VPK_NAME, h.sha256(pack.value), |pack.value|), Some(stamp)));
      var problems := VerifyDist(h);
      if problems.Err? {
        return Some(Stopped(problems.error));
      }
      return if problems.value == [] then None else Some(NotHonest(problems.value));
    }
  }

  lemma OneMore(out: Tree, listed: seq<string>, i: nat)
    requires i < |listed|
    ensures listed[..i + 1][..i] == listed[..i] && listed[..i + 1][i] == listed[i]
    ensures Packed(out, listed[..i + 1])
         == Packed(out, listed[..i]) + [VpkFormat.File(PANORAMA + listed[i], Contents(out, PANORAMA + listed[i]))]
  {
  }

  // ---- The parts of the check that need no disk

  /** The manifest against the sources it was made from. */
  method CheckSources(m: Manifest, sources: seq<Source>, ps: seq<Stamp.StampProblem>, stamp: string,
                      now: Record<string>)
    returns (problems: seq<Problem>)
    ensures problems == SourceCheck(m, sources, ps, stamp, now)
  {
    problems := StampCheck(ps, m.stamp, stamp);
    problems := AddChanged(problems, now, m.sources);
    problems := AddGone(problems, Keys(m.sources), now);
    if !SameList(CompiledPaths(sources), Keys(m.files)) {
      problems := problems + [FilesDiffer(SortTexts(Keys(m.files)), SortTexts(CompiledPaths(sources)))];
    }
  }

  method AddChanged(before: seq<Problem>, now: Record<string>, recorded: Record<string>)
    returns (problems: seq<Problem>)
    ensures problems == before + ChangedSources(now, recorded)
  {
    problems := before;
    for i := 0 to |now|
      invariant problems + ChangedSources(now[i..], recorded) == before + ChangedSources(now, recorded)
    {
      var (source, hash) := now[i];
      assert now[i..][1..] == now[i + 1..];
      var was := Get(recorded, source);
      if was != Some(hash) {
        problems := problems + [if was.Some? && was.value != "" then Changed(source) else New(source)];
      }
    }
  }

  method AddGone(before: seq<Problem>, recorded: seq<string>, now: Record<string>) returns (problems: seq<Problem>)
    ensures problems == before + GoneSources(recorded, now)
  {
    problems := before;
    for i := 0 to |recorded|
      invariant problems + GoneSources(recorded[i..], now) == before + GoneSources(recorded, now)
    {
      assert recorded[i..][1..] == recorded[i + 1..];
      if Get(now, recorded[i]).None? {
        problems := problems + [Gone(recorded[i])];
      }
    }
  }

  method AddStrays(before: seq<Problem>, onDisk: seq<string>, files: Record<FileInfo>) returns (problems: seq<Problem>)
    ensures problems == before + Strays(onDisk, files)
  {
    problems := before;
    for i := 0 to |onDisk|
      invariant problems + Strays(onDisk[i..], files) == before + Strays(onDisk, files)
    {
      assert onDisk[i..][1..] == onDisk[i + 1..];
      var file := "panorama/" + onDisk[i];
      if Get(files, file).None? {
        problems := problems + [NotInManifest(file)];
      }
    }
  }

  method CheckPack(h: Hashes, pack: Bytes, files: Record<FileInfo>) returns (problems: seq<Problem>)
    ensures problems == PackCheck(h, pack, files)
  {
    var read := Vpk.ReadVpk(h, pack);
    if read.Err? {
      return [PackUnreadable(read.error)];
    }
    var entries := read.value;
    problems := [];
    if !SameList(Paths(entries), Keys(files)) {
      problems := [PackList(SortTexts(Paths(entries)), SortTexts(Keys(files)))];
    }
    problems := AddPacked(h, problems, entries, files);
  }

  method AddPacked(h: Hashes, before: seq<Problem>, entries: seq<VpkFormat.Entry>, files: Record<FileInfo>)
    returns (problems: seq<Problem>)
    ensures problems == before + PackedFiles(h, entries, files)
  {
    problems := before;
    for i := 0 to |entries|
      invariant problems + PackedFiles(h, entries[i..], files) == before + PackedFiles(h, entries, files)
    {
      assert entries[i..][1..] == entries[i + 1..];
      var want := Get(files, entries[i].path);
      if want.Some? && h.sha256(entries[i].data) != want.value.sha256 {
        problems := problems + [PackDiffers(entries[i].path)];
      }
    }
  }
}

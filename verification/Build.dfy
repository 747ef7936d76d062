/** What `build` leaves behind: the stamp, the stage, the compiled files, the pack and the manifest (hud/src/cli.ts). */
module Build {
  import opened Wrappers
  import opened Octets
  import opened Digests
  import opened Ordered
  import opened Texts
  import opened Addon
  import opened Dist
  import Stamp
  import VpkFormat

  const PANORAMA := "panorama/"
  const DIST := "dist/"

  /** The compiler as the build sees it: a folder in, a folder out or nothing. */
  datatype Tools = Tools(compile: Tree -> Option<Tree>, vtexFor: string -> Bytes, compiler: string)

  datatype BuildError =
    | Stopped(fault: Fault)
    | CompileFailed
    | PackFailed(writeError: VpkFormat.WriteError)
    | NotHonest(problems: seq<Problem>)

  /** `stage`: the addon-shaped folder the container compiles. */
  function Staged(tree: Tree, sources: seq<Source>, vtexFor: string -> Bytes): Tree
    decreases |sources|
  {
    if sources == [] then []
    else
      var s := sources[|sources| - 1];
      var copied := Put(Staged(tree, sources[..|sources| - 1], vtexFor), s.addonPath, Contents(tree, s.source));
      if s.vtex.Some? then Put(copied, s.vtex.value, vtexFor(s.addonPath)) else copied
  }

  /** `rm(join(DIST, 'panorama'))`. */
  function Removed(tree: Tree): Tree {
    if tree == [] then []
    else if StartsWith(tree[0].0, DIST + PANORAMA) then Removed(tree[1..])
    else [tree[0]] + Removed(tree[1..])
  }

  function Copied(out: Tree, tree: Tree, listed: seq<string>): Tree
    decreases |listed|
  {
    if listed == [] then tree
    else
      var path := PANORAMA + listed[|listed| - 1];
      Put(Copied(out, tree, listed[..|listed| - 1]), DIST + path, Contents(out, path))
  }

  function InfoOf(h: Hashes, bytes: Bytes): FileInfo {
    FileInfo(h.sha256(bytes), |bytes|)
  }

  function Recorded(h: Hashes, out: Tree, listed: seq<string>): Record<FileInfo>
    decreases |listed|
  {
    if listed == [] then []
    else
      var path := PANORAMA + listed[|listed| - 1];
      Put(Recorded(h, out, listed[..|listed| - 1]), path, InfoOf(h, Contents(out, path)))
  }

  function Packed(out: Tree, listed: seq<string>): (r: seq<VpkFormat.File>)
    ensures |r| == |listed|
    ensures forall i :: 0 <= i < |listed| ==>
      r[i] == VpkFormat.File(PANORAMA + listed[i], Contents(out, PANORAMA + listed[i]))
  {
    seq(|listed|, i requires 0 <= i < |listed| =>
      VpkFormat.File(PANORAMA + listed[i], Contents(out, PANORAMA + listed[i])))
  }

  /** The state a build leaves and what stopped it, if anything. */
  datatype Outcome = Outcome(tree: Tree, manifest: Option<Manifest>, error: Option<BuildError>)

  function Failed(tree: Tree, manifest: Option<Manifest>, error: BuildError): Outcome {
    Outcome(tree, manifest, Some(error))
  }

  /** From the compiler's output on. */
  function Packaged(h: Hashes, tree: Tree, manifest: Option<Manifest>, out: Tree, stamp: string,
                    compiler: string): Outcome
  {
    var listed := ListFiles(out, "panorama");
    var copied := Copied(out, Removed(tree), listed);
    match VpkFormat.Written(h, Packed(out, listed))
    case Err(e) => Failed(copied, manifest, PackFailed(e))
    case Ok(pack) =>
      var after := Put(copied, DIST + VPK_NAME, pack);
      match Sources(h, Keys(after))
      case Err(fault) => Failed(after, manifest, Stopped(fault))
      case Ok(sources) =>
        match SourceHashes(h, after, sources)
        case Err(fault) => Failed(after, manifest, Stopped(fault))
        case Ok(hashes) =>
          var files := Recorded(h, out, listed);
          Checked(h, after,
                  Manifest(compiler, hashes, files, PackInfo(VPK_NAME, h.sha256(pack), |pack|), Some(stamp)))
  }

  /** The check at the end of the build. */
  function Checked(h: Hashes, tree: Tree, m: Manifest): Outcome {
    match Problems(h, tree, Some(m))
    case Err(fault) => Failed(tree, Some(m), Stopped(fault))
    case Ok(problems) => Outcome(tree, Some(m), if problems == [] then None else Some(NotHonest(problems)))
  }

  function Built(h: Hashes, tree: Tree, manifest: Option<Manifest>, tools: Tools): Outcome {
    match Stamp.StampLayouts(h, tree)
    case Err(fault) => Failed(tree, manifest, Stopped(fault))
    case Ok((stamped, stamp)) => BuiltFrom(h, stamped, manifest, tools, stamp)
  }

  /** From the stamped layouts on. */
  function BuiltFrom(h: Hashes, stamped: Tree, manifest: Option<Manifest>, tools: Tools, stamp: string): Outcome {
    match Sources(h, Keys(stamped))
    case Err(fault) => Failed(stamped, manifest, Stopped(fault))
    case Ok(sources) =>
      match tools.compile(Staged(stamped, sources, tools.vtexFor))
      case None => Failed(stamped, manifest, CompileFailed)
      case Some(out) => Packaged(h, stamped, manifest, out, stamp, tools.compiler)
  }
}

/** What an empty list of problems means for the files themselves (hud/src/dist.ts, hud/src/addon.ts). */
module DistSound {
  import opened Wrappers
  import opened Octets
  import opened Digests
  import opened Ordered
  import opened Sorting
  import opened Texts
  import opened Addon
  import opened Dist
  import VpkFormat

  // ---- Every compiled path is in the addon's `panorama` folder

  predicate InPanorama(p: string) {
    StartsWith(p, "panorama/")
  }

  lemma PrefixStays(p: string, tail: string)
    requires InPanorama(p)
    ensures InPanorama(p + tail)
  {
  }

  lemma SwapStays(p: string, ending: string, with: string)
    requires InPanorama(p) && EndsWith(p, ending) && |p| - |ending| >= 9
    ensures InPanorama(Swap(p, ending, with))
  {
    assert p[..|p| - |ending|][..9] == p[..9];
  }

  lemma CompiledStays(s: Source)
    requires InPanorama(s.addonPath) && |s.addonPath| >= 14
    requires s.vtex.Some? ==> InPanorama(s.vtex.value)
    ensures CompiledPath(s).Some? ==> InPanorama(CompiledPath(s).value)
  {
    if s.vtex.Some? {
      PrefixStays(s.vtex.value, "_c");
    } else if EndsWith(s.addonPath, ".xml") {
      SwapStays(s.addonPath, ".xml", ".vxml_c");
    } else if EndsWith(s.addonPath, ".css") {
      SwapStays(s.addonPath, ".css", ".vcss_c");
    }
  }

  ghost predicate AllInPanorama(sources: seq<Source>) {
    forall s <- sources :: CompiledPath(s).Some? ==> InPanorama(CompiledPath(s).value)
  }

  lemma {:induction false} PlainStays(folder: string, root: string, names: seq<string>)
    requires InPanorama(root) && |root| >= 14
    ensures AllInPanorama(Plain(folder, root, names))
  {
    if names == [] {
    } else {
      PlainStays(folder, root, names[1..]);
      PrefixStays(root, "/" + names[0]);
      assert root + ("/" + names[0]) == root + "/" + names[0];
      CompiledStays(Plain(folder, root, names)[0]);
    }
  }

  lemma ImagesInPanorama()
    ensures InPanorama(IMAGE_ROOT) && |IMAGE_ROOT| >= 14
    ensures InPanorama("panorama/layout/custom_game") && InPanorama("panorama/styles/custom_game")
  {
    assert IMAGE_ROOT[..9] == "panorama/";
    assert "panorama/layout/custom_game"[..9] == "panorama/";
    assert "panorama/styles/custom_game"[..9] == "panorama/";
  }

  lemma PictureStays(folder: string, under: string, name: string)
    ensures CompiledPath(Picture(folder, under, name)).Some?
    ensures InPanorama(CompiledPath(Picture(folder, under, name)).value)
  {
    ImagesInPanorama();
    var path := IMAGE_ROOT + "/" + under + name;
    PrefixStays(IMAGE_ROOT, "/" + under + name);
    assert IMAGE_ROOT + ("/" + under + name) == path;
    if EndsWith(path, ".png") {
      SwapStays(path, ".png", ".vtex");
    }
    CompiledStays(Picture(folder, under, name));
  }

  lemma {:induction false} PicturesStay(folder: string, under: string, names: seq<string>)
    ensures AllInPanorama(Pictures(folder, under, names))
  {
    if names == [] {
    } else {
      PicturesStay(folder, under, names[1..]);
      PictureStays(folder, under, names[0]);
    }
  }

  lemma InfoDoesNotCompile()
    ensures CompiledPath(Source(INFO, INFO, None)).None?
  {
    assert INFO[|INFO| - 4..] == ".txt";
    assert ".txt"[1] == 't' && ".xml"[1] == 'x' && ".css"[1] == 'c';
  }

  lemma MappedStays(keys: seq<string>)
    ensures AllInPanorama(Mapped(keys))
  {
    ImagesInPanorama();
    InfoDoesNotCompile();
    PlainStays("layout", "panorama/layout/custom_game", FilesIn(keys, "layout", ".xml"));
    PlainStays("styles", "panorama/styles/custom_game", FilesIn(keys, "styles", ".css"));
    PicturesStay("images", "", FilesIn(keys, "images", ".png"));
    PicturesStay("banners", "banners/", FilesIn(keys, "banners", ".png"));
    PicturesStay("art", "art/", FilesIn(keys, "art", ".png"));
  }

  lemma {:induction false} CompiledPathsStay(sources: seq<Source>)
    requires AllInPanorama(sources)
    ensures forall p <- CompiledPaths(sources) :: InPanorama(p)
  {
    if sources == [] {
    } else {
      assert sources[0] in sources;
      assert forall s :: s in sources[1..] ==> s in sources;
      CompiledPathsStay(sources[1..]);
    }
  }

  // ---- The soundness of the check

  /** Whatever the files, everything the sources compile to lands under `panorama/`. */
  lemma CompiledIsInPanorama(keys: seq<string>)
    ensures forall p <- CompiledPaths(Mapped(keys)) :: InPanorama(p)
  {
    MappedStays(keys);
    CompiledPathsStay(Mapped(keys));
  }

  /** The loose file for a path in the addon. */
  function Loose(tree: Tree, path: string): Option<Bytes> {
    if InPanorama(path) then Get(tree, "dist/" + path) else None
  }

  lemma ListedIffLoose(tree: Tree, path: string)
    requires InPanorama(path)
    ensures path[9..] in ListFiles(tree, "dist/panorama") <==> Get(tree, "dist/" + path).Some?
    ensures "panorama/" + path[9..] == path
  {
    var f := path[9..];
    assert path == path[..9] + f;
    assert "dist/panorama" + "/" + f == "dist/" + path;
    UnderHolds(Keys(tree), "dist/panorama", f);
    SameElements(ListFiles(tree, "dist/panorama"), Under(Keys(tree), "dist/panorama"));
    GetIsMember(tree, "dist/" + path);
  }

  /** An empty list of problems means: no two sources compile to one path, and what the sources compile to, what the
      manifest lists, the loose files and the pack's entries are the same paths, each once, with the same bytes. */
  lemma HonestyIsSound(h: Hashes, tree: Tree, m: Manifest, sources: seq<Source>, pack: Bytes,
                       entries: seq<VpkFormat.Entry>)
    requires Problems(h, tree, Some(m)) == Ok([])
    requires Sources(h, Keys(tree)) == Ok(sources)
    requires Get(tree, "dist/" + VPK_NAME) == Some(pack) && VpkFormat.Read(h, pack) == Ok(entries)
    requires Unique(Keys(m.files)) && CollisionFree(h, tree, entries)
    requires Proper(CompiledPaths(sources)) && Proper(Keys(m.files)) && Proper(Paths(entries))
    ensures Unique(CompiledPaths(sources)) && Unique(Paths(entries))
    ensures multiset(CompiledPaths(sources)) == multiset(Keys(m.files)) == multiset(Paths(entries))
    ensures forall p :: p in CompiledPaths(sources) <==> Loose(tree, p).Some?
    ensures forall e <- entries :: Loose(tree, e.path) == Some(e.data)
  {
    NoProblemsIffHonest(h, tree, m);
    var compiled, recorded, packed := CompiledPaths(sources), Keys(m.files), Paths(entries);
    SameListIsSameFiles(compiled, recorded);
    SameListIsSameFiles(packed, recorded);
    SameMultisetIsUnique(compiled, recorded);
    SameMultisetIsUnique(packed, recorded);
    SameElements(compiled, recorded);
    SameElements(packed, recorded);
    CompiledIsInPanorama(Keys(tree));
    LooseIsRecorded(h, tree, m);
    forall e | e in entries ensures Loose(tree, e.path) == Some(e.data) {
      var i :| 0 <= i < |entries| && entries[i] == e;
      assert packed[i] == e.path && e.path in packed;
      EntryIsLoose(h, tree, m, entries, e);
    }
  }

  lemma LooseIsRecorded(h: Hashes, tree: Tree, m: Manifest)
    requires forall f <- ListFiles(tree, "dist/panorama") :: Get(m.files, "panorama/" + f).Some?
    requires forall i :: 0 <= i < |m.files| ==> LooseHolds(h, tree, m.files[i].0, m.files[i].1)
    ensures forall p :: Loose(tree, p).Some? ==> p in Keys(m.files)
    ensures forall p :: p in Keys(m.files) && InPanorama(p) ==> Loose(tree, p).Some?
  {
    forall p | Loose(tree, p).Some? ensures p in Keys(m.files) {
      ListedIffLoose(tree, p);
      GetIsMember(m.files, p);
    }
  }

  lemma EntryIsLoose(h: Hashes, tree: Tree, m: Manifest, entries: seq<VpkFormat.Entry>, e: VpkFormat.Entry)
    requires e in entries && EntryHolds(h, m.files, e) && CollisionFree(h, tree, entries)
    requires forall i :: 0 <= i < |m.files| ==> LooseHolds(h, tree, m.files[i].0, m.files[i].1)
    requires e.path in Keys(m.files) && InPanorama(e.path)
    ensures Loose(tree, e.path) == Some(e.data)
  {
    GetIsMember(m.files, e.path);
    var info := Get(m.files, e.path).value;
    assert LooseHolds(h, tree, e.path, info);
    GetIsMember(tree, "dist/" + e.path);
  }

  /** Two folders of pictures meet in the addon: the same picture under both is one compiled path. */
  lemma FoldersCollide(name: string)
    ensures CompiledPath(Picture("images", "", "banners/" + name)) == CompiledPath(Picture("banners", "banners/", name))
  {
    assert IMAGE_ROOT + "/" + "" + ("banners/" + name) == IMAGE_ROOT + "/" + "banners/" + name;
  }
}

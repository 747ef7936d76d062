/** Exactly which files are sources, where each goes in the addon, and what it compiles to (hud/src/addon.ts). */
module AddonMap {
  import opened Wrappers
  import opened Digests
  import Lists
  import opened Ordered
  import opened Sorting
  import opened Texts
  import opened Addon
  import opened Dist
  import BuildHonest
  import Stamp

  // ---- The five folders

  function Layout(stem: string): Source {
    Source("layout/" + stem + ".xml", "panorama/layout/custom_game/" + stem + ".xml", None)
  }

  function Style(stem: string): Source {
    Source("styles/" + stem + ".css", "panorama/styles/custom_game/" + stem + ".css", None)
  }

  /** A picture of a folder, under a folder of the addon's own and with a texture descriptor beside it. */
  function Image(folder: string, under: string, stem: string): Source {
    Source(folder + "/" + stem + ".png", "panorama/images/custom_game/ezpug/" + under + stem + ".png",
           Some("panorama/images/custom_game/ezpug/" + under + stem + ".vtex"))
  }

  ghost predicate IsLayout(s: Source) { exists stem :: s == Layout(stem) }
  ghost predicate IsStyle(s: Source) { exists stem :: s == Style(stem) }
  ghost predicate IsImage(s: Source, folder: string, under: string) { exists stem :: s == Image(folder, under, stem) }

  // ---- Listing

  lemma {:induction false} EndingHolds(names: seq<string>, suffix: string, f: string)
    ensures f in Ending(names, suffix) <==> f in names && EndsWith(f, suffix)
  {
    if names == [] {
    } else {
      EndingHolds(names[1..], suffix, f);
      assert forall k :: k in names <==> k == names[0] || k in names[1..];
    }
  }

  lemma FilesInHolds(keys: seq<string>, dir: string, suffix: string, f: string)
    ensures f in FilesIn(keys, dir, suffix) <==> dir + "/" + f in keys && EndsWith(f, suffix)
  {
    SameElements(FilesIn(keys, dir, suffix), Ending(Under(keys, dir), suffix));
    EndingHolds(Under(keys, dir), suffix, f);
    UnderHolds(keys, dir, f);
  }

  lemma {:induction false} PlainHolds(folder: string, root: string, names: seq<string>, s: Source)
    ensures s in Plain(folder, root, names)
       <==> exists f <- names :: s == Source(folder + "/" + f, root + "/" + f, None)
  {
    if names == [] {
    } else {
      PlainHolds(folder, root, names[1..], s);
      assert forall k :: k in names <==> k == names[0] || k in names[1..];
    }
  }

  lemma {:induction false} PicturesHold(folder: string, under: string, names: seq<string>, s: Source)
    ensures s in Pictures(folder, under, names) <==> exists f <- names :: s == Picture(folder, under, f)
  {
    if names == [] {
    } else {
      PicturesHold(folder, under, names[1..], s);
      assert forall k :: k in names <==> k == names[0] || k in names[1..];
    }
  }

  lemma StemOf(f: string, suffix: string) returns (stem: string)
    requires EndsWith(f, suffix)
    ensures f == stem + suffix
  {
    stem := f[..|f| - |suffix|];
  }

  lemma PlainIs(folder: string, root: string, stem: string, ending: string)
    ensures var f := stem + ending;
      Source(folder + "/" + f, root + "/" + f, None)
      == Source((folder + "/") + stem + ending, (root + "/") + stem + ending, None)
  {
  }

  lemma PictureIs(folder: string, under: string, stem: string)
    ensures Picture(folder, under, stem + ".png") == Image(folder, under, stem)
  {
    var path := IMAGE_ROOT + "/" + under + (stem + ".png");
    assert path == IMAGE_ROOT + "/" + under + stem + ".png";
    assert path[|path| - 4..] == ".png";
    assert path[..|path| - 4] == IMAGE_ROOT + "/" + under + stem;
    assert IMAGE_ROOT + "/" == "panorama/images/custom_game/ezpug/";
    assert folder + "/" + (stem + ".png") == folder + "/" + stem + ".png";
  }

  lemma LayoutsAre(keys: seq<string>, s: Source)
    ensures s in Plain("layout", "panorama/layout/custom_game", FilesIn(keys, "layout", ".xml"))
       <==> IsLayout(s) && s.source in keys
  {
    var names := FilesIn(keys, "layout", ".xml");
    PlainHolds("layout", "panorama/layout/custom_game", names, s);
    if f :| f in names && s == Source("layout" + "/" + f, "panorama/layout/custom_game" + "/" + f, None) {
      FilesInHolds(keys, "layout", ".xml", f);
      var stem := StemOf(f, ".xml");
      LayoutIs(stem);
      assert s == Layout(stem);
    }
    if stem :| s == Layout(stem) {
      LayoutIs(stem);
      if s.source in keys {
        FilesInHolds(keys, "layout", ".xml", stem + ".xml");
        EndsInIt(stem, ".xml");
      }
    }
  }

  lemma EndsInIt(stem: string, suffix: string)
    ensures EndsWith(stem + suffix, suffix)
  {
  }

  lemma LayoutIs(stem: string)
    ensures Layout(stem)
         == Source("layout" + "/" + (stem + ".xml"), "panorama/layout/custom_game" + "/" + (stem + ".xml"), None)
  {
    PlainIs("layout", "panorama/layout/custom_game", stem, ".xml");
    assert "layout" + "/" == "layout/" && "panorama/layout/custom_game" + "/" == "panorama/layout/custom_game/";
  }

  lemma StyleIs(stem: string)
    ensures Style(stem)
         == Source("styles" + "/" + (stem + ".css"), "panorama/styles/custom_game" + "/" + (stem + ".css"), None)
  {
    PlainIs("styles", "panorama/styles/custom_game", stem, ".css");
    assert "styles" + "/" == "styles/" && "panorama/styles/custom_game" + "/" == "panorama/styles/custom_game/";
  }

  lemma StylesAre(keys: seq<string>, s: Source)
    ensures s in Plain("styles", "panorama/styles/custom_game", FilesIn(keys, "styles", ".css"))
       <==> IsStyle(s) && s.source in keys
  {
    var names := FilesIn(keys, "styles", ".css");
    PlainHolds("styles", "panorama/styles/custom_game", names, s);
    if f :| f in names && s == Source("styles" + "/" + f, "panorama/styles/custom_game" + "/" + f, None) {
      FilesInHolds(keys, "styles", ".css", f);
      var stem := StemOf(f, ".css");
      StyleIs(stem);
      assert s == Style(stem);
    }
    if stem :| s == Style(stem) {
      StyleIs(stem);
      if s.source in keys {
        FilesInHolds(keys, "styles", ".css", stem + ".css");
        EndsInIt(stem, ".css");
      }
    }
  }

  lemma ImagesAre(keys: seq<string>, folder: string, under: string, s: Source)
    ensures s in Pictures(folder, under, FilesIn(keys, folder, ".png"))
       <==> IsImage(s, folder, under) && s.source in keys
  {
    var names := FilesIn(keys, folder, ".png");
    PicturesHold(folder, under, names, s);
    if f :| f in names && s == Picture(folder, under, f) {
      FilesInHolds(keys, folder, ".png", f);
      var stem := StemOf(f, ".png");
      PictureIs(folder, under, stem);
      assert s == Image(folder, under, stem);
    }
    if stem :| s == Image(folder, under, stem) {
      PictureIs(folder, under, stem);
      assert s.source == folder + "/" + (stem + ".png");
      if s.source in keys {
        FilesInHolds(keys, folder, ".png", stem + ".png");
        EndsInIt(stem, ".png");
        assert stem + ".png" in names;
      }
    }
  }

  /** The sources: the addon's own description, and every file there is of the five kinds, mapped as said above. */
  lemma SourcesAreMapped(keys: seq<string>, s: Source)
    ensures s in Mapped(keys)
       <==> || s == Source("addoninfo.txt", "addoninfo.txt", None)
            || (s.source in keys
                && (IsLayout(s) || IsStyle(s) || IsImage(s, "images", "") || IsImage(s, "banners", "banners/")
                    || IsImage(s, "art", "art/")))
  {
    LayoutsAre(keys, s);
    StylesAre(keys, s);
    ImagesAre(keys, "images", "", s);
    ImagesAre(keys, "banners", "banners/", s);
    ImagesAre(keys, "art", "art/", s);
  }

  /** In whatever order the directories list their files, the sources come in the same one. */
  lemma SourcesIgnoreTheListing(keys: seq<string>, again: seq<string>)
    requires multiset(keys) == multiset(again)
    ensures Mapped(keys) == Mapped(again)
  {
    SameFilesIn(keys, again, "layout", ".xml");
    SameFilesIn(keys, again, "styles", ".css");
    SameFilesIn(keys, again, "images", ".png");
    SameFilesIn(keys, again, "banners", ".png");
    SameFilesIn(keys, again, "art", ".png");
  }

  lemma SameFilesIn(keys: seq<string>, again: seq<string>, dir: string, suffix: string)
    requires multiset(keys) == multiset(again)
    ensures FilesIn(keys, dir, suffix) == FilesIn(again, dir, suffix)
  {
    SameUnder(keys, again, dir);
    SameEnding(Under(keys, dir), Under(again, dir), suffix);
    SortTextsIsCanonical(Ending(Under(keys, dir), suffix), Ending(Under(again, dir), suffix));
  }

  lemma {:induction false} UnderAppend(a: seq<string>, b: seq<string>, dir: string)
    ensures Under(a + b, dir) == Under(a, dir) + Under(b, dir)
  {
    if a == [] {
      assert a + b == b;
    } else {
      assert (a + b)[1..] == a[1..] + b;
      UnderAppend(a[1..], b, dir);
    }
  }

  lemma {:induction false} EndingAppend(a: seq<string>, b: seq<string>, suffix: string)
    ensures Ending(a + b, suffix) == Ending(a, suffix) + Ending(b, suffix)
  {
    if a == [] {
      assert a + b == b;
    } else {
      assert (a + b)[1..] == a[1..] + b;
      EndingAppend(a[1..], b, suffix);
    }
  }

  /** The same keys, one of them taken out of both. */
  lemma Without(keys: seq<string>, again: seq<string>) returns (before: seq<string>, behind: seq<string>)
    requires keys != [] && multiset(keys) == multiset(again)
    ensures again == before + [keys[0]] + behind && multiset(keys[1..]) == multiset(before + behind)
  {
    assert keys[0] in multiset(again);
    var i :| 0 <= i < |again| && again[i] == keys[0];
    before, behind := again[..i], again[i + 1..];
    Lists.TailTaken(keys);
    Lists.TakenOut(again, i);
    assert before + behind == Lists.Omit(again, i);
  }

  lemma {:induction false} SameUnder(keys: seq<string>, again: seq<string>, dir: string)
    requires multiset(keys) == multiset(again)
    ensures multiset(Under(keys, dir)) == multiset(Under(again, dir))
  {
    if keys == [] {
      assert |multiset(again)| == 0;
    } else {
      var before, behind := Without(keys, again);
      SameUnder(keys[1..], before + behind, dir);
      UnderAppend(before, behind, dir);
      UnderAppend(before + [keys[0]], behind, dir);
      UnderAppend(before, [keys[0]], dir);
      UnderAppend([keys[0]], keys[1..], dir);
      assert [keys[0]] + keys[1..] == keys;
    }
  }

  lemma {:induction false} SameEnding(names: seq<string>, again: seq<string>, suffix: string)
    requires multiset(names) == multiset(again)
    ensures multiset(Ending(names, suffix)) == multiset(Ending(again, suffix))
  {
    if names == [] {
      assert |multiset(again)| == 0;
    } else {
      var before, behind := Without(names, again);
      SameEnding(names[1..], before + behind, suffix);
      EndingAppend(before, behind, suffix);
      EndingAppend(before + [names[0]], behind, suffix);
      EndingAppend(before, [names[0]], suffix);
      EndingAppend([names[0]], names[1..], suffix);
      assert [names[0]] + names[1..] == names;
    }
  }

  // ---- What each compiles to

  lemma LayoutCompilesTo(stem: string)
    ensures CompiledPath(Layout(stem)) == Some("panorama/layout/custom_game/" + stem + ".vxml_c")
  {
    var path := "panorama/layout/custom_game/" + stem + ".xml";
    assert path[|path| - 4..] == ".xml";
    assert path[..|path| - 4] == "panorama/layout/custom_game/" + stem;
  }

  lemma StyleCompilesTo(stem: string)
    ensures CompiledPath(Style(stem)) == Some("panorama/styles/custom_game/" + stem + ".vcss_c")
  {
    var path := "panorama/styles/custom_game/" + stem + ".css";
    assert path[|path| - 4..] == ".css";
    assert ".css"[1] != ".xml"[1];
    assert path[|path| - 3] == ".css"[1];
    assert path[..|path| - 4] == "panorama/styles/custom_game/" + stem;
  }

  lemma ImageCompilesTo(folder: string, under: string, stem: string)
    ensures CompiledPath(Image(folder, under, stem))
         == Some("panorama/images/custom_game/ezpug/" + under + stem + ".vtex_c")
  {
    assert ("panorama/images/custom_game/ezpug/" + under + stem + ".vtex") + "_c"
        == "panorama/images/custom_game/ezpug/" + under + stem + ".vtex_c";
  }

  /** The list of what the sources compile to: one path for each of them but the addon's description, in their order. */
  lemma {:induction false} CompiledIsOfASource(sources: seq<Source>, p: string)
    ensures p in CompiledPaths(sources) <==> exists s <- sources :: CompiledPath(s) == Some(p)
  {
    if sources == [] {
    } else {
      CompiledIsOfASource(sources[1..], p);
      assert forall s :: s in sources <==> s == sources[0] || s in sources[1..];
    }
  }

  // ---- What stops the listing and the stamp

  lemma {:induction false} FirstUpperIs(lower: string -> string, mapped: seq<Source>, i: nat)
    requires i < |mapped| && mapped[i].addonPath != lower(mapped[i].addonPath)
    requires forall j :: 0 <= j < i ==> mapped[j].addonPath == lower(mapped[j].addonPath)
    ensures FirstUpper(lower, mapped) == Some(UpperCase(mapped[i].source))
  {
    if i == 0 {
    } else {
      assert mapped[0].addonPath == lower(mapped[0].addonPath);
      FirstUpperIs(lower, mapped[1..], i - 1);
    }
  }

  lemma {:induction false} NoUpper(lower: string -> string, mapped: seq<Source>)
    requires forall s <- mapped :: s.addonPath == lower(s.addonPath)
    ensures FirstUpper(lower, mapped) == None
  {
    if mapped == [] {
    } else {
      assert mapped[0] in mapped;
      NoUpper(lower, mapped[1..]);
    }
  }

  /** An upper-case path stops everything, and the first one in the listing is named by its source. */
  lemma UpperCaseStops(h: Hashes, tree: Tree, i: nat)
    requires var mapped := Mapped(Keys(tree));
      && i < |mapped| && mapped[i].addonPath != h.lower(mapped[i].addonPath)
      && forall j :: 0 <= j < i ==> mapped[j].addonPath == h.lower(mapped[j].addonPath)
    ensures Stamp.StampOf(h, tree) == Err(UpperCase(Mapped(Keys(tree))[i].source))
    ensures Sources(h, Keys(tree)) == Err(UpperCase(Mapped(Keys(tree))[i].source))
  {
    FirstUpperIs(h.lower, Mapped(Keys(tree)), i);
  }

  lemma {:induction false} LinesOfPresent(h: Hashes, tree: Tree, sources: seq<Source>)
    requires forall s <- sources :: Get(tree, s.source).Some?
    ensures Stamp.Lines(h, tree, sources).Ok?
  {
    if sources == [] {
    } else {
      assert sources[0] in sources;
      LinesOfPresent(h, tree, sources[1..]);
    }
  }

  /** The hashes of the sources are missing for the first source that is. */
  lemma {:induction false} FirstMissing(h: Hashes, tree: Tree, sources: seq<Source>, i: nat)
    requires i < |sources| && Get(tree, sources[i].source).None?
    requires forall j :: 0 <= j < i ==> Get(tree, sources[j].source).Some?
    ensures SourceHashes(h, tree, sources) == Err(Missing(sources[i].source))
    decreases |sources|
  {
    var n := |sources| - 1;
    if i < n {
      FirstMissing(h, tree, sources[..n], i);
    } else {
      forall s | s in sources[..n] ensures Get(tree, s.source).Some? {
      }
      BuildHonest.HashesNeedAll(h, tree, sources[..n]);
    }
  }

  /** Otherwise the addon's own description is the one file that can be missing. */
  lemma OnlyTheInfoCanBeMissing(h: Hashes, tree: Tree)
    requires forall s <- Mapped(Keys(tree)) :: s.addonPath == h.lower(s.addonPath)
    ensures Get(tree, "addoninfo.txt").Some? ==> Stamp.StampOf(h, tree).Ok?
    ensures Get(tree, "addoninfo.txt").None? ==>
      && Stamp.StampOf(h, tree) == Err(Missing("addoninfo.txt"))
      && SourceHashes(h, tree, Mapped(Keys(tree))) == Err(Missing("addoninfo.txt"))
  {
    var mapped := Mapped(Keys(tree));
    NoUpper(h.lower, mapped);
    if Get(tree, "addoninfo.txt").Some? {
      forall s | s in mapped ensures Get(tree, s.source).Some? {
        SourcesAreMapped(Keys(tree), s);
        GetIsMember(tree, s.source);
      }
      LinesOfPresent(h, tree, mapped);
    } else {
      assert mapped[0].source == "addoninfo.txt";
      FirstMissing(h, tree, mapped, 0);
    }
  }
}

/** A build that goes through exists: what BuildHonest asks for can be met. */
module BuildExample {
  import opened Wrappers
  import opened Digests
  import opened Ordered
  import opened Sorting
  import opened Texts
  import opened Addon
  import DistSound
  import opened Build
  import opened BuildHonest
  import opened StampLabel
  import opened StampRewrite
  import Stamp
  import Utf8
  import VpkFormat
  import VpkLost
  import VpkPath

  const SOURCE := "layout/a.xml"
  const ADDON := "panorama/layout/custom_game/a.xml"
  const COMPILED := "panorama/layout/custom_game/a.vxml_c"

  /** A layout with one label and no `>`. */
  const LABEL := HEAD + "-stamp\"text=\"\""

  function TwoSources(): seq<Source> { [Source(INFO, INFO, None), Source(SOURCE, ADDON, None)] }

  lemma SortOne(x: string)
    ensures SortTexts([x]) == [x] && SortTexts([]) == []
  {
    assert multiset(SortTexts([x])) == multiset([x]);
    SameElements(SortTexts([x]), [x]);
    assert SortTexts([x])[0] in SortTexts([x]);
    SameElements(SortTexts([]), []);
  }

  lemma UnderTwo(a: string, b: string, dir: string)
    ensures Under([a, b], dir)
         == (if StartsWith(a, dir + "/") then [a[|dir| + 1..]] else [])
          + (if StartsWith(b, dir + "/") then [b[|dir| + 1..]] else [])
  {
    assert [a, b][1..] == [b] && [b][1..] == [];
    assert Under([b][1..], dir) == [];
  }

  lemma StartsElsewhere(s: string, prefix: string)
    requires s != "" && prefix != "" && s[0] != prefix[0]
    ensures !StartsWith(s, prefix)
  {
  }

  lemma NoFilesIn(dir: string, suffix: string)
    requires dir != "" && dir[0] != 'l' && dir[0] != 'a'
    ensures FilesIn([INFO, SOURCE], dir, suffix) == []
  {
    StartsElsewhere(INFO, dir + "/");
    StartsElsewhere(SOURCE, dir + "/");
    UnderTwo(INFO, SOURCE, dir);
    SortOne("");
  }

  lemma NoArt()
    ensures FilesIn([INFO, SOURCE], "art", ".png") == []
  {
    assert "art" + "/" == "art/";
    assert INFO[1] == 'd' && "art/"[1] == 'r';
    assert !StartsWith(INFO, "art/");
    StartsElsewhere(SOURCE, "art/");
    UnderTwo(INFO, SOURCE, "art");
    SortOne("");
  }

  lemma OneFileOf(a: string, dir: string, name: string, suffix: string)
    requires !StartsWith(a, dir + "/") && EndsWith(name, suffix)
    ensures FilesIn([a, dir + "/" + name], dir, suffix) == [name]
  {
    var b := dir + "/" + name;
    assert b[..|dir| + 1] == dir + "/" && b[|dir| + 1..] == name;
    UnderTwo(a, b, dir);
    assert [] + [name] == [name] && [name][1..] == [];
    assert Ending([name][1..], suffix) == [];
    SortOne(name);
  }

  lemma EndsInXml()
    ensures EndsWith("a.xml", ".xml")
  {
    assert "a.xml"[1..] == ".xml";
  }

  lemma OneLayout()
    ensures FilesIn([INFO, SOURCE], "layout", ".xml") == ["a.xml"]
  {
    StartsElsewhere(INFO, "layout" + "/");
    EndsInXml();
    assert "layout" + "/" + "a.xml" == SOURCE;
    OneFileOf(INFO, "layout", "a.xml", ".xml");
  }

  lemma AndNothingElse(a: Source, b: Source, c: seq<Source>, d: seq<Source>, e: seq<Source>, f: seq<Source>)
    requires c == [] && d == [] && e == [] && f == []
    ensures [a] + [b] + c + d + e + f == [a, b]
  {
  }

  lemma OnePlain(folder: string, root: string, name: string)
    ensures Addon.Plain(folder, root, [name]) == [Source(folder + "/" + name, root + "/" + name, None)]
  {
    assert [name][1..] == [];
  }

  lemma MappedOfOne(keys: seq<string>, name: string)
    requires FilesIn(keys, "layout", ".xml") == [name] && FilesIn(keys, "styles", ".css") == []
    requires FilesIn(keys, "images", ".png") == [] && FilesIn(keys, "banners", ".png") == []
    requires FilesIn(keys, "art", ".png") == []
    ensures Mapped(keys)
         == [Source(INFO, INFO, None), Source("layout" + "/" + name, "panorama/layout/custom_game" + "/" + name, None)]
  {
    OnePlain("layout", "panorama/layout/custom_game", name);
    AndNothingElse(Source(INFO, INFO, None),
                   Source("layout" + "/" + name, "panorama/layout/custom_game" + "/" + name, None),
                   Addon.Plain("styles", "panorama/styles/custom_game", []), Pictures("images", "", []),
                   Pictures("banners", "banners/", []), Pictures("art", "art/", []));
  }

  lemma PathsOfA()
    ensures "layout" + "/" + "a.xml" == SOURCE && "panorama/layout/custom_game" + "/" + "a.xml" == ADDON
  {
  }

  lemma MappedIs(keys: seq<string>)
    requires keys == [INFO, SOURCE]
    ensures Mapped(keys) == TwoSources()
  {
    OneLayout();
    NoFilesIn("styles", ".css");
    NoFilesIn("images", ".png");
    NoFilesIn("banners", ".png");
    NoArt();
    PathsOfA();
    MappedOfOne(keys, "a.xml");
  }

  // ---- The label

  lemma LabelIsThere()
    ensures First(LABEL).Some?
  {
    var c := |HEAD| + 7;
    assert LABEL[..|HEAD|] == HEAD;
    assert LABEL[|HEAD|..] == "-stamp\"text=\"\"";
    Behind(LABEL, |HEAD|, "-stamp\"text=\"\"");
    assert forall j :: |HEAD| <= j < c - 1 ==> ClassChar(LABEL[j]);
    assert !ClassChar(LABEL[c - 1]);
    assert ClassEnd(LABEL, |HEAD|) == c - 1;
    assert Label(LABEL, 0, c);
    LabelMatches(LABEL, 0, c);
    RestOpens(LABEL, c, c);
  }

  /** The characters of a text behind a place. */
  lemma Behind(s: string, k: nat, tail: string)
    requires k <= |s| && s[k..] == tail
    ensures forall j :: k <= j < |s| ==> s[j] == tail[j - k]
  {
  }

  lemma {:induction false} NoneInValues(s: string)
    requires '>' !in s
    ensures StampRewrite.Plain(Values(s))
    decreases |s|
  {
    FirstSpan(s);
    if First(s).None? {
    } else {
      var m := First(s).value;
      NoneInValues(s[m.end + 1..]);
    }
  }

  lemma LabelIsStable()
    ensures Stable(LABEL)
  {
    assert '>' !in HEAD && '>' !in "-stamp\"text=\"\"";
    NoneInValues(LABEL);
    PlainValuesAreStable(LABEL);
  }

  // ---- The compiled path

  lemma CompiledIs()
    ensures CompiledPaths(TwoSources()) == [COMPILED]
  {
    DistSound.InfoDoesNotCompile();
    assert ADDON[|ADDON| - 4..] == ".xml";
    assert ADDON[..|ADDON| - 4] + ".vxml_c" == COMPILED;
    assert TwoSources()[1..] == [Source(SOURCE, ADDON, None)];
    assert [Source(SOURCE, ADDON, None)][1..] == [];
  }

  lemma JoinFour(a: string, b: string, c: string, d: string)
    ensures Join([a, b, c, d], '/') == a + "/" + b + "/" + c + "/" + d
  {
    assert [a, b, c, d][1..] == [b, c, d] && [b, c, d][1..] == [c, d] && [c, d][1..] == [d];
    assert Join([c, d], '/') == c + "/" + d;
  }

  lemma CompiledParts(path: string)
    requires path == COMPILED
    ensures path == "panorama" + "/" + "layout" + "/" + "custom_game" + "/" + "a.vxml_c"
  {
  }

  lemma CompiledHasNoBackslash(path: string)
    requires path == COMPILED
    ensures path[0] != '/' && '\\' !in path
  {
  }

  lemma CompiledIsClean(lower: string -> string, path: string)
    requires path == COMPILED && lower(path) == path
    ensures VpkPath.Faults(lower, path) == []
  {
    CompiledParts(path);
    CompiledHasNoBackslash(path);
    JoinFour("panorama", "layout", "custom_game", "a.vxml_c");
    VpkPath.PartsAreClean(lower, path, ["panorama", "layout", "custom_game", "a.vxml_c"]);
  }

  lemma CompiledSplits()
    ensures VpkPath.Split(COMPILED) == VpkPath.Parts("panorama/layout/custom_game", "a", "vxml_c")
  {
    VpkPath.FileInDir(COMPILED, "panorama/layout/custom_game", "a.vxml_c");
    VpkPath.CutAtDot(COMPILED, "a", "vxml_c");
  }

  lemma WholeFrom(path: string, p: VpkPath.Parts)
    requires VpkPath.Split(path) == p && p.name != "" && '\0' !in path
    requires |path| >= 2 && path[0] != ' ' && path[|path| - 1] != '.' && path[|path| - 1] != ' '
    ensures VpkPath.Readable(path) && VpkPath.Whole(path)
  {
  }

  lemma CompiledIsWhole(path: string)
    requires path == COMPILED
    ensures VpkPath.Readable(path) && VpkPath.Whole(path)
  {
    CompiledSplits();
    CompiledHasNoNul(path);
    WholeFrom(path, VpkPath.Parts("panorama/layout/custom_game", "a", "vxml_c"));
  }

  lemma CompiledHasNoNul(path: string)
    requires path == COMPILED
    ensures '\0' !in path && |path| == 36 && path[0] == 'p' && path[35] == 'c'
  {
  }

  // ---- The tree, the compiler and the build

  function Project(): Tree { [(INFO, []), (SOURCE, Utf8.Encode(LABEL))] }

  function Output(): Tree { [(COMPILED, [])] }

  function Toolbox(): Tools { Tools((staged: Tree) => Some(Output()), (path: string) => [], "") }

  lemma ProjectHas()
    ensures Keys(Project()) == [INFO, SOURCE]
    ensures Get(Project(), INFO) == Some([]) && Get(Project(), SOURCE) == Some(Utf8.Encode(LABEL))
    ensures Stamp.TextOf(Project(), SOURCE) == LABEL
  {
    assert Project()[1..] == [(SOURCE, Utf8.Encode(LABEL))];
    assert INFO[0] != SOURCE[0];
    Utf8.DecodesEncoded(LABEL);
  }

  lemma NoneUpper(lower: string -> string, a: Source, b: Source)
    requires lower(a.addonPath) == a.addonPath && lower(b.addonPath) == b.addonPath
    ensures FirstUpper(lower, [a, b]) == None
  {
    assert [a, b][1..] == [b] && [b][1..] == [];
    assert FirstUpper(lower, [b][1..]) == None && FirstUpper(lower, [b]) == None;
  }

  lemma SourcesAre(h: Hashes, keys: seq<string>)
    requires h.lower(INFO) == INFO && h.lower(ADDON) == ADDON && keys == [INFO, SOURCE]
    ensures Sources(h, keys) == Ok(TwoSources())
  {
    MappedIs(keys);
    NoneUpper(h.lower, Source(INFO, INFO, None), Source(SOURCE, ADDON, None));
  }

  lemma LinesOfTwo(h: Hashes, tree: Tree, a: Source, b: Source)
    requires Get(tree, a.source).Some? && Get(tree, b.source).Some?
    ensures Stamp.Lines(h, tree, [a, b]).Ok?
  {
    assert [a, b][1..] == [b] && [b][1..] == [];
    assert Stamp.Lines(h, tree, [b]).Ok?;
  }

  lemma LabelledOfTwo(tree: Tree, a: Source, b: Source)
    requires !Stamp.IsXml(a.source) && Stamp.IsXml(b.source) && First(Stamp.TextOf(tree, b.source)).Some?
    ensures Stamp.Labelled(tree, [a, b]) == [b.source]
  {
    assert [a, b][1..] == [b] && [b][1..] == [];
    assert Stamp.Labelled(tree, [b][1..]) == [] && Stamp.Labelled(tree, [b]) == [b.source];
  }

  lemma StampOfTwo(h: Hashes, tree: Tree, a: Source, b: Source)
    requires Sources(h, Keys(tree)) == Ok([a, b]) && Get(tree, a.source).Some? && Get(tree, b.source).Some?
    ensures Stamp.StampOf(h, tree).Ok?
  {
    LinesOfTwo(h, tree, a, b);
  }

  lemma StampIsThere(h: Hashes, tree: Tree)
    requires h.lower(INFO) == INFO && h.lower(ADDON) == ADDON && tree == Project()
    ensures Stamp.StampOf(h, tree).Ok?
  {
    ProjectHas();
    SourcesAre(h, Keys(Project()));
    StampOfTwo(h, tree, Source(INFO, INFO, None), Source(SOURCE, ADDON, None));
  }

  lemma OneIsXml()
    ensures !Stamp.IsXml(INFO) && Stamp.IsXml(SOURCE)
  {
    assert INFO[|INFO| - 4..] == ".txt" && SOURCE[|SOURCE| - 4..] == ".xml";
  }

  lemma LabelledIs(h: Hashes)
    requires h.lower(INFO) == INFO && h.lower(ADDON) == ADDON
    ensures Stamp.StampedLayouts(h, Project()) == Ok([SOURCE])
  {
    ProjectHas();
    SourcesAre(h, Keys(Project()));
    LabelIsThere();
    OneIsXml();
    LabelledOfTwo(Project(), Source(INFO, INFO, None), Source(SOURCE, ADDON, None));
  }

  lemma OutputIs()
    ensures ListFiles(Output(), "panorama") == ["layout/custom_game/a.vxml_c"]
    ensures OutputPaths(Output()) == [COMPILED] && Keys(Output()) == [COMPILED]
  {
    var keys := Keys(Output());
    assert "panorama" + "/" == "panorama/";
    assert COMPILED[..9] == "panorama/" && COMPILED[9..] == "layout/custom_game/a.vxml_c";
    assert Under(keys[1..], "panorama") == [];
    SortOne("layout/custom_game/a.vxml_c");
    assert PANORAMA + "layout/custom_game/a.vxml_c" == COMPILED;
  }

  lemma OneIsPacked(h: Hashes, out: Tree, listed: string, f: VpkFormat.File, p: VpkPath.Parts)
    requires f.path == PANORAMA + listed && Get(out, f.path) == Some([]) && f.data == []
    requires VpkPath.Split(f.path) == p && VpkPath.Faults(h.lower, f.path) == []
    requires |p.dir| < 100 && |p.name| < 100 && |p.ext| < 100
    ensures VpkFormat.Written(h, Packed(out, [listed])).Ok?
  {
    VpkLost.OneFileAccepted(h, f, p);
    assert Packed(out, [listed]) == [f];
  }

  lemma PackedIs(h: Hashes, path: string)
    requires path == COMPILED && h.lower(path) == path
    ensures VpkFormat.Written(h, Packed(Output(), ListFiles(Output(), "panorama"))).Ok?
  {
    OutputIs();
    CompiledSplits();
    CompiledIsClean(h.lower, path);
    assert PANORAMA + "layout/custom_game/a.vxml_c" == path;
    OneIsPacked(h, Output(), "layout/custom_game/a.vxml_c", VpkFormat.File(path, []),
                VpkPath.Parts("panorama/layout/custom_game", "a", "vxml_c"));
  }

  lemma OneStableLayout(h: Hashes, tree: Tree, layout: string)
    requires Stamp.StampOf(h, tree).Ok? && Stamp.StampedLayouts(h, tree) == Ok([layout])
    requires Stable(Stamp.TextOf(tree, layout))
    ensures Stamp.AllStable(h, tree) && Stamp.StampLayouts(h, tree).Ok?
  {
    Stamp.StampIsFixedPoint(h, tree);
  }

  lemma PutTogether(h: Hashes, tree: Tree, tools: Tools, out: Tree, compiled: string, sources: seq<Source>)
    requires Stamp.StampOf(h, tree).Ok? && Stamp.AllStable(h, tree) && Stamp.StampLayouts(h, tree).Ok?
    requires Stamp.StampedLayouts(h, tree).Ok? && Stamp.StampedLayouts(h, tree).value != []
    requires Sources(h, Keys(tree)) == Ok(sources) && CompiledPaths(sources) == [compiled]
    requires tools.compile(Staged(Stamp.StampLayouts(h, tree).value.0, sources, tools.vtexFor)) == Some(out)
    requires Keys(out) == [compiled] && OutputPaths(out) == [compiled]
    requires VpkFormat.Written(h, Packed(out, ListFiles(out, "panorama"))).Ok?
    requires VpkPath.Readable(compiled) && VpkPath.Whole(compiled)
    ensures Buildable(h, tree, tools, out)
  {
  }

  /** Whatever the hashes, a project of one labelled layout can be built, and the build leaves nothing to report. */
  lemma ABuildGoesThrough(h: Hashes)
    requires h.lower(INFO) == INFO && h.lower(ADDON) == ADDON && h.lower(COMPILED) == COMPILED
    ensures Buildable(h, Project(), Toolbox(), Output())
    ensures Built(h, Project(), None, Toolbox()).error == None
  {
    ProjectHas();
    SourcesAre(h, Keys(Project()));
    StampIsThere(h, Project());
    LabelledIs(h);
    LabelIsStable();
    CompiledIs();
    OutputIs();
    PackedIs(h, COMPILED);
    CompiledIsWhole(COMPILED);
    OneStableLayout(h, Project(), SOURCE);
    PutTogether(h, Project(), Toolbox(), Output(), COMPILED, TwoSources());
    BuildIsHonest(h, Project(), None, Toolbox(), Output());
  }
}

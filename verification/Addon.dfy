/** The files of `hud/`, and where each source goes in the addon (hud/src/addon.ts). */
module Addon {
  import opened Wrappers
  import opened Octets
  import opened Digests
  import opened Ordered
  import opened Sorting
  import opened Texts

  /** Files by path, in the order the directory lists them. */
  type Tree = Record<Bytes>

  datatype Source = Source(source: string, addonPath: string, vtex: Option<string>)

  datatype Fault = UpperCase(source: string) | Missing(path: string)

  /** The bytes under a path, none when there is no file. */
  function Contents(tree: Tree, path: string): Bytes {
    match Get(tree, path)
    case Some(bytes) => bytes
    case None => []
  }

  const IMAGE_ROOT := "panorama/images/custom_game/ezpug"
  const INFO := "addoninfo.txt"

  /** The keys under a directory, relative to it. */
  function Under(keys: seq<string>, dir: string): seq<string> {
    if keys == [] then []
    else
      (if StartsWith(keys[0], dir + "/") then [keys[0][|dir| + 1..]] else []) + Under(keys[1..], dir)
  }

  function Ending(names: seq<string>, suffix: string): seq<string> {
    if names == [] then []
    else (if EndsWith(names[0], suffix) then [names[0]] else []) + Ending(names[1..], suffix)
  }

  /** `listFiles`: everything under a directory, sorted. */
  function ListFiles(tree: Tree, dir: string): seq<string> {
    SortTexts(Under(Keys(tree), dir))
  }

  /** `files(dir, suffix)`. */
  function FilesIn(keys: seq<string>, dir: string, suffix: string): seq<string> {
    SortTexts(Ending(Under(keys, dir), suffix))
  }

  function Plain(folder: string, root: string, names: seq<string>): seq<Source> {
    if names == [] then []
    else [Source(folder + "/" + names[0], root + "/" + names[0], None)] + Plain(folder, root, names[1..])
  }

  /** `path` with an ending it has replaced by another. */
  function Swap(path: string, ending: string, with: string): string
    requires EndsWith(path, ending)
  {
    path[..|path| - |ending|] + with
  }

  /** A picture, with the texture descriptor written beside it. */
  function Picture(folder: string, under: string, name: string): Source {
    var addonPath := IMAGE_ROOT + "/" + under + name;
    Source(folder + "/" + name, addonPath,
           Some(if EndsWith(addonPath, ".png") then Swap(addonPath, ".png", ".vtex") else addonPath))
  }

  function Pictures(folder: string, under: string, names: seq<string>): seq<Source> {
    if names == [] then []
    else [Picture(folder, under, names[0])] + Pictures(folder, under, names[1..])
  }

  function Mapped(keys: seq<string>): seq<Source> {
    [Source(INFO, INFO, None)]
    + Plain("layout", "panorama/layout/custom_game", FilesIn(keys, "layout", ".xml"))
    + Plain("styles", "panorama/styles/custom_game", FilesIn(keys, "styles", ".css"))
    + Pictures("images", "", FilesIn(keys, "images", ".png"))
    + Pictures("banners", "banners/", FilesIn(keys, "banners", ".png"))
    + Pictures("art", "art/", FilesIn(keys, "art", ".png"))
  }

  function FirstUpper(lower: string -> string, mapped: seq<Source>): Option<Fault> {
    if mapped == [] then None
    else if mapped[0].addonPath != lower(mapped[0].addonPath) then Some(UpperCase(mapped[0].source))
    else FirstUpper(lower, mapped[1..])
  }

  /** Every source, mapped; it depends on which files there are, not on what they hold. */
  function Sources(h: Hashes, keys: seq<string>): Result<seq<Source>, Fault> {
    var mapped := Mapped(keys);
    match FirstUpper(h.lower, mapped)
    case Some(fault) => Err(fault)
    case None => Ok(mapped)
  }

  function CompiledPath(s: Source): Option<string> {
    if s.vtex.Some? then Some(s.vtex.value + "_c")
    else if EndsWith(s.addonPath, ".xml") then Some(Swap(s.addonPath, ".xml", ".vxml_c"))
    else if EndsWith(s.addonPath, ".css") then Some(Swap(s.addonPath, ".css", ".vcss_c"))
    else None
  }

  /** What the sources compile to, in their order. */
  function CompiledPaths(sources: seq<Source>): seq<string> {
    if sources == [] then []
    else
      var rest := CompiledPaths(sources[1..]);
      match CompiledPath(sources[0])
      case Some(path) => [path] + rest
      case None => rest
  }

  /** Every source's hash by its path. */
  function SourceHashes(h: Hashes, tree: Tree, sources: seq<Source>): Result<Record<string>, Fault>
    decreases |sources|
  {
    if sources == [] then Ok([])
    else
      var last := sources[|sources| - 1].source;
      var front :- SourceHashes(h, tree, sources[..|sources| - 1]);
      match Get(tree, last)
      case None => Err(Missing(last))
      case Some(bytes) => Ok(Put(front, last, h.sha256(bytes)))
  }

  // ---- Reading the directories the way the code does, folder by folder

  method ListSources(h: Hashes, tree: Tree) returns (r: Result<seq<Source>, Fault>)
    ensures r == Sources(h, Keys(tree))
  {
    var keys := Keys(tree);
    var mapped := [Source(INFO, INFO, None)];
    mapped := AddPlain(mapped, "layout", "panorama/layout/custom_game", FilesIn(keys, "layout", ".xml"));
    mapped := AddPlain(mapped, "styles", "panorama/styles/custom_game", FilesIn(keys, "styles", ".css"));
    mapped := AddPictures(mapped, "images", "", FilesIn(keys, "images", ".png"));
    mapped := AddPictures(mapped, "banners", "banners/", FilesIn(keys, "banners", ".png"));
    mapped := AddPictures(mapped, "art", "art/", FilesIn(keys, "art", ".png"));
    var upper := FindUpper(h.lower, mapped);
    if upper.Some? {
      return Err(upper.value);
    }
    return Ok(mapped);
  }

  method FindUpper(lower: string -> string, mapped: seq<Source>) returns (r: Option<Fault>)
    ensures r == FirstUpper(lower, mapped)
  {
    for i := 0 to |mapped|
      invariant FirstUpper(lower, mapped) == FirstUpper(lower, mapped[i..])
    {
      assert mapped[i..][1..] == mapped[i + 1..];
      if mapped[i].addonPath != lower(mapped[i].addonPath) {
        return Some(UpperCase(mapped[i].source));
      }
    }
    return None;
  }

  method AddPlain(before: seq<Source>, folder: string, root: string, names: seq<string>)
    returns (mapped: seq<Source>)
    ensures mapped == before + Plain(folder, root, names)
  {
    mapped := before;
    for i := 0 to |names|
      invariant mapped + Plain(folder, root, names[i..]) == before + Plain(folder, root, names)
    {
      assert names[i..][1..] == names[i + 1..];
      mapped := mapped + [Source(folder + "/" + names[i], root + "/" + names[i], None)];
    }
  }

  method AddPictures(before: seq<Source>, folder: string, under: string, names: seq<string>)
    returns (mapped: seq<Source>)
    ensures mapped == before + Pictures(folder, under, names)
  {
    mapped := before;
    for i := 0 to |names|
      invariant mapped + Pictures(folder, under, names[i..]) == before + Pictures(folder, under, names)
    {
      assert names[i..][1..] == names[i + 1..];
      mapped := mapped + [Picture(folder, under, names[i])];
    }
  }
}

/**
 * What the build stamp is a stamp of: every source's name, every byte of what is no layout, and of a layout the text
 * outside its stamp labels' values, if its labels are stable (hud/src/stamp.ts).
 */
module StampSees {
  import opened Wrappers
  import opened Octets
  import opened Digests
  import opened Ordered
  import opened Texts
  import opened Addon
  import opened Stamp
  import opened StampLabel
  import opened StampRewrite
  import opened StampSkeleton
  import StampPattern
  import Utf8

  /** The sources as the stamp sees them: their names, and their contents with every label's text masked. */
  function Seen(tree: Tree, sources: seq<Source>): seq<(string, Bytes)> {
    if sources == [] then []
    else [(sources[0].source, Hashed(sources[0].source, Contents(tree, sources[0].source)))] + Seen(tree, sources[1..])
  }

  function LinesOf(h: Hashes, seen: seq<(string, Bytes)>): (r: seq<string>)
    ensures |r| == |seen|
    ensures forall i :: 0 <= i < |r| ==> r[i] == seen[i].0 + " " + h.sha256(seen[i].1)
  {
    seq(|seen|, i requires 0 <= i < |seen| => seen[i].0 + " " + h.sha256(seen[i].1))
  }

  lemma LinesOfCons(h: Hashes, seen: seq<(string, Bytes)>)
    requires seen != []
    ensures LinesOf(h, seen) == [seen[0].0 + " " + h.sha256(seen[0].1)] + LinesOf(h, seen[1..])
  {
  }

  lemma {:induction false} LinesSee(h: Hashes, tree: Tree, sources: seq<Source>)
    requires Lines(h, tree, sources).Ok?
    ensures Lines(h, tree, sources).value == LinesOf(h, Seen(tree, sources))
  {
    if sources == [] {
    } else {
      LinesSee(h, tree, sources[1..]);
      LinesOfCons(h, Seen(tree, sources));
    }
  }

  /** Names a newline cannot confuse. */
  ghost predicate Named(seen: seq<(string, Bytes)>) {
    forall i :: 0 <= i < |seen| ==> '\n' !in seen[i].0
  }

  /** Nothing in the one list shares a hash with anything else in the other. */
  ghost predicate Apart(h: Hashes, a: seq<(string, Bytes)>, b: seq<(string, Bytes)>) {
    forall i, j :: 0 <= i < |a| && 0 <= j < |b| && h.sha256(a[i].1) == h.sha256(b[j].1) ==> a[i].1 == b[j].1
  }

  /** A line is a name and a digest of a known length, so it can be taken apart again. */
  lemma LineIsInjective(name: string, digest: HexDigest, other: string, its: HexDigest)
    requires name + " " + digest == other + " " + its
    ensures name == other && digest == its
  {
    var line := name + " " + digest;
    assert |name| == |other|;
    assert line[..|name|] == name && line[..|name|] == other;
    assert line[|name| + 1..] == digest && line[|name| + 1..] == its;
  }

  lemma LinesHaveNoNewline(h: Hashes, seen: seq<(string, Bytes)>)
    requires Named(seen)
    ensures forall l <- LinesOf(h, seen) :: '\n' !in l && l != ""
  {
    forall l | l in LinesOf(h, seen) ensures '\n' !in l && l != "" {
      var i :| 0 <= i < |seen| && LinesOf(h, seen)[i] == l;
      assert !IsHex('\n');
    }
  }

  /** Two trees are hashed as the same text exactly when they have the same sources with the same masked contents. */
  lemma StampSeesTheMasked(h: Hashes, a: Tree, b: Tree, sa: seq<Source>, sb: seq<Source>)
    requires Sources(h, Keys(a)) == Ok(sa) && Lines(h, a, sa).Ok? && Named(Seen(a, sa))
    requires Sources(h, Keys(b)) == Ok(sb) && Lines(h, b, sb).Ok? && Named(Seen(b, sb))
    requires Apart(h, Seen(a, sa), Seen(b, sb))
    ensures Join(Lines(h, a, sa).value, '\n') == Join(Lines(h, b, sb).value, '\n') <==> Seen(a, sa) == Seen(b, sb)
    ensures Seen(a, sa) == Seen(b, sb) ==> StampOf(h, a) == StampOf(h, b)
  {
    LinesSee(h, a, sa);
    LinesSee(h, b, sb);
    SameTextSameSeen(h, Seen(a, sa), Seen(b, sb));
  }

  lemma SameTextSameSeen(h: Hashes, a: seq<(string, Bytes)>, b: seq<(string, Bytes)>)
    requires Named(a) && Named(b) && Apart(h, a, b)
    ensures Join(LinesOf(h, a), '\n') == Join(LinesOf(h, b), '\n') <==> a == b
  {
    LinesHaveNoNewline(h, a);
    LinesHaveNoNewline(h, b);
    if Join(LinesOf(h, a), '\n') == Join(LinesOf(h, b), '\n') {
      JoinIsInjective(LinesOf(h, a), LinesOf(h, b), '\n');
      SameLinesSameSources(h, a, b);
    }
  }

  lemma SameLinesSameSources(h: Hashes, a: seq<(string, Bytes)>, b: seq<(string, Bytes)>)
    requires LinesOf(h, a) == LinesOf(h, b) && Apart(h, a, b)
    ensures a == b
  {
    assert |LinesOf(h, a)| == |LinesOf(h, b)|;
    forall i | 0 <= i < |a| ensures a[i] == b[i] {
      assert LinesOf(h, a)[i] == LinesOf(h, b)[i];
      LineIsInjective(a[i].0, h.sha256(a[i].1), b[i].0, h.sha256(b[i].1));
    }
  }

  // ---- What the mask hides of the contents

  /** The same content but for what stamp labels say: the same text outside their values, or the same bytes. */
  predicate SameButLabels(source: string, b: Bytes, d: Bytes) {
    if IsXml(source) then Skeleton(Utf8.Decode(b)) == Skeleton(Utf8.Decode(d)) else b == d
  }

  ghost predicate SameSources(a: Tree, b: Tree, sa: seq<Source>, sb: seq<Source>) {
    |sa| == |sb| && forall i :: 0 <= i < |sa| ==> SameSource(a, b, sa[i].source, sb[i].source)
  }

  predicate SameSource(a: Tree, b: Tree, p: string, q: string) {
    p == q && SameButLabels(p, Contents(a, p), Contents(b, q))
  }

  lemma SameIsHashedAlike(source: string, b: Bytes, d: Bytes)
    requires SameButLabels(source, b, d)
    ensures Hashed(source, b) == Hashed(source, d)
  {
    if IsXml(source) {
      SameSkeletonSameMask(Utf8.Decode(b), Utf8.Decode(d), PLACEHOLDER);
    }
  }

  lemma HashedAlikeIsSame(source: string, b: Bytes, d: Bytes)
    requires IsXml(source) ==> Stable(Utf8.Decode(b)) && Stable(Utf8.Decode(d))
    requires Hashed(source, b) == Hashed(source, d)
    ensures SameButLabels(source, b, d)
  {
    if IsXml(source) {
      Utf8.DecodesEncoded(Rewrite(Utf8.Decode(b), PLACEHOLDER));
      Utf8.DecodesEncoded(Rewrite(Utf8.Decode(d), PLACEHOLDER));
      MaskSeesTheSkeleton(Utf8.Decode(b), Utf8.Decode(d), PLACEHOLDER);
    }
  }

  /** And where decoding loses nothing, texts with the same skeleton and the same labels are the same bytes. */
  lemma SameBytesIff(b: Bytes, d: Bytes)
    requires Utf8.REPLACEMENT !in Utf8.Decode(b) && Utf8.REPLACEMENT !in Utf8.Decode(d)
    ensures b == d
       <==> && Skeleton(Utf8.Decode(b)) == Skeleton(Utf8.Decode(d))
            && Values(Utf8.Decode(b)) == Values(Utf8.Decode(d))
  {
    Utf8.EncodedAgain(b);
    Utf8.EncodedAgain(d);
    SameSkeletonAndValues(Utf8.Decode(b), Utf8.Decode(d));
  }

  /** Trees with the same sources but for the labels are seen alike, stable or not. */
  lemma SameSourcesSameSeen(a: Tree, b: Tree, sa: seq<Source>, sb: seq<Source>)
    requires SameSources(a, b, sa, sb)
    ensures Seen(a, sa) == Seen(b, sb)
  {
    SeenLength(a, sa);
    SeenLength(b, sb);
    forall i | 0 <= i < |sa| ensures Seen(a, sa)[i] == Seen(b, sb)[i] {
      SeenAt(a, sa, i);
      SeenAt(b, sb, i);
      assert SameSource(a, b, sa[i].source, sb[i].source);
      SameIsHashedAlike(sa[i].source, Contents(a, sa[i].source), Contents(b, sb[i].source));
    }
  }

  lemma SameSeenSameSources(h: Hashes, a: Tree, b: Tree, sa: seq<Source>, sb: seq<Source>)
    requires Sources(h, Keys(a)) == Ok(sa) && Sources(h, Keys(b)) == Ok(sb) && AllStable(h, a) && AllStable(h, b)
    requires Seen(a, sa) == Seen(b, sb)
    ensures SameSources(a, b, sa, sb)
  {
    SeenLength(a, sa);
    SeenLength(b, sb);
    forall i | 0 <= i < |sa| ensures SameSource(a, b, sa[i].source, sb[i].source) {
      SeenAt(a, sa, i);
      SeenAt(b, sb, i);
      LayoutIsStable(h, a, sa, i);
      LayoutIsStable(h, b, sb, i);
      assert Seen(a, sa)[i] == Seen(b, sb)[i];
      HashedAlikeIsSame(sa[i].source, Contents(a, sa[i].source), Contents(b, sb[i].source));
    }
  }

  lemma LayoutIsStable(h: Hashes, tree: Tree, sources: seq<Source>, i: nat)
    requires Sources(h, Keys(tree)) == Ok(sources) && AllStable(h, tree) && i < |sources|
    ensures IsXml(sources[i].source) ==> Stable(Utf8.Decode(Contents(tree, sources[i].source)))
  {
    var q := sources[i].source;
    assert StampedLayouts(h, tree) == Ok(Labelled(tree, sources));
    assert TextOf(tree, q) == Utf8.Decode(Contents(tree, q));
    LabelledHas(tree, sources, i);
  }

  lemma {:induction false} LabelledHas(tree: Tree, sources: seq<Source>, i: nat)
    requires i < |sources|
    ensures var q := sources[i].source; IsXml(q) && First(TextOf(tree, q)).Some? ==> q in Labelled(tree, sources)
  {
    if i == 0 {
    } else {
      LabelledHas(tree, sources[1..], i - 1);
    }
  }

  /**
   * Two trees with stable labels are hashed as the same text exactly when they have the same sources, the same but for
   * what their stamp labels say. Trees that are the same in this sense have the same stamp, stable or not.
   */
  lemma StampSeesEveryOtherByte(h: Hashes, a: Tree, b: Tree, sa: seq<Source>, sb: seq<Source>)
    requires Sources(h, Keys(a)) == Ok(sa) && Lines(h, a, sa).Ok? && Named(Seen(a, sa))
    requires Sources(h, Keys(b)) == Ok(sb) && Lines(h, b, sb).Ok? && Named(Seen(b, sb))
    requires Apart(h, Seen(a, sa), Seen(b, sb))
    ensures AllStable(h, a) && AllStable(h, b) ==>
      (Join(Lines(h, a, sa).value, '\n') == Join(Lines(h, b, sb).value, '\n') <==> SameSources(a, b, sa, sb))
    ensures SameSources(a, b, sa, sb) ==> StampOf(h, a) == StampOf(h, b)
  {
    StampSeesTheMasked(h, a, b, sa, sb);
    if SameSources(a, b, sa, sb) {
      SameSourcesSameSeen(a, b, sa, sb);
    } else if AllStable(h, a) && AllStable(h, b) && Seen(a, sa) == Seen(b, sb) {
      SameSeenSameSources(h, a, b, sa, sb);
    }
  }

  /** A stable text keeps its skeleton whatever is written into its labels. */
  lemma RewriteKeepsSkeleton(s: string, t: string)
    requires Stable(s) && Clean(t)
    ensures Skeleton(Rewrite(s, t)) == Skeleton(s)
  {
    RewriteKeepsStable(s, t);
    LastWriteWins(s, t, PLACEHOLDER);
    MaskSeesTheSkeleton(Rewrite(s, t), s, PLACEHOLDER);
  }

  // ---- The stamp itself

  /** The text the stamp is a hash of. */
  function HashedText(h: Hashes, tree: Tree, sources: seq<Source>): string {
    Join(LinesOf(h, Seen(tree, sources)), '\n')
  }

  /** A stamp is seven characters, each a hexadecimal digit and the one at its place in the digest of that text. */
  lemma StampIsSevenDigits(h: Hashes, tree: Tree, sources: seq<Source>)
    requires Sources(h, Keys(tree)) == Ok(sources) && Lines(h, tree, sources).Ok?
    ensures StampOf(h, tree).Ok? && |StampOf(h, tree).value| == 7
    ensures var stamp, digest := StampOf(h, tree).value, h.sha256(Utf8.Encode(HashedText(h, tree, sources)));
      forall i :: 0 <= i < 7 ==> IsHex(stamp[i]) && stamp[i] == digest[i]
  {
    LinesSee(h, tree, sources);
    var digest := h.sha256(Utf8.Encode(HashedText(h, tree, sources)));
    forall i | 0 <= i < 7 ensures IsHex(digest[i]) {
      assert digest[i] in digest;
    }
  }

  /** What is hashed of a layout that is a lone label, and of a file that is no layout. */
  lemma MasksTheLabel(source: string, name: string, attrs: string, value: string, bytes: Bytes)
    requires StampPattern.NameIs(name) && StampPattern.AttrsAre(attrs) && '"' !in value
    ensures var opening := StampPattern.Opening(name, attrs);
      Hashed(source + ".xml", Utf8.Encode(opening + value + "\"")) == Utf8.Encode(opening + "0000000" + "\"")
    ensures !EndsWith(source, ".xml") ==> Hashed(source, bytes) == bytes
  {
    var text := StampPattern.Opening(name, attrs) + value + "\"";
    Utf8.DecodesEncoded(text);
    StampPattern.LoneLabel(name, attrs, value, "0000000");
  }

  lemma LinesOfOne(h: Hashes, tree: Tree, s: Source, x: Bytes)
    requires Get(tree, s.source) == Some(x)
    ensures Lines(h, tree, [s]) == Ok([s.source + " " + h.sha256(Hashed(s.source, x))])
  {
    var line := s.source + " " + h.sha256(Hashed(s.source, x));
    assert Lines(h, tree, [s][1..]) == Ok([]);
    assert Lines(h, tree, [s]) == Ok([line] + []);
    assert [line] + [] == [line];
  }

  /** Two sources: a line for each, the name, a blank and the digest of what is hashed of it. */
  lemma StampOfTwoLines(h: Hashes, tree: Tree, a: Source, b: Source, x: Bytes, y: Bytes)
    requires Sources(h, Keys(tree)) == Ok([a, b]) && Get(tree, a.source) == Some(x) && Get(tree, b.source) == Some(y)
    ensures var first := a.source + " " + h.sha256(Hashed(a.source, x));
      var second := b.source + " " + h.sha256(Hashed(b.source, y));
      StampOf(h, tree) == Ok(h.sha256(Utf8.Encode(first + "\n" + second))[..7])
  {
    var first := a.source + " " + h.sha256(Hashed(a.source, x));
    var second := b.source + " " + h.sha256(Hashed(b.source, y));
    LinesOfOne(h, tree, b, y);
    assert [a, b][1..] == [b] && [first, second][1..] == [second];
    assert Lines(h, tree, [a, b]) == Ok([first] + [second]);
    assert [first] + [second] == [first, second];
    assert Join([first, second], '\n') == first + "\n" + second;
  }

  /** Digests of different texts differ within their first seven characters. */
  ghost predicate SevenTell(h: Hashes, x: string, y: string) {
    (forall i :: 0 <= i < 7 ==> h.sha256(Utf8.Encode(x))[i] == h.sha256(Utf8.Encode(y))[i]) ==> x == y
  }

  /**
   * Two trees with stable labels have the same stamp exactly when they have the same sources but for what their stamp
   * labels say, hash collisions and newlines in names aside.
   */
  lemma StampsDifferIffSourcesDo(h: Hashes, a: Tree, b: Tree, sa: seq<Source>, sb: seq<Source>)
    requires Sources(h, Keys(a)) == Ok(sa) && Lines(h, a, sa).Ok? && Named(Seen(a, sa)) && AllStable(h, a)
    requires Sources(h, Keys(b)) == Ok(sb) && Lines(h, b, sb).Ok? && Named(Seen(b, sb)) && AllStable(h, b)
    requires Apart(h, Seen(a, sa), Seen(b, sb)) && SevenTell(h, HashedText(h, a, sa), HashedText(h, b, sb))
    ensures StampOf(h, a) == StampOf(h, b) <==> SameSources(a, b, sa, sb)
  {
    LinesSee(h, a, sa);
    LinesSee(h, b, sb);
    StampSeesEveryOtherByte(h, a, b, sa, sb);
    if StampOf(h, a) == StampOf(h, b) {
      StampIsSevenDigits(h, a, sa);
      StampIsSevenDigits(h, b, sb);
      var x, y := HashedText(h, a, sa), HashedText(h, b, sb);
      forall i | 0 <= i < 7 ensures h.sha256(Utf8.Encode(x))[i] == h.sha256(Utf8.Encode(y))[i] {
        assert StampOf(h, a).value[i] == StampOf(h, b).value[i];
      }
    }
  }

  /** Only the first seven characters of the digest count: of two ways to hash, the stamps agree when these do. */
  lemma OnlySevenCount(h: Hashes, g: Hashes, tree: Tree, sources: seq<Source>)
    requires Sources(h, Keys(tree)) == Ok(sources) && Sources(g, Keys(tree)) == Ok(sources)
    requires Lines(h, tree, sources).Ok? && Lines(g, tree, sources).Ok?
    requires HashedText(h, tree, sources) == HashedText(g, tree, sources)
    ensures var bytes := Utf8.Encode(HashedText(h, tree, sources));
      StampOf(h, tree) == StampOf(g, tree) <==> forall i :: 0 <= i < 7 ==> h.sha256(bytes)[i] == g.sha256(bytes)[i]
  {
    var bytes := Utf8.Encode(HashedText(h, tree, sources));
    StampIsSevenDigits(h, tree, sources);
    StampIsSevenDigits(g, tree, sources);
    SevenPlaces(StampOf(h, tree).value, StampOf(g, tree).value, h.sha256(bytes), g.sha256(bytes));
  }

  lemma SevenPlaces(a: string, b: string, x: string, y: string)
    requires |a| == 7 && |b| == 7 && |x| >= 7 && |y| >= 7
    requires forall i :: 0 <= i < 7 ==> a[i] == x[i] && b[i] == y[i]
    ensures a == b <==> forall i :: 0 <= i < 7 ==> x[i] == y[i]
  {
    if forall i :: 0 <= i < 7 ==> x[i] == y[i] {
      assert forall i :: 0 <= i < 7 ==> a[i] == b[i];
    }
  }

  // ---- Bytes no stamp sees

  /** Contents of one source that are hashed alike have no part in the stamp. */
  lemma {:induction false} SwapKeepsLines(h: Hashes, a: Tree, b: Tree, sources: seq<Source>, l: string)
    requires forall q :: q != l ==> Get(a, q) == Get(b, q)
    requires Get(a, l).Some? && Get(b, l).Some? && Hashed(l, Get(a, l).value) == Hashed(l, Get(b, l).value)
    ensures Lines(h, a, sources) == Lines(h, b, sources)
  {
    if sources == [] {
    } else {
      SwapKeepsLines(h, a, b, sources[1..], l);
      assert sources[0].source != l ==> Get(a, sources[0].source) == Get(b, sources[0].source);
    }
  }

  lemma SwapKeepsStamp(h: Hashes, tree: Tree, l: string, x: Bytes, y: Bytes)
    requires l in Keys(tree) && Hashed(l, x) == Hashed(l, y)
    ensures StampOf(h, Put(tree, l, x)) == StampOf(h, Put(tree, l, y))
    ensures Get(Put(tree, l, x), l) == Some(x) && Get(Put(tree, l, y), l) == Some(y)
  {
    PutKeepsKeys(tree, l, x);
    PutKeepsKeys(tree, l, y);
    forall q ensures Get(Put(tree, l, x), q) == if q == l then Some(x) else Get(tree, q) {
      GetPut(tree, l, x, q);
    }
    forall q ensures Get(Put(tree, l, y), q) == if q == l then Some(y) else Get(tree, q) {
      GetPut(tree, l, y, q);
    }
    var sources := Sources(h, Keys(tree));
    if sources.Ok? {
      SwapKeepsLines(h, Put(tree, l, x), Put(tree, l, y), sources.value, l);
    }
  }

  /** In any tree: a layout of malformed bytes can be changed for other malformed bytes, and the stamp stays. */
  lemma MalformedIsUnseen(h: Hashes, tree: Tree, l: string)
    requires l in Keys(tree) && IsXml(l)
    ensures var a, b := Put(tree, l, [0xFE]), Put(tree, l, [0xFF]);
      StampOf(h, a) == StampOf(h, b) && Get(a, l) == Some([0xFE]) && Get(b, l) == Some([0xFF])
  {
    assert [0xFE] + [] == [0xFE] && [0xFF] + [] == [0xFF];
    Utf8.LeadsNothing(0xFE, []);
    Utf8.LeadsNothing(0xFF, []);
    SwapKeepsStamp(h, tree, l, [0xFE], [0xFF]);
  }

  /** In any tree: an unstable layout can be changed outside its label's value, and the stamp stays. */
  lemma UnstableIsUnseen(h: Hashes, tree: Tree, l: string, s: string, u: string)
    requires l in Keys(tree) && IsXml(l) && s == LOOSE_LABEL && u == LAST_LABEL
    ensures var x, y := Utf8.Encode(s), Utf8.Encode(u);
      && !SameButLabels(l, x, y)
      && StampOf(h, Put(tree, l, x)) == StampOf(h, Put(tree, l, y))
  {
    UnstableHides(s, u, PLACEHOLDER);
    Utf8.DecodesEncoded(s);
    Utf8.DecodesEncoded(u);
    SwapKeepsStamp(h, tree, l, Utf8.Encode(s), Utf8.Encode(u));
  }

  // ---- Written into the sources, and not seen there

  /** What is hashed once these layouts are written with `t`. */
  function SeenAfter(tree: Tree, sources: seq<Source>, layouts: seq<string>, t: string): seq<(string, Bytes)> {
    Seen(WriteStamps(tree, layouts, t), sources)
  }

  lemma {:induction false} SeenAt(tree: Tree, sources: seq<Source>, i: nat)
    requires i < |sources|
    ensures |Seen(tree, sources)| == |sources|
    ensures Seen(tree, sources)[i] == (sources[i].source, Hashed(sources[i].source, Contents(tree, sources[i].source)))
  {
    if |sources| == 1 {
    } else {
      SeenAt(tree, sources[1..], if i == 0 then 0 else i - 1);
    }
  }

  lemma {:induction false} SeenLength(tree: Tree, sources: seq<Source>)
    ensures |Seen(tree, sources)| == |sources|
  {
    if sources == [] {
    } else {
      SeenLength(tree, sources[1..]);
    }
  }

  /** A written layout is hashed as what masking makes of its rewritten text. */
  lemma HashedAfter(tree: Tree, layouts: seq<string>, t: string, q: string)
    requires forall l <- layouts :: Get(tree, l).Some? && IsXml(l)
    ensures var bytes := Contents(WriteStamps(tree, layouts, t), q);
      if q in layouts
      then Hashed(q, bytes) == Utf8.Encode(Rewrite(Rewrites(TextOf(tree, q), t, Listed(layouts, q)), PLACEHOLDER))
      else bytes == Contents(tree, q)
  {
    WriteStampsRewrites(tree, layouts, t, q);
  }

  lemma StableIsUnseen(tree: Tree, sources: seq<Source>, layouts: seq<string>, t: string)
    requires Stampable(tree, layouts) && Clean(t) && forall l <- layouts :: IsXml(l)
    ensures SeenAfter(tree, sources, layouts, t) == Seen(tree, sources)
  {
    SeenLength(WriteStamps(tree, layouts, t), sources);
    SeenLength(tree, sources);
    forall i | 0 <= i < |sources| ensures SeenAfter(tree, sources, layouts, t)[i] == Seen(tree, sources)[i] {
      var q := sources[i].source;
      SeenAt(WriteStamps(tree, layouts, t), sources, i);
      SeenAt(tree, sources, i);
      HashedAfter(tree, layouts, t, q);
      if q in layouts {
        WritesAreForgotten(TextOf(tree, q), t, PLACEHOLDER, Listed(layouts, q));
      }
    }
  }

  lemma {:induction false} LabelledIsSource(tree: Tree, sources: seq<Source>, l: string) returns (i: nat)
    requires l in Labelled(tree, sources)
    ensures i < |sources| && sources[i].source == l
  {
    if sources[0].source == l {
      i := 0;
    } else {
      var j := LabelledIsSource(tree, sources[1..], l);
      i := j + 1;
    }
  }

  lemma UnstableIsSeen(tree: Tree, sources: seq<Source>, layouts: seq<string>, l: string) returns (t: string)
    requires layouts == Labelled(tree, sources) && l in layouts && !Stable(TextOf(tree, l))
    ensures Clean(t) && |t| == |PLACEHOLDER|
    ensures SeenAfter(tree, sources, layouts, t) != Seen(tree, sources)
  {
    t := OtherStamp(PLACEHOLDER);
    LabelledAre(tree, sources);
    var i := LabelledIsSource(tree, sources, l);
    SeenAt(WriteStamps(tree, layouts, t), sources, i);
    SeenAt(tree, sources, i);
    HashedAfter(tree, layouts, t, l);
    WritesShow(TextOf(tree, l), t, PLACEHOLDER, Listed(layouts, l));
    Utf8.DecodesEncoded(Rewrite(Rewrites(TextOf(tree, l), t, Listed(layouts, l)), PLACEHOLDER));
    Utf8.DecodesEncoded(Rewrite(TextOf(tree, l), PLACEHOLDER));
  }

  /** The fixed point of a whole tree, exactly: no stamp is seen once written if and only if every labelled layout is
      stable. */
  lemma StampIsUnseenIffStable(h: Hashes, tree: Tree, sources: seq<Source>)
    requires Sources(h, Keys(tree)) == Ok(sources)
    ensures var layouts := Labelled(tree, sources);
      AllStable(h, tree) <==>
      forall t :: Clean(t) && |t| == |PLACEHOLDER| ==> SeenAfter(tree, sources, layouts, t) == Seen(tree, sources)
  {
    var layouts := Labelled(tree, sources);
    LabelledAre(tree, sources);
    assert StampedLayouts(h, tree) == Ok(layouts);
    if AllStable(h, tree) {
      forall t | Clean(t) && |t| == |PLACEHOLDER|
        ensures SeenAfter(tree, sources, layouts, t) == Seen(tree, sources)
      {
        StableIsUnseen(tree, sources, layouts, t);
      }
    } else {
      var l :| l in layouts && !Stable(TextOf(tree, l));
      var t := UnstableIsSeen(tree, sources, layouts, l);
    }
  }

  /** And so with the text that is hashed for the stamp, where contents that differ have different hashes. */
  lemma HashedTextIsFixedIffStable(h: Hashes, tree: Tree, sources: seq<Source>)
    requires Sources(h, Keys(tree)) == Ok(sources) && Named(Seen(tree, sources))
    requires forall t :: Clean(t) && |t| == |PLACEHOLDER| ==>
      Apart(h, SeenAfter(tree, sources, Labelled(tree, sources), t), Seen(tree, sources))
    ensures var layouts, text := Labelled(tree, sources), Join(LinesOf(h, Seen(tree, sources)), '\n');
      AllStable(h, tree) <==>
      forall t :: Clean(t) && |t| == |PLACEHOLDER| ==>
        Join(LinesOf(h, SeenAfter(tree, sources, layouts, t)), '\n') == text
  {
    var layouts := Labelled(tree, sources);
    StampIsUnseenIffStable(h, tree, sources);
    forall t | Clean(t) && |t| == |PLACEHOLDER|
      ensures Join(LinesOf(h, SeenAfter(tree, sources, layouts, t)), '\n')
           == Join(LinesOf(h, Seen(tree, sources)), '\n')
         <==> SeenAfter(tree, sources, layouts, t) == Seen(tree, sources)
    {
      SameNames(WriteStamps(tree, layouts, t), tree, sources);
      SameTextSameSeen(h, SeenAfter(tree, sources, layouts, t), Seen(tree, sources));
    }
  }

  lemma SameNames(a: Tree, b: Tree, sources: seq<Source>)
    requires Named(Seen(b, sources))
    ensures Named(Seen(a, sources))
  {
    SeenLength(a, sources);
    SeenLength(b, sources);
    forall i | 0 <= i < |sources| ensures '\n' !in Seen(a, sources)[i].0 {
      SeenAt(a, sources, i);
      SeenAt(b, sources, i);
    }
  }
}

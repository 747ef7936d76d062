/** The build stamp: a hash of the sources, written into the sources it is a hash of (hud/src/stamp.ts). */
module Stamp {
  import opened Wrappers
  import opened Octets
  import opened Digests
  import opened Ordered
  import opened Texts
  import opened Addon
  import opened StampLabel
  import opened StampRewrite
  import Utf8

  const PLACEHOLDER := "0000000"

  predicate IsXml(source: string) {
    EndsWith(source, ".xml")
  }

  /** What a source counts for in the hash: a layout with every label's text held at the placeholder. */
  function Hashed(source: string, bytes: Bytes): Bytes {
    if IsXml(source) then Utf8.Encode(Rewrite(Utf8.Decode(bytes), PLACEHOLDER)) else bytes
  }

  function Lines(h: Hashes, tree: Tree, sources: seq<Source>): Result<seq<string>, Fault> {
    if sources == [] then Ok([])
    else
      match Get(tree, sources[0].source)
      case None => Err(Missing(sources[0].source))
      case Some(bytes) =>
        var rest :- Lines(h, tree, sources[1..]);
        Ok([sources[0].source + " " + h.sha256(Hashed(sources[0].source, bytes))] + rest)
  }

  /** `stampOf`: seven characters of a hash over every source. */
  function StampOf(h: Hashes, tree: Tree): Result<string, Fault> {
    var sources :- Sources(h, Keys(tree));
    var lines :- Lines(h, tree, sources);
    Ok(h.sha256(Utf8.Encode(Join(lines, '\n')))[..7])
  }

  function TextOf(tree: Tree, path: string): string {
    match Get(tree, path)
    case Some(bytes) => Utf8.Decode(bytes)
    case None => ""
  }

  /** The layouts among the sources that carry a label. */
  function Labelled(tree: Tree, sources: seq<Source>): seq<string> {
    if sources == [] then []
    else
      (if IsXml(sources[0].source) && First(TextOf(tree, sources[0].source)).Some? then [sources[0].source] else [])
      + Labelled(tree, sources[1..])
  }

  function StampedLayouts(h: Hashes, tree: Tree): Result<seq<string>, Fault> {
    var sources :- Sources(h, Keys(tree));
    Ok(Labelled(tree, sources))
  }

  datatype Written = Written(layout: string, stamp: string)

  function SaidBy(layout: string, values: seq<string>): seq<Written> {
    if values == [] then [] else [Written(layout, values[0])] + SaidBy(layout, values[1..])
  }

  function Said(tree: Tree, layouts: seq<string>): seq<Written> {
    if layouts == [] then []
    else SaidBy(layouts[0], Values(TextOf(tree, layouts[0]))) + Said(tree, layouts[1..])
  }

  /** `stampsWritten`. */
  function StampsWritten(h: Hashes, tree: Tree): Result<seq<Written>, Fault> {
    var layouts :- StampedLayouts(h, tree);
    Ok(Said(tree, layouts))
  }

  /** One layout written, if writing changes its text. */
  function WriteStamp(tree: Tree, layout: string, stamp: string): Tree {
    var before := TextOf(tree, layout);
    var after := Rewrite(before, stamp);
    if after != before then Put(tree, layout, Utf8.Encode(after)) else tree
  }

  function WriteStamps(tree: Tree, layouts: seq<string>, stamp: string): Tree
    decreases |layouts|
  {
    if layouts == [] then tree else WriteStamps(WriteStamp(tree, layouts[0], stamp), layouts[1..], stamp)
  }

  /** `stampLayouts`: the tree it leaves and the stamp it wrote. */
  function StampLayouts(h: Hashes, tree: Tree): Result<(Tree, string), Fault> {
    var stamp :- StampOf(h, tree);
    var layouts :- StampedLayouts(h, tree);
    Ok((WriteStamps(tree, layouts, stamp), stamp))
  }

  datatype StampProblem = NoLabel | Stale(layout: string, says: string, stamp: string)

  function StaleOnes(written: seq<Written>, stamp: string): seq<StampProblem> {
    if written == [] then []
    else
      (if written[0].stamp != stamp then [Stale(written[0].layout, written[0].stamp, stamp)] else [])
      + StaleOnes(written[1..], stamp)
  }

  /** `stampProblems`. */
  function StampProblems(h: Hashes, tree: Tree): Result<seq<StampProblem>, Fault> {
    var stamp :- StampOf(h, tree);
    var written :- StampsWritten(h, tree);
    Ok((if written == [] then [NoLabel] else []) + StaleOnes(written, stamp))
  }

  // ---- What writing the stamps leaves

  lemma {:induction false} HexIsClean(s: HexDigest, n: nat)
    requires n <= |s|
    ensures Clean(s[..n])
  {
    forall c | c in s[..n] ensures c != '"' && c != '>' && c != '=' {
      assert c in s;
    }
  }

  /** One write changes the text of its layout alone, and no name. */
  lemma WriteStampEffect(tree: Tree, layout: string, stamp: string, q: string)
    ensures Get(tree, layout).Some? ==> Keys(WriteStamp(tree, layout, stamp)) == Keys(tree)
    ensures Get(tree, layout).Some? ==>
      TextOf(WriteStamp(tree, layout, stamp), layout) == Rewrite(TextOf(tree, layout), stamp)
    ensures q != layout ==> Get(WriteStamp(tree, layout, stamp), q) == Get(tree, q)
    ensures Get(tree, q).Some? ==> Get(WriteStamp(tree, layout, stamp), q).Some?
  {
    var after := Rewrite(TextOf(tree, layout), stamp);
    if Get(tree, layout).Some? {
      GetIsMember(tree, layout);
      PutKeepsKeys(tree, layout, Utf8.Encode(after));
    }
    GetPut(tree, layout, Utf8.Encode(after), layout);
    GetPut(tree, layout, Utf8.Encode(after), q);
    Utf8.DecodesEncoded(after);
  }

  /** A layout is written as often as it is listed. */
  function Listed(layouts: seq<string>, q: string): (n: nat)
    ensures n > 0 <==> q in layouts
  {
    if layouts == [] then 0 else (if layouts[0] == q then 1 else 0) + Listed(layouts[1..], q)
  }

  /** Writing layouts in turn, whatever they hold: every text is rewritten as often as it is listed. */
  lemma {:induction false} WriteStampsRewrites(tree: Tree, layouts: seq<string>, stamp: string, q: string)
    requires forall l <- layouts :: Get(tree, l).Some?
    ensures Keys(WriteStamps(tree, layouts, stamp)) == Keys(tree)
    ensures TextOf(WriteStamps(tree, layouts, stamp), q) == Rewrites(TextOf(tree, q), stamp, Listed(layouts, q))
    ensures q !in layouts ==> Get(WriteStamps(tree, layouts, stamp), q) == Get(tree, q)
    ensures Get(tree, q).Some? ==> Get(WriteStamps(tree, layouts, stamp), q).Some?
    decreases |layouts|
  {
    if layouts == [] {
    } else {
      var first, rest := layouts[0], layouts[1..];
      var one := WriteStamp(tree, first, stamp);
      assert first in layouts;
      WriteStampEffect(tree, first, stamp, q);
      forall l | l in rest ensures Get(one, l).Some? {
        assert l in layouts;
        WriteStampEffect(tree, first, stamp, l);
      }
      WriteStampsRewrites(one, rest, stamp, q);
      if q == first {
        FirstOfRewrites(TextOf(tree, q), stamp, Listed(rest, q), TextOf(one, q));
      }
    }
  }

  ghost predicate Stampable(tree: Tree, layouts: seq<string>) {
    forall l <- layouts :: Get(tree, l).Some? && First(TextOf(tree, l)).Some? && Stable(TextOf(tree, l))
  }

  /** The text a path has when all the layouts are written. */
  function TextAfter(tree: Tree, layouts: seq<string>, stamp: string, q: string): string {
    if q in layouts then Rewrite(TextOf(tree, q), stamp) else TextOf(tree, q)
  }

  lemma StaysStable(s: string, t: string)
    requires First(s).Some? && Stable(s) && Clean(t)
    ensures First(Rewrite(s, t)).Some? && Stable(Rewrite(s, t))
  {
    RewriteKeepsStable(s, t);
    FirstSpan(s);
    var m := First(s).value;
    FirstAfterWrite(s, m, s[m.end + 1..], t);
  }

  /** Writing every layout in turn gives each its rewritten text, and nothing else changes. */
  lemma WriteStampsEffect(tree: Tree, layouts: seq<string>, stamp: string, q: string)
    requires Stampable(tree, layouts) && Clean(stamp)
    ensures Keys(WriteStamps(tree, layouts, stamp)) == Keys(tree)
    ensures TextOf(WriteStamps(tree, layouts, stamp), q) == TextAfter(tree, layouts, stamp, q)
    ensures q !in layouts ==> Get(WriteStamps(tree, layouts, stamp), q) == Get(tree, q)
    ensures Get(tree, q).Some? ==> Get(WriteStamps(tree, layouts, stamp), q).Some?
  {
    WriteStampsRewrites(tree, layouts, stamp, q);
    if q in layouts {
      WritesAreOne(TextOf(tree, q), stamp, Listed(layouts, q));
    }
  }

  lemma {:induction false} LabelledAre(tree: Tree, sources: seq<Source>)
    ensures forall l <- Labelled(tree, sources) :: IsXml(l) && First(TextOf(tree, l)).Some? && Get(tree, l).Some?
  {
    if sources == [] {
    } else {
      LabelledAre(tree, sources[1..]);
      NoLabelInNothing();
    }
  }

  lemma NoLabelInNothing()
    ensures First("").None?
  {
    FirstSpan("");
  }

  /** Same lines: a layout's label text is not part of what is hashed. */
  lemma {:induction false} SameLines(h: Hashes, tree: Tree, after: Tree, layouts: seq<string>, stamp: string,
                                     sources: seq<Source>)
    requires Stampable(tree, layouts) && Clean(stamp) && after == WriteStamps(tree, layouts, stamp)
    requires forall l <- layouts :: IsXml(l)
    ensures Lines(h, after, sources) == Lines(h, tree, sources)
    decreases |sources|
  {
    if sources == [] {
    } else {
      var q := sources[0].source;
      WriteStampsEffect(tree, layouts, stamp, q);
      SameLines(h, tree, after, layouts, stamp, sources[1..]);
      if q in layouts {
        LastWriteWins(TextOf(tree, q), stamp, PLACEHOLDER);
      }
    }
  }

  lemma {:induction false} SameLabelled(tree: Tree, after: Tree, layouts: seq<string>, stamp: string,
                                        sources: seq<Source>)
    requires Stampable(tree, layouts) && Clean(stamp) && after == WriteStamps(tree, layouts, stamp)
    ensures Labelled(after, sources) == Labelled(tree, sources)
    decreases |sources|
  {
    if sources == [] {
    } else {
      var q := sources[0].source;
      WriteStampsEffect(tree, layouts, stamp, q);
      SameLabelled(tree, after, layouts, stamp, sources[1..]);
      if q in layouts {
        StaysStable(TextOf(tree, q), stamp);
      }
    }
  }

  lemma {:induction false} AllSay(tree: Tree, after: Tree, layouts: seq<string>, stamp: string, some: seq<string>)
    requires Stampable(tree, layouts) && Clean(stamp) && after == WriteStamps(tree, layouts, stamp)
    requires forall l <- some :: l in layouts
    ensures forall w <- Said(after, some) :: w.stamp == stamp
    ensures some != [] ==> Said(after, some) != []
    decreases |some|
  {
    if some == [] {
    } else {
      var q := some[0];
      assert q in some;
      WriteStampsEffect(tree, layouts, stamp, q);
      ValuesAfterWrite(TextOf(tree, q), stamp);
      SaidByAll(q, Values(TextOf(after, q)), stamp);
      AllSay(tree, after, layouts, stamp, some[1..]);
      assert Values(TextOf(tree, q)) != [];
    }
  }

  lemma {:induction false} SaidByAll(layout: string, values: seq<string>, stamp: string)
    requires forall v <- values :: v == stamp
    ensures forall w <- SaidBy(layout, values) :: w.stamp == stamp
    ensures |SaidBy(layout, values)| == |values|
  {
    if values == [] {
    } else {
      assert values[0] in values;
      assert forall v :: v in values[1..] ==> v in values;
      SaidByAll(layout, values[1..], stamp);
    }
  }

  lemma {:induction false} NoneStale(written: seq<Written>, stamp: string)
    ensures StaleOnes(written, stamp) == [] <==> forall w <- written :: w.stamp == stamp
  {
    if written == [] {
    } else {
      NoneStale(written[1..], stamp);
      assert forall w :: w in written <==> w == written[0] || w in written[1..];
    }
  }

  lemma {:induction false} RewritingIsIdle(tree: Tree, layouts: seq<string>, stamp: string)
    requires forall l <- layouts :: Rewrite(TextOf(tree, l), stamp) == TextOf(tree, l)
    ensures WriteStamps(tree, layouts, stamp) == tree
  {
    if layouts == [] {
    } else {
      assert layouts[0] in layouts;
      RewritingIsIdle(tree, layouts[1..], stamp);
    }
  }

  /** A tree whose labelled layouts are all stable. */
  ghost predicate AllStable(h: Hashes, tree: Tree) {
    var layouts := StampedLayouts(h, tree);
    layouts.Ok? ==> forall l <- layouts.value :: Stable(TextOf(tree, l))
  }

  /** The stamp is a fixed point: written into the sources, it is still their stamp; written again, it changes no
      byte; and then the labels have nothing wrong with them, if there is a label at all. */
  lemma StampIsFixedPoint(h: Hashes, tree: Tree)
    requires AllStable(h, tree) && StampOf(h, tree).Ok?
    ensures StampLayouts(h, tree).Ok?
    ensures var (after, stamp) := StampLayouts(h, tree).value;
      && Keys(after) == Keys(tree)
      && StampOf(h, after) == Ok(stamp)
      && StampedLayouts(h, after) == StampedLayouts(h, tree)
      && StampLayouts(h, after) == Ok((after, stamp))
      && StampProblems(h, after) == Ok(if StampedLayouts(h, tree).value == [] then [NoLabel] else [])
  {
    var sources := Sources(h, Keys(tree)).value;
    var layouts := StampedLayouts(h, tree).value;
    var stamp := StampOf(h, tree).value;
    StampableWithStamp(h, tree, sources, layouts, stamp);
    var after := WriteStamps(tree, layouts, stamp);
    WriteStampsEffect(tree, layouts, stamp, "");
    SameLines(h, tree, after, layouts, stamp, sources);
    SameLabelled(tree, after, layouts, stamp, sources);
    SecondWriteIsIdle(tree, layouts, stamp);
    NothingStale(tree, layouts, stamp);
    SameStamp(h, tree, after, sources);
    SameLayouts(h, tree, after, sources);
    AnswersAre(h, tree, layouts, stamp);
    AnswersAre(h, after, layouts, stamp);
  }

  lemma SameStamp(h: Hashes, tree: Tree, after: Tree, sources: seq<Source>)
    requires Keys(after) == Keys(tree) && Sources(h, Keys(tree)) == Ok(sources)
    requires Lines(h, after, sources) == Lines(h, tree, sources)
    ensures StampOf(h, after) == StampOf(h, tree)
  {
  }

  lemma SameLayouts(h: Hashes, tree: Tree, after: Tree, sources: seq<Source>)
    requires Keys(after) == Keys(tree) && Sources(h, Keys(tree)) == Ok(sources)
    requires Labelled(after, sources) == Labelled(tree, sources)
    ensures StampedLayouts(h, after) == StampedLayouts(h, tree)
  {
  }

  lemma AnswersAre(h: Hashes, tree: Tree, layouts: seq<string>, stamp: string)
    requires StampOf(h, tree) == Ok(stamp) && StampedLayouts(h, tree) == Ok(layouts)
    ensures StampLayouts(h, tree) == Ok((WriteStamps(tree, layouts, stamp), stamp))
    ensures StaleOnes(Said(tree, layouts), stamp) == [] ==>
      StampProblems(h, tree) == Ok(if Said(tree, layouts) == [] then [NoLabel] else [])
  {
    var head: seq<StampProblem> := if Said(tree, layouts) == [] then [NoLabel] else [];
    assert head + [] == head;
  }

  lemma StampableWithStamp(h: Hashes, tree: Tree, sources: seq<Source>, layouts: seq<string>, stamp: string)
    requires AllStable(h, tree) && StampOf(h, tree) == Ok(stamp)
    requires Sources(h, Keys(tree)) == Ok(sources) && StampedLayouts(h, tree) == Ok(layouts)
    ensures Stampable(tree, layouts) && Clean(stamp)
    ensures forall l <- layouts :: IsXml(l)
  {
    LabelledAre(tree, sources);
    HexIsClean(h.sha256(Utf8.Encode(Join(Lines(h, tree, sources).value, '\n'))), 7);
  }

  lemma SecondWriteIsIdle(tree: Tree, layouts: seq<string>, stamp: string)
    requires Stampable(tree, layouts) && Clean(stamp)
    ensures var after := WriteStamps(tree, layouts, stamp); WriteStamps(after, layouts, stamp) == after
  {
    var after := WriteStamps(tree, layouts, stamp);
    forall l | l in layouts ensures Rewrite(TextOf(after, l), stamp) == TextOf(after, l) {
      WriteStampsEffect(tree, layouts, stamp, l);
      LastWriteWins(TextOf(tree, l), stamp, stamp);
    }
    RewritingIsIdle(after, layouts, stamp);
  }

  lemma NothingStale(tree: Tree, layouts: seq<string>, stamp: string)
    requires Stampable(tree, layouts) && Clean(stamp)
    ensures var said := Said(WriteStamps(tree, layouts, stamp), layouts);
      StaleOnes(said, stamp) == [] && (said == [] <==> layouts == [])
  {
    var after := WriteStamps(tree, layouts, stamp);
    AllSay(tree, after, layouts, stamp, layouts);
    NoneStale(Said(after, layouts), stamp);
  }
}

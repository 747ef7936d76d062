/** Which complaint the honesty check makes about what: each one exactly for its own reason (hud/src/dist.ts). */
module DistComplaints {
  import opened Wrappers
  import opened Digests
  import opened Ordered
  import opened Sorting
  import opened Texts
  import opened Addon
  import opened Dist
  import opened StampRewrite
  import Stamp
  import VpkFormat

  // ---- One thing, one complaint

  /** A source whose hash is another than the recorded one is changed; one without a recorded hash is new. */
  predicate OfSource(source: (string, string), recorded: Record<string>, p: Problem) {
    match Get(recorded, source.0)
    case None => p == New(source.0)
    case Some(hash) => hash != source.1 && p == if hash == "" then New(source.0) else Changed(source.0)
  }

  predicate OfGone(source: string, now: Record<string>, p: Problem) {
    Get(now, source).None? && p == Gone(source)
  }

  predicate OfStray(f: string, files: Record<FileInfo>, p: Problem) {
    Get(files, "panorama/" + f).None? && p == NotInManifest("panorama/" + f)
  }

  predicate OfLoose(h: Hashes, tree: Tree, file: (string, FileInfo), p: Problem) {
    match Get(tree, "dist/" + file.0)
    case None => p == LooseMissing(file.0)
    case Some(bytes) => h.sha256(bytes) != file.1.sha256 && p == LooseHash(file.0)
  }

  predicate OfEntry(h: Hashes, e: VpkFormat.Entry, files: Record<FileInfo>, p: Problem) {
    Get(files, e.path).Some? && h.sha256(e.data) != Get(files, e.path).value.sha256 && p == PackDiffers(e.path)
  }

  predicate OfLabel(w: Stamp.Written, stamp: string, p: Stamp.StampProblem) {
    w.stamp != stamp && p == Stamp.Stale(w.layout, w.stamp, stamp)
  }

  // ---- The lists of them

  lemma {:induction false} ChangedAre(now: Record<string>, recorded: Record<string>, p: Problem)
    ensures p in ChangedSources(now, recorded) <==> exists s <- now :: OfSource(s, recorded, p)
  {
    if now == [] {
    } else {
      ChangedAre(now[1..], recorded, p);
      assert p in ChangedSources(now, recorded)
        <==> OfSource(now[0], recorded, p) || p in ChangedSources(now[1..], recorded);
      assert forall s :: s in now <==> s == now[0] || s in now[1..];
    }
  }

  lemma {:induction false} GoneAre(recorded: seq<string>, now: Record<string>, p: Problem)
    ensures p in GoneSources(recorded, now) <==> exists s <- recorded :: OfGone(s, now, p)
  {
    if recorded == [] {
    } else {
      GoneAre(recorded[1..], now, p);
      assert p in GoneSources(recorded, now) <==> OfGone(recorded[0], now, p) || p in GoneSources(recorded[1..], now);
      assert forall s :: s in recorded <==> s == recorded[0] || s in recorded[1..];
    }
  }

  lemma {:induction false} StraysAre(onDisk: seq<string>, files: Record<FileInfo>, p: Problem)
    ensures p in Strays(onDisk, files) <==> exists f <- onDisk :: OfStray(f, files, p)
  {
    if onDisk == [] {
    } else {
      StraysAre(onDisk[1..], files, p);
      assert p in Strays(onDisk, files) <==> OfStray(onDisk[0], files, p) || p in Strays(onDisk[1..], files);
      assert forall f :: f in onDisk <==> f == onDisk[0] || f in onDisk[1..];
    }
  }

  lemma {:induction false} LooseAre(h: Hashes, tree: Tree, files: Record<FileInfo>, p: Problem)
    ensures p in LooseFiles(h, tree, files) <==> exists f <- files :: OfLoose(h, tree, f, p)
  {
    if files == [] {
    } else {
      LooseAre(h, tree, files[1..], p);
      assert p in LooseFiles(h, tree, files) <==> OfLoose(h, tree, files[0], p) || p in LooseFiles(h, tree, files[1..]);
      assert forall f :: f in files <==> f == files[0] || f in files[1..];
    }
  }

  lemma {:induction false} EntriesAre(h: Hashes, entries: seq<VpkFormat.Entry>, files: Record<FileInfo>, p: Problem)
    ensures p in PackedFiles(h, entries, files) <==> exists e <- entries :: OfEntry(h, e, files, p)
  {
    if entries == [] {
    } else {
      EntriesAre(h, entries[1..], files, p);
      assert p in PackedFiles(h, entries, files)
        <==> OfEntry(h, entries[0], files, p) || p in PackedFiles(h, entries[1..], files);
      assert forall e :: e in entries <==> e == entries[0] || e in entries[1..];
    }
  }

  lemma {:induction false} StaleAre(written: seq<Stamp.Written>, stamp: string, p: Stamp.StampProblem)
    ensures p in Stamp.StaleOnes(written, stamp) <==> exists w <- written :: OfLabel(w, stamp, p)
  {
    if written == [] {
    } else {
      StaleAre(written[1..], stamp, p);
      assert p in Stamp.StaleOnes(written, stamp)
        <==> OfLabel(written[0], stamp, p) || p in Stamp.StaleOnes(written[1..], stamp);
      assert forall w :: w in written <==> w == written[0] || w in written[1..];
    }
  }

  // ---- The labels

  lemma {:induction false} LabelledIs(tree: Tree, sources: seq<Source>, l: string)
    ensures l in Stamp.Labelled(tree, sources)
       <==> (exists s <- sources :: s.source == l) && EndsWith(l, ".xml") && Values(Stamp.TextOf(tree, l)) != []
  {
    if sources == [] {
    } else {
      LabelledIs(tree, sources[1..], l);
      FirstSpan(Stamp.TextOf(tree, sources[0].source));
      assert forall s :: s in sources <==> s == sources[0] || s in sources[1..];
      assert sources[0] in sources;
    }
  }

  lemma {:induction false} SaidByIs(layout: string, values: seq<string>, w: Stamp.Written)
    ensures w in Stamp.SaidBy(layout, values) <==> w.layout == layout && w.stamp in values
  {
    if values == [] {
    } else {
      SaidByIs(layout, values[1..], w);
    }
  }

  lemma {:induction false} SaidIs(tree: Tree, layouts: seq<string>, w: Stamp.Written)
    ensures w in Stamp.Said(tree, layouts) <==> w.layout in layouts && w.stamp in Values(Stamp.TextOf(tree, w.layout))
  {
    if layouts == [] {
    } else {
      SaidIs(tree, layouts[1..], w);
      SaidByIs(layouts[0], Values(Stamp.TextOf(tree, layouts[0])), w);
      assert forall l :: l in layouts <==> l == layouts[0] || l in layouts[1..];
    }
  }

  /** A layout among the sources has a label that says this. */
  ghost predicate Says(tree: Tree, sources: seq<Source>, layout: string, stamp: string) {
    && (exists s <- sources :: s.source == layout) && EndsWith(layout, ".xml")
    && stamp in Values(Stamp.TextOf(tree, layout))
  }

  lemma SaysIs(tree: Tree, sources: seq<Source>, w: Stamp.Written)
    ensures w in Stamp.Said(tree, Stamp.Labelled(tree, sources)) <==> Says(tree, sources, w.layout, w.stamp)
  {
    SaidIs(tree, Stamp.Labelled(tree, sources), w);
    LabelledIs(tree, sources, w.layout);
  }

  /** Every label that does not say the stamp is reported with what it says, and so is that there is none at all. */
  lemma LabelsAreReported(h: Hashes, tree: Tree, sources: seq<Source>, stamp: string, p: Stamp.StampProblem)
    requires Sources(h, Keys(tree)) == Ok(sources) && Stamp.StampOf(h, tree) == Ok(stamp)
    ensures Stamp.StampProblems(h, tree).Ok?
    ensures p in Stamp.StampProblems(h, tree).value <==>
      match p
      case NoLabel => forall layout, says :: !Says(tree, sources, layout, says)
      case Stale(layout, says, expected) => expected == stamp && says != stamp && Says(tree, sources, layout, says)
  {
    var written := Stamp.Said(tree, Stamp.Labelled(tree, sources));
    StaleAre(written, stamp, p);
    if p.NoLabel? {
      if written != [] {
        SaysIs(tree, sources, written[0]);
        assert Says(tree, sources, written[0].layout, written[0].stamp);
      }
      forall layout, says | Says(tree, sources, layout, says) ensures written != [] {
        SaysIs(tree, sources, Stamp.Written(layout, says));
      }
    } else {
      SaysIs(tree, sources, Stamp.Written(p.layout, p.says));
    }
  }

  // ---- The whole report

  /** What is said of the stamps: every label's problem, a manifest without one, and one of other sources. */
  ghost predicate OfStampCheck(ps: seq<Stamp.StampProblem>, said: Option<string>, stamp: string, p: Problem) {
    || (p.OfStamp? && p.stampProblem in ps)
    || (p == NoStamp && said.None?)
    || (p == OtherStamp(if said.Some? then said.value else "", stamp) && said.Some? && ps == [] && said.value != stamp)
  }

  ghost predicate OfPack(h: Hashes, tree: Tree, m: Manifest, p: Problem) {
    match Get(tree, "dist/ezpug_hud.vpk")
    case None => p == PackMissing
    case Some(pack) =>
      || (p == PackHash && h.sha256(pack) != m.pack.sha256)
      || match VpkFormat.Read(h, pack) {
           case Err(e) => p == PackUnreadable(e)
           case Ok(entries) =>
             || (p == PackList(SortTexts(Paths(entries)), SortTexts(Keys(m.files)))
                 && !SameList(Paths(entries), Keys(m.files)))
             || exists e <- entries :: OfEntry(h, e, m.files, p)
         }
  }

  lemma StampCheckSays(ps: seq<Stamp.StampProblem>, said: Option<string>, stamp: string, p: Problem)
    ensures p in StampCheck(ps, said, stamp) <==> OfStampCheck(ps, said, stamp, p)
  {
    if p.OfStamp? && p.stampProblem in ps {
      var i :| 0 <= i < |ps| && ps[i] == p.stampProblem;
      assert OfStamps(ps)[i] == p;
    }
  }

  lemma PackSays(h: Hashes, tree: Tree, m: Manifest, p: Problem)
    ensures p in PackProblems(h, tree, m) <==> OfPack(h, tree, m, p)
  {
    assert "dist/" + VPK_NAME == "dist/ezpug_hud.vpk";
    var pack := Get(tree, "dist/ezpug_hud.vpk");
    if pack.Some? {
      var read := VpkFormat.Read(h, pack.value);
      if read.Ok? {
        EntriesAre(h, read.value, m.files, p);
      }
    }
  }

  /** The part of the report about the pack. */
  function PackProblems(h: Hashes, tree: Tree, m: Manifest): seq<Problem> {
    match Get(tree, "dist/" + VPK_NAME)
    case None => [PackMissing]
    case Some(pack) => (if h.sha256(pack) != m.pack.sha256 then [PackHash] else []) + PackCheck(h, pack, m.files)
  }

  /** Every complaint there is a reason for, and no other. */
  ghost predicate Deserved(h: Hashes, tree: Tree, m: Manifest, sources: seq<Source>, ps: seq<Stamp.StampProblem>,
                           stamp: string, now: Record<string>, p: Problem)
  {
    || OfStampCheck(ps, m.stamp, stamp, p)
    || (exists s <- now :: OfSource(s, m.sources, p))
    || (exists s <- Keys(m.sources) :: OfGone(s, now, p))
    || (p == FilesDiffer(SortTexts(Keys(m.files)), SortTexts(CompiledPaths(sources)))
        && !SameList(CompiledPaths(sources), Keys(m.files)))
    || (exists f <- ListFiles(tree, "dist/panorama") :: OfStray(f, m.files, p))
    || (exists f <- m.files :: OfLoose(h, tree, f, p))
    || (p == PackName(m.pack.file) && m.pack.file != "ezpug_hud.vpk")
    || OfPack(h, tree, m, p)
  }

  lemma SourceCheckSays(m: Manifest, sources: seq<Source>, ps: seq<Stamp.StampProblem>, stamp: string,
                        now: Record<string>, p: Problem)
    ensures p in SourceCheck(m, sources, ps, stamp, now)
       <==> || OfStampCheck(ps, m.stamp, stamp, p)
            || (exists s <- now :: OfSource(s, m.sources, p))
            || (exists s <- Keys(m.sources) :: OfGone(s, now, p))
            || (p == FilesDiffer(SortTexts(Keys(m.files)), SortTexts(CompiledPaths(sources)))
                && !SameList(CompiledPaths(sources), Keys(m.files)))
  {
    StampCheckSays(ps, m.stamp, stamp, p);
    ChangedAre(now, m.sources, p);
    GoneAre(Keys(m.sources), now, p);
  }

  lemma ReportIsDeserved(h: Hashes, tree: Tree, m: Manifest, sources: seq<Source>, ps: seq<Stamp.StampProblem>,
                         stamp: string, now: Record<string>, p: Problem)
    ensures p in Verdict(h, tree, m, sources, ps, stamp, now) <==> Deserved(h, tree, m, sources, ps, stamp, now, p)
  {
    SourceCheckSays(m, sources, ps, stamp, now, p);
    StraysAre(ListFiles(tree, "dist/panorama"), m.files, p);
    LooseAre(h, tree, m.files, p);
    PackSays(h, tree, m, p);
    assert Verdict(h, tree, m, sources, ps, stamp, now)
        == LooseCheck(h, tree, m, sources, ps, stamp, now) + PackProblems(h, tree, m);
  }
}

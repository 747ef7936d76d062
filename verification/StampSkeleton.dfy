/** What masking the stamp labels leaves of a text: everything but the labels' values (hud/src/stamp.ts). */
module StampSkeleton {
  import opened Wrappers
  import opened Lists
  import opened StampLabel
  import opened StampRewrite

  /** The pieces of a text outside its labels' values and the quotes that close them. */
  function Skeleton(s: string): (pieces: seq<string>)
    ensures pieces != []
    decreases |s|
  {
    FirstSpan(s);
    if First(s).None? then [s]
    else
      var m := First(s).value;
      [s[..m.start]] + Skeleton(s[m.end + 1..])
  }

  /** The pieces with these values between them. */
  function Filled(pieces: seq<string>, values: seq<string>): string
    requires |pieces| == |values| + 1
  {
    if values == [] then pieces[0] else pieces[0] + values[0] + "\"" + Filled(pieces[1..], values[1..])
  }

  lemma SkeletonOf(s: string, m: Span, rest: string)
    requires First(s) == Some(m) && m.start <= m.end < |s| && rest == s[m.end + 1..]
    ensures Skeleton(s) == [s[..m.start]] + Skeleton(rest)
  {
  }

  /** A text is its skeleton and its values, so what has the same of both is the same. */
  lemma {:induction false} SkeletonAndValues(s: string)
    ensures |Skeleton(s)| == |Values(s)| + 1
    ensures Filled(Skeleton(s), Values(s)) == s
    decreases |s|
  {
    FirstSpan(s);
    if First(s).None? {
    } else {
      var m := First(s).value;
      var rest := s[m.end + 1..];
      SkeletonAndValues(rest);
      SkeletonOf(s, m, rest);
      ValuesOf(s, m, s[m.start..m.end], rest);
      ClosedByQuote(s, m);
      CutAtValue(s, m);
      FilledCons(s[..m.start], Skeleton(rest), s[m.start..m.end], Values(rest));
    }
  }

  lemma CutAtValue(s: string, m: Span)
    requires m.start <= m.end < |s| && s[m.end] == '"'
    ensures s == s[..m.start] + s[m.start..m.end] + "\"" + s[m.end + 1..]
  {
  }

  lemma FilledCons(piece: string, pieces: seq<string>, value: string, values: seq<string>)
    requires |pieces| == |values| + 1
    ensures Filled([piece] + pieces, [value] + values) == piece + value + "\"" + Filled(pieces, values)
  {
    assert ([piece] + pieces)[1..] == pieces && ([value] + values)[1..] == values;
  }

  lemma ClosedByQuote(s: string, m: Span)
    requires First(s) == Some(m)
    ensures m.start <= m.end < |s| && s[m.end] == '"'
  {
    var i := FirstIsMatch(s, 0);
    var c := MatchSpan(s, i);
  }

  lemma SameSkeletonAndValues(s: string, u: string)
    ensures s == u <==> Skeleton(s) == Skeleton(u) && Values(s) == Values(u)
  {
    SkeletonAndValues(s);
    SkeletonAndValues(u);
  }

  /** Whatever the texts, what masking sees of one with the same skeleton is the same. */
  lemma {:induction false} SameSkeletonSameMask(s: string, u: string, t: string)
    requires Skeleton(s) == Skeleton(u)
    ensures Rewrite(s, t) == Rewrite(u, t)
    decreases |s|
  {
    FirstSpan(s);
    FirstSpan(u);
    if First(s).None? || First(u).None? {
      assert |Skeleton(s)| == 1 <==> First(s).None?;
      assert |Skeleton(u)| == 1 <==> First(u).None?;
    } else {
      var m, n := First(s).value, First(u).value;
      var x, y := s[m.end + 1..], u[n.end + 1..];
      SkeletonOf(s, m, x);
      SkeletonOf(u, n, y);
      assert s[..m.start] == Skeleton(s)[0] == Skeleton(u)[0] == u[..n.start];
      assert Skeleton(x) == Skeleton(s)[1..] == Skeleton(u)[1..] == Skeleton(y);
      SameSkeletonSameMask(x, y, t);
      RewriteAt(s, m, x, t);
      RewriteAt(u, n, y, t);
    }
  }

  /** Stable texts that are masked alike have the same skeleton: the mask hides the values and nothing else. */
  lemma {:induction false} SameMaskSameSkeleton(s: string, u: string, t: string, w: string)
    requires Stable(s) && Stable(u) && Clean(t) && Rewrite(s, t) == w && Rewrite(u, t) == w
    ensures Skeleton(s) == Skeleton(u)
    decreases |s|
  {
    FirstOfMasked(s, t, w);
    FirstOfMasked(u, t, w);
    if First(w).None? {
    } else {
      var x, y := RestsMasked(s, u, t, First(s).value, First(u).value);
      SameMaskSameSkeleton(x, y, t, Rewrite(x, t));
    }
  }

  lemma RestsMasked(s: string, u: string, t: string, m: Span, n: Span) returns (x: string, y: string)
    requires Stable(s) && Stable(u) && Rewrite(s, t) == Rewrite(u, t)
    requires First(s) == Some(m) && First(u) == Some(n) && m.start == n.start
    ensures |x| < |s| && Stable(x) && Stable(y) && Rewrite(x, t) == Rewrite(y, t)
    ensures Skeleton(x) == Skeleton(y) ==> Skeleton(s) == Skeleton(u)
  {
    FirstSpan(s);
    FirstSpan(u);
    x, y := s[m.end + 1..], u[n.end + 1..];
    MasksOfRests(s, u, m, n, x, y, t);
    SkeletonOf(s, m, x);
    SkeletonOf(u, n, y);
  }

  lemma MasksOfRests(s: string, u: string, m: Span, n: Span, x: string, y: string, t: string)
    requires First(s) == Some(m) && m.start <= m.end < |s| && x == s[m.end + 1..]
    requires First(u) == Some(n) && n.start <= n.end < |u| && y == u[n.end + 1..]
    requires m.start == n.start && Rewrite(s, t) == Rewrite(u, t)
    ensures s[..m.start] == u[..n.start] && Rewrite(x, t) == Rewrite(y, t)
  {
    RewriteAt(s, m, x, t);
    RewriteAt(u, n, y, t);
    SameFrontSameRest(s, u, m, n, t, Rewrite(x, t), Rewrite(y, t));
  }

  lemma FirstOfMasked(s: string, t: string, w: string)
    requires Stable(s) && Clean(t) && w == Rewrite(s, t)
    ensures First(s).None? ==> w == s
    ensures First(w).Some? <==> First(s).Some?
    ensures First(s).Some? ==> First(w).value == Span(First(s).value.start, First(s).value.start + |t|)
  {
    FirstSpan(s);
    if First(s).Some? {
      FirstAfterWrite(s, First(s).value, s[First(s).value.end + 1..], t);
    }
  }

  lemma SameFrontSameRest(s: string, u: string, m: Span, n: Span, t: string, x: string, y: string)
    requires m.start <= |s| && n.start <= |u| && m.start == n.start
    requires Around(s, m, t, x) == Around(u, n, t, y)
    ensures s[..m.start] == u[..n.start] && x == y
  {
    AroundIs(s, m, t, x);
    AroundIs(u, n, t, y);
  }

  lemma MaskSeesTheSkeleton(s: string, u: string, t: string)
    requires Stable(s) && Stable(u) && Clean(t)
    ensures Rewrite(s, t) == Rewrite(u, t) <==> Skeleton(s) == Skeleton(u)
  {
    if Rewrite(s, t) == Rewrite(u, t) {
      SameMaskSameSkeleton(s, u, t, Rewrite(s, t));
    } else if Skeleton(s) == Skeleton(u) {
      SameSkeletonSameMask(s, u, t);
    }
  }

  // ---- An unstable text that is masked like a stable one

  /** The tag of LOOSE_LABEL with a clean first text: here the label's value is that of the attribute behind it. */
  const LAST_LABEL := HEAD + ("-stamp\"" + " text=\"0000000\" text=\"\">")

  lemma LastParse(s: string, c: nat)
    requires Label(s, 0, c) && s[c..] == " text=\"0000000\" text=\"\">"
    ensures First(s) == Some(Span(c + 22, c + 22)) && s[c + 23..] == ">"
  {
    var behind := s[c..];
    assert forall j :: 0 <= j < |behind| ==> s[c + j] == behind[j];
    assert behind[23..] == ">";
    assert s[c + 23..] == behind[23..];
    RestOpens(s, c, c + 16);
    RestSpan(s, c);
    assert s[c + 23] == '>' && s[c + 22] == '"';
    FirstAtStart(s, c);
  }

  lemma LastIsParsed(s: string)
    requires s == LAST_LABEL
    ensures First(s) == Some(Span(|HEAD| + 29, |HEAD| + 29)) && s[|HEAD| + 30..] == ">"
    ensures s[|HEAD| + 7..] == " text=\"0000000\" text=\"\">"
  {
    LabelAtStart(s, "-stamp\"", " text=\"0000000\" text=\"\">");
    LastParse(s, |HEAD| + 7);
  }

  lemma {:induction false} NoTagNoMatch(s: string, i: nat)
    requires '<' !in s && i <= |s|
    ensures FirstFrom(s, i).None?
    decreases |s| - i
  {
    NoHead(s, i);
    if i == |s| {
    } else {
      NoTagNoMatch(s, i + 1);
    }
  }

  lemma NoHead(s: string, i: nat)
    requires '<' !in s
    ensures MatchAt(s, i).None?
  {
    if HeadAt(s, i) {
      HeadOpensATag(s, i);
    }
  }

  lemma HeadOpensATag(s: string, i: nat)
    requires HeadAt(s, i)
    ensures '<' in s
  {
    assert s[i] == s[i..i + |HEAD|][0];
  }

  /** Different skeletons, one of them of a text that is not stable, and the same under the mask. */
  lemma UnstableHides(s: string, u: string, mask: string)
    requires s == LOOSE_LABEL && u == LAST_LABEL && mask == "0000000"
    ensures !Stable(s) && Stable(u)
    ensures Skeleton(s) != Skeleton(u) && Rewrite(s, mask) == Rewrite(u, mask)
  {
    var m, n := Span(|HEAD| + 14, |HEAD| + 15), Span(|HEAD| + 29, |HEAD| + 29);
    SomeTextIsUnstable(s);
    LooseIsParsed(s);
    LastIsParsed(u);
    NotLoose(">");
    MaskedAlike(s, u, m, n, mask);
    OneLabelEach(s, u, m, n, s[m.end + 1..], u[n.end + 1..], mask);
  }

  lemma MaskedAlike(s: string, u: string, m: Span, n: Span, mask: string)
    requires s == LOOSE_LABEL && u == LAST_LABEL && mask == "0000000"
    requires m == Span(|HEAD| + 14, |HEAD| + 15) && n == Span(|HEAD| + 29, |HEAD| + 29)
    ensures |s| > m.end && |u| > n.end && '<' !in s[m.end + 1..] && '<' !in u[n.end + 1..]
    ensures Around(s, m, mask, s[m.end + 1..]) == Around(u, n, mask, u[n.end + 1..])
  {
    LooseIsParsed(s);
    LastIsParsed(u);
    SameFront(s, u, "-stamp\"");
    SameMasked(s, u, |HEAD| + 7, s[..|HEAD| + 7], mask);
  }

  lemma OneLabelEach(s: string, u: string, m: Span, n: Span, x: string, y: string, t: string)
    requires First(s) == Some(m) && m.start <= m.end < |s| && s[m.end + 1..] == x && '<' !in x
    requires First(u) == Some(n) && n.start <= n.end < |u| && u[n.end + 1..] == y && '<' !in y
    requires Around(s, m, t, x) == Around(u, n, t, y) && m.start < n.start && !Loose(y)
    ensures Stable(u) && Skeleton(s) != Skeleton(u) && Rewrite(s, t) == Rewrite(u, t)
  {
    OneLabel(s, m, x, t);
    OneLabel(u, n, y, t);
    assert |Skeleton(s)[0]| < |Skeleton(u)[0]|;
  }

  lemma NotLoose(rest: string)
    requires rest == ">"
    ensures !Loose(rest)
  {
  }

  lemma OneLabel(s: string, m: Span, rest: string, t: string)
    requires First(s) == Some(m) && m.start <= m.end < |s| && s[m.end + 1..] == rest && '<' !in rest
    ensures Skeleton(s) == [s[..m.start], rest] && Rewrite(s, t) == Around(s, m, t, rest)
    ensures !Loose(rest) ==> Stable(s)
  {
    NoTagNoMatch(rest, 0);
    SkeletonOf(s, m, rest);
    RewriteAt(s, m, rest, t);
  }

  lemma SameFront(s: string, u: string, tail: string)
    requires s == LOOSE_LABEL && u == LAST_LABEL && tail == "-stamp\""
    ensures |s| > |HEAD| + 7 && |u| > |HEAD| + 7 && s[..|HEAD| + 7] == u[..|HEAD| + 7]
  {
    assert s[..|HEAD| + 7] == HEAD + tail;
    assert u[..|HEAD| + 7] == HEAD + tail;
  }

  lemma SameMasked(s: string, u: string, c: nat, front: string, mask: string)
    requires s == front + " text=\">\" text=\"0000000\">" && u == front + " text=\"0000000\" text=\"\">"
    requires c == |front| && mask == "0000000"
    ensures Around(s, Span(c + 7, c + 8), mask, " text=\"0000000\">") == Around(u, Span(c + 22, c + 22), mask, ">")
  {
    var opens, last := " text=\"", " text=\"0000000\" text=\"";
    assert s[..c + 7] == front + opens;
    assert u[..c + 22] == front + last;
    assert opens + mask + "\"" + " text=\"0000000\">" == last + mask + "\"" + ">";
    Regroup(front, opens, mask + "\"" + " text=\"0000000\">");
    Regroup(front, last, mask + "\"" + ">");
  }
}

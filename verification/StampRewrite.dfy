/** Writing a stamp into every label, and when writing another one afterwards forgets the first (hud/src/stamp.ts). */
module StampRewrite {
  import opened Wrappers
  import opened StampLabel

  lemma FirstSpan(s: string)
    ensures First(s).Some? ==> 6 <= First(s).value.start <= First(s).value.end < |s|
  {
    if First(s).Some? {
      var i := FirstIsMatch(s, 0);
      var c := MatchSpan(s, i);
    }
  }

  /** The text up to a match's value, another value, its quote, and anything behind it. */
  function Around(s: string, m: Span, t: string, y: string): string
    requires m.start <= |s|
  {
    s[..m.start] + t + "\"" + y
  }

  /** `s.replace(STAMP_LABEL, '$1' + t + '$3')`. */
  function Rewrite(s: string, t: string): string
    decreases |s|
  {
    FirstSpan(s);
    if First(s).None? then s
    else
      var m := First(s).value;
      Around(s, m, t, Rewrite(s[m.end + 1..], t))
  }

  /** What the labels say: `matchAll`'s second groups. */
  function Values(s: string): seq<string>
    decreases |s|
  {
    FirstSpan(s);
    if First(s).None? then []
    else
      var m := First(s).value;
      [s[m.start..m.end]] + Values(s[m.end + 1..])
  }

  /** A stamp the pattern cannot mistake for markup. */
  predicate Clean(t: string) {
    '"' !in t && '>' !in t && '=' !in t
  }

  /** Behind a value, another text attribute stands before the next `>`. */
  predicate Loose(rest: string) {
    Rest(rest, 0).Some?
  }

  /** No label's value hides an attribute: behind none of them does another `text` stand before the next `>`.
      A value without a `>` never does. */
  predicate Stable(s: string)
    decreases |s|
  {
    FirstSpan(s);
    First(s).Some? ==>
      var rest := s[First(s).value.end + 1..];
      !Loose(rest) && Stable(rest)
  }

  // ---- Matching again after a value was replaced

  lemma RestOpens(s: string, c: nat, q: nat)
    requires c <= q <= |s| && Opens(s, q)
    requires forall j :: c <= j < q ==> s[j] != '>'
    ensures Rest(s, c).Some? && Rest(s, c).value.start >= q + 6
  {
    TryTextIsLast(s, c, Until(s, '>', c));
    assert q <= Until(s, '>', c);
  }

  lemma RestCloses(s: string, c: nat)
    requires c <= |s| && Rest(s, c).None?
    ensures forall q :: c <= q <= Until(s, '>', c) ==> !Opens(s, q)
  {
    TryTextIsLast(s, c, Until(s, '>', c));
  }

  ghost predicate Share(a: string, b: string, n: nat) {
    n <= |a| && n <= |b| && forall j :: 0 <= j < n ==> a[j] == b[j]
  }

  /** Labels that open before a shared quote are labels of both. */
  lemma LabelsAreShared(a: string, b: string, n: nat, i: nat, c: nat)
    requires Share(a, b, n) && n > 0 && a[n - 1] == '"'
    requires i + |HEAD| < n && Label(a, i, c)
    ensures c <= n && Label(b, i, c)
  {
    var lo := i + |HEAD|;
    assert !ClassChar(a[n - 1]);
    assert c - 1 <= n - 1;
    assert b[i..lo] == a[i..lo];
    assert !ClassChar(b[c - 1]) && forall j :: lo <= j < c - 1 ==> ClassChar(b[j]);
  }

  /** An attribute that opens strictly before the shared quote closes at it in both. */
  lemma OpensAreShared(a: string, b: string, n: nat, q: nat)
    requires Share(a, b, n) && n > 0 && a[n - 1] == '"'
    requires q + 6 < n && Opens(a, q)
    ensures Opens(b, q)
  {
    assert b[n - 1] == '"';
  }

  /** A class does not end inside the attribute behind it. */
  lemma ClassBeforeAttr(s: string, i: nat, c: nat, q: nat)
    requires Label(s, i, c) && AttrAt(s, q) && c <= q + 6
    ensures c <= q
  {
  }

  lemma AroundIs(s: string, m: Span, t: string, y: string)
    requires m.start <= |s|
    ensures var w := Around(s, m, t, y); var e := m.start + |t|;
      && |w| == e + 1 + |y| && Share(s, w, m.start) && w[e] == '"'
      && (forall j :: m.start <= j < e ==> w[j] == t[j - m.start])
      && (forall j :: e < j < |w| ==> w[j] == y[j - e - 1])
      && w[..m.start] == s[..m.start] && w[m.start..e] == t && w[e + 1..] == y
  {
  }

  /** A label that did not match before the match does not start to when only what follows changes. */
  lemma SilentBefore(s: string, w: string, n: nat, k: nat, d: nat)
    requires Share(s, w, n) && 6 <= n && Opens(s, n - 6)
    requires k + |HEAD| < n && MatchAt(s, k).None? && Label(w, k, d)
    ensures Rest(w, d).None?
  {
    LabelsAreShared(w, s, n, k, d);
    LabelMatches(s, k, d);
    ClassBeforeAttr(s, k, d, n - 6);
    RestCloses(s, d);
    var g := Until(s, '>', d);
    assert g < n - 6;
    if Rest(w, d).Some? {
      RestSpan(w, d);
      var p := Rest(w, d).value.start - 6;
      assert w[g] == '>';
      assert p + 6 <= g;
      OpensAreShared(w, s, n, p);
    }
  }

  lemma EarlierStaySilent(s: string, w: string, n: nat, k: nat)
    requires Share(s, w, n) && 6 <= n && Opens(s, n - 6)
    requires k + |HEAD| < n && MatchAt(s, k).None?
    ensures MatchAt(w, k).None?
  {
    var d := MatchIsLabel(w, k);
    if MatchAt(w, k).Some? {
      SilentBefore(s, w, n, k, d);
    }
  }

  /** Where the attribute can open behind the first one: not in it, not in a clean value, so in what follows. */
  lemma OpensBehind(w: string, q: nat, t: string, y: string, p: nat)
    requires AttrAt(w, q) && |w| == q + 6 + |t| + 1 + |y| && Clean(t) && w[q + 6 + |t|] == '"'
    requires forall j :: 0 <= j < |t| ==> w[q + 6 + j] == t[j]
    requires forall j :: 0 <= j < |y| ==> w[q + 7 + |t| + j] == y[j]
    requires q < p && Opens(w, p)
    ensures p >= q + 7 + |t| && Opens(y, p - (q + 7 + |t|))
  {
    var e := q + 6 + |t|;
    forall j | q + 6 <= j < e ensures w[j] != '=' {
      assert w[q + 6 + (j - q - 6)] == t[j - q - 6];
    }
    NotInValue(w, q, e, p);
    var r := p - (e + 1);
    assert AttrAt(y, r);
    var z := Until(w, '"', p + 6);
    assert y[z - e - 1] == '"';
  }

  lemma NotInValue(w: string, q: nat, e: nat, p: nat)
    requires AttrAt(w, q) && q + 6 <= e < |w| && w[e] == '"'
    requires forall j :: q + 6 <= j < e ==> w[j] != '='
    requires q < p && AttrAt(w, p)
    ensures p > e
  {
  }

  lemma LooseReaches(w: string, c: nat, e: nat, y: string)
    requires c <= e && |w| == e + 1 + |y| && w[e] == '"' && Loose(y)
    requires forall j :: 0 <= j < |y| ==> w[e + 1 + j] == y[j]
    requires forall j :: c <= j <= e ==> w[j] != '>'
    ensures Rest(w, c).Some? && Rest(w, c).value.start >= e + 7
  {
    RestSpan(y, 0);
    var r := Rest(y, 0).value.start - 6;
    var z := Until(y, '"', r + 6);
    assert w[e + 1 + z] == '"';
    assert Opens(w, e + 1 + r);
    forall j | c <= j < e + 1 + r ensures w[j] != '>' {
      if j > e {
        assert w[e + 1 + (j - e - 1)] == y[j - e - 1];
      }
    }
    RestOpens(w, c, e + 1 + r);
  }

  /** The rest of the pattern around a new value: it closes right there, unless what follows is loose. */
  lemma RestAgain(w: string, c: nat, q: nat, t: string, y: string)
    requires AttrAt(w, q) && |w| == q + 6 + |t| + 1 + |y| && Clean(t) && w[q + 6 + |t|] == '"'
    requires forall j :: 0 <= j < |t| ==> w[q + 6 + j] == t[j]
    requires forall j :: 0 <= j < |y| ==> w[q + 7 + |t| + j] == y[j]
    requires c <= q && Opens(w, q) && forall j :: c <= j < q + 6 ==> w[j] != '>'
    ensures Rest(w, c).Some?
    ensures if Loose(y) then Rest(w, c).value.start > q + 6 + |t|
            else Rest(w, c).value == Span(q + 6, q + 6 + |t|)
  {
    var e := q + 6 + |t|;
    RestOpens(w, c, q);
    RestSpan(w, c);
    forall j | c <= j <= e ensures w[j] != '>' && (q + 6 <= j < e ==> w[j] != '"') {
      if q + 6 <= j < e {
        assert w[q + 6 + (j - q - 6)] == t[j - q - 6];
      }
    }
    if Loose(y) {
      LooseReaches(w, c, e, y);
    } else {
      NotBehind(w, c, q, t, y);
      assert Until(w, '"', q + 6) == e;
    }
  }

  lemma NotBehind(w: string, c: nat, q: nat, t: string, y: string)
    requires AttrAt(w, q) && |w| == q + 6 + |t| + 1 + |y| && Clean(t) && w[q + 6 + |t|] == '"'
    requires forall j :: 0 <= j < |t| ==> w[q + 6 + j] == t[j]
    requires forall j :: 0 <= j < |y| ==> w[q + 7 + |t| + j] == y[j]
    requires c <= q && Rest(w, c).Some? && Rest(w, c).value.start >= q + 6 && !Loose(y)
    ensures Rest(w, c).value.start == q + 6
  {
    RestSpan(w, c);
    var p := Rest(w, c).value.start - 6;
    if p > q {
      OpensBehind(w, q, t, y, p);
      var r := p - (q + 7 + |t|);
      forall j | 0 <= j < r ensures y[j] != '>' {
        assert w[q + 7 + |t| + j] == y[j];
      }
      RestOpens(y, 0, r);
    }
  }

  /** The match itself is found again: around the new value, unless what follows is loose. */
  lemma MatchesAgain(s: string, i: nat, m: Span, t: string, y: string)
    requires MatchAt(s, i) == Some(m) && m.start <= |s| && Clean(t)
    ensures var again := MatchAt(Around(s, m, t, y), i);
      && again.Some?
      && (if Loose(y) then again.value.start > m.start + |t| else again.value == Span(m.start, m.start + |t|))
  {
    var c := MatchSpan(s, i);
    var w := Around(s, m, t, y);
    AroundIs(s, m, t, y);
    LabelsAreShared(s, w, m.start, i, c);
    LabelMatches(w, i, c);
    RestAgain(w, c, m.start - 6, t, y);
  }

  lemma FirstAgain(s: string, m: Span, t: string, y: string)
    requires First(s) == Some(m) && Clean(t) && m.start <= |s|
    ensures var again := First(Around(s, m, t, y));
      && again.Some?
      && (if Loose(y) then again.value.start > m.start + |t| else again.value == Span(m.start, m.start + |t|))
  {
    var i := FirstIsMatch(s, 0);
    var w := Around(s, m, t, y);
    MatchesAgain(s, i, m, t, y);
    SilentBeforeAgain(s, i, m, t, y);
    FirstIsLeftmost(w, 0, i);
  }

  lemma SilentBeforeAgain(s: string, i: nat, m: Span, t: string, y: string)
    requires First(s) == Some(m) && Clean(t) && m.start <= |s|
    requires i <= |s| && MatchAt(s, i) == Some(m) && forall k :: 0 <= k < i ==> MatchAt(s, k).None?
    ensures i <= |Around(s, m, t, y)|
    ensures forall k :: 0 <= k < i ==> MatchAt(Around(s, m, t, y), k).None?
  {
    var c := MatchSpan(s, i);
    AroundIs(s, m, t, y);
    forall k | 0 <= k < i ensures MatchAt(Around(s, m, t, y), k).None? {
      EarlierStaySilent(s, Around(s, m, t, y), m.start, k);
    }
  }

  // ---- What follows a value keeps its looseness

  /** Two texts that agree up to a value, each with an attribute opening there, are loose together. */
  lemma LooseIsShared(a: string, b: string, n: nat)
    requires Share(a, b, n) && 6 <= n && Opens(a, n - 6) && Opens(b, n - 6)
    requires Loose(a)
    ensures Loose(b)
  {
    RestSpan(a, 0);
    var r := Rest(a, 0).value.start - 6;
    if r < n - 6 {
      ShortOpens(a, n, r);
      OpensAreShared(a, b, n, r);
      RestOpens(b, 0, r);
    } else {
      RestOpens(b, 0, n - 6);
    }
  }

  /** Two attributes do not overlap. */
  lemma ShortOpens(a: string, n: nat, r: nat)
    requires 6 <= n && AttrAt(a, n - 6) && AttrAt(a, r) && r < n - 6
    ensures r + 6 <= n - 6
  {
  }

  lemma RewriteIsAround(s: string, t: string)
    requires First(s).Some?
    ensures var m := First(s).value;
      && 6 <= m.start <= m.end < |s|
      && Rewrite(s, t) == Around(s, m, t, Rewrite(s[m.end + 1..], t))
  {
    FirstSpan(s);
  }

  lemma LooseRewrite(s: string, t: string)
    requires Clean(t)
    ensures Loose(Rewrite(s, t)) <==> Loose(s)
  {
    if First(s).Some? {
      RewriteIsAround(s, t);
      LooseTogether(s, First(s).value, t, Rewrite(s, t), Rewrite(s[First(s).value.end + 1..], t));
    }
  }

  lemma LooseTogether(s: string, m: Span, t: string, w: string, y: string)
    requires First(s) == Some(m) && 6 <= m.start <= |s| && w == Around(s, m, t, y)
    ensures Loose(w) <==> Loose(s)
  {
    LooseAround(s, m, t, y);
  }

  lemma LooseAround(s: string, m: Span, t: string, y: string)
    requires First(s) == Some(m) && 6 <= m.start <= |s|
    ensures Loose(Around(s, m, t, y)) <==> Loose(s)
  {
    var w := Around(s, m, t, y);
    AroundIs(s, m, t, y);
    OpensAround(s, m, w, m.start + |t|);
    if Loose(s) {
      LooseIsShared(s, w, m.start);
    }
    if Loose(w) {
      LooseIsShared(w, s, m.start);
    }
  }

  /** The attribute of a match opens in every text that agrees up to its value and has a quote behind. */
  lemma OpensAround(s: string, m: Span, w: string, e: nat)
    requires First(s) == Some(m) && 6 <= m.start <= e < |w| && w[e] == '"' && Share(s, w, m.start)
    ensures Opens(s, m.start - 6) && Opens(w, m.start - 6)
  {
    var i := FirstIsMatch(s, 0);
    var c := MatchSpan(s, i);
    assert Opens(s, m.start - 6);
  }

  // ---- The theorems

  /** After a clean write of a stable text the first label is where it was and says what was written. */
  lemma FirstAfterWrite(s: string, m: Span, rest: string, t: string)
    requires First(s) == Some(m) && Clean(t) && m.start <= m.end < |s| && rest == s[m.end + 1..]
    ensures Rewrite(s, t) == Around(s, m, t, Rewrite(rest, t)) && First(Rewrite(s, t)).Some?
    ensures var again := First(Rewrite(s, t)).value;
      if Loose(rest) then again.start > m.start + |t| else again == Span(m.start, m.start + |t|)
  {
    RewriteAt(s, m, rest, t);
    LooseRewrite(rest, t);
    FirstAround(s, m, rest, t, Rewrite(rest, t), Rewrite(s, t));
  }

  lemma RewriteAt(s: string, m: Span, rest: string, t: string)
    requires First(s) == Some(m) && m.start <= m.end < |s| && rest == s[m.end + 1..]
    ensures Rewrite(s, t) == Around(s, m, t, Rewrite(rest, t))
  {
    var tail := s[First(s).value.end + 1..];
    assert tail == rest;
    RewriteIsAround(s, t);
  }

  lemma FirstAround(s: string, m: Span, rest: string, t: string, y: string, w: string)
    requires First(s) == Some(m) && Clean(t) && m.start <= |s| && (Loose(y) <==> Loose(rest)) && w == Around(s, m, t, y)
    ensures First(w).Some?
    ensures if Loose(rest) then First(w).value.start > m.start + |t| else First(w).value == Span(m.start, m.start + |t|)
  {
    FirstAgain(s, m, t, y);
  }

  /** In a stable text the last write wins: what was written before leaves no trace. */
  lemma {:induction false} LastWriteWins(s: string, t: string, u: string)
    requires Stable(s) && Clean(t)
    ensures Rewrite(Rewrite(s, t), u) == Rewrite(s, u)
    decreases |s|
  {
    FirstSpan(s);
    if First(s).None? {
    } else {
      var m := First(s).value;
      var rest := s[m.end + 1..];
      LastWriteWins(rest, t, u);
      FirstAfterWrite(s, m, rest, t);
      WriteTwice(s, m, rest, t, u, Rewrite(s, t), Rewrite(rest, t));
    }
  }

  /** A second write finds the first label where the first write left it, and replaces what that wrote. */
  lemma WriteTwice(s: string, m: Span, rest: string, t: string, u: string, w: string, y: string)
    requires First(s) == Some(m) && m.start <= m.end < |s| && rest == s[m.end + 1..]
    requires w == Around(s, m, t, y) && First(w) == Some(Span(m.start, m.start + |t|))
    requires Rewrite(y, u) == Rewrite(rest, u)
    ensures Rewrite(w, u) == Rewrite(s, u)
  {
    AroundIs(s, m, t, y);
    RewriteAt(w, Span(m.start, m.start + |t|), y, u);
    RewriteAt(s, m, rest, u);
  }

  ghost predicate EachSays(values: seq<string>, t: string) {
    forall v <- values :: v == t
  }

  /** After a clean write every label of a stable text says what was written, and there are as many as before. */
  lemma {:induction false} ValuesAfterWrite(s: string, t: string)
    requires Stable(s) && Clean(t)
    ensures |Values(Rewrite(s, t))| == |Values(s)| && EachSays(Values(Rewrite(s, t)), t)
    decreases |s|
  {
    FirstSpan(s);
    if First(s).None? {
    } else {
      var m := First(s).value;
      var rest := s[m.end + 1..];
      ValuesAfterWrite(rest, t);
      OneMoreValue(s, m, rest, t);
      assert Values(Rewrite(s, t)) == [t] + Values(Rewrite(rest, t));
    }
  }

  lemma OneMoreValue(s: string, m: Span, rest: string, t: string)
    requires First(s) == Some(m) && m.start <= m.end < |s| && rest == s[m.end + 1..] && !Loose(rest) && Clean(t)
    ensures Values(Rewrite(s, t)) == [t] + Values(Rewrite(rest, t))
    ensures Values(s) == [s[m.start..m.end]] + Values(rest)
  {
    FirstAfterWrite(s, m, rest, t);
    ValueWritten(s, m, t, Rewrite(rest, t), Rewrite(s, t));
    ValuesOf(s, m, s[m.start..m.end], rest);
  }

  lemma ValueWritten(s: string, m: Span, t: string, y: string, w: string)
    requires m.start <= |s| && w == Around(s, m, t, y) && First(w) == Some(Span(m.start, m.start + |t|))
    ensures Values(w) == [t] + Values(y)
  {
    AroundIs(s, m, t, y);
    ValuesOf(w, Span(m.start, m.start + |t|), t, y);
  }

  lemma ValuesOf(w: string, m: Span, t: string, y: string)
    requires First(w) == Some(m) && m.start <= m.end < |w| && w[m.start..m.end] == t && w[m.end + 1..] == y
    ensures Values(w) == [t] + Values(y)
  {
  }

  lemma KeepsFront(w: string, u: string, n: nat)
    requires First(w).Some? && First(w).value.start > n
    ensures n < |w| && n < |Rewrite(w, u)| && Rewrite(w, u)[n] == w[n]
  {
    RewriteIsAround(w, u);
    var m := First(w).value;
    AroundIs(w, m, u, Rewrite(w[m.end + 1..], u));
  }

  // ---- Written more than once

  function Rewrites(s: string, t: string, n: nat): string {
    if n == 0 then s else Rewrite(Rewrites(s, t, n - 1), t)
  }

  lemma LastOfRewrites(s: string, t: string, n: nat, before: string)
    requires before == Rewrites(s, t, n)
    ensures Rewrites(s, t, n + 1) == Rewrite(before, t)
  {
  }

  /** The first write is the one to begin with. */
  lemma {:induction false} FirstOfRewrites(s: string, t: string, n: nat, once: string)
    requires once == Rewrite(s, t)
    ensures Rewrites(once, t, n) == Rewrites(s, t, n + 1)
  {
    LastOfRewrites(s, t, n, Rewrites(s, t, n));
    if n == 0 {
    } else {
      FirstOfRewrites(s, t, n - 1, once);
      LastOfRewrites(once, t, n - 1, Rewrites(s, t, n));
    }
  }

  /** In a stable text all writes but the first are idle. */
  lemma WritesAreOne(s: string, t: string, n: nat)
    requires Stable(s) && Clean(t) && n > 0
    ensures Rewrites(s, t, n) == Rewrite(s, t)
  {
    LastOfRewrites(s, t, n - 1, Rewrites(s, t, n - 1));
    WritesAreForgotten(s, t, t, n - 1);
  }

  lemma {:induction false} RewriteKeepsStable(s: string, t: string)
    requires Stable(s) && Clean(t)
    ensures Stable(Rewrite(s, t))
    decreases |s|
  {
    FirstSpan(s);
    if First(s).None? {
    } else {
      var m := First(s).value;
      var rest := s[m.end + 1..];
      RewriteKeepsStable(rest, t);
      LooseRewrite(rest, t);
      FirstAfterWrite(s, m, rest, t);
      AroundIs(s, m, t, Rewrite(rest, t));
    }
  }

  lemma {:induction false} WritesAreForgotten(s: string, t: string, u: string, n: nat)
    requires Stable(s) && Clean(t)
    ensures Stable(Rewrites(s, t, n)) && Rewrite(Rewrites(s, t, n), u) == Rewrite(s, u)
  {
    if n == 0 {
    } else {
      WritesAreForgotten(s, t, u, n - 1);
      RewriteKeepsStable(Rewrites(s, t, n - 1), t);
      LastWriteWins(Rewrites(s, t, n - 1), t, u);
    }
  }

  lemma {:induction false} LooseRewrites(s: string, t: string, n: nat)
    requires Clean(t)
    ensures Loose(Rewrites(s, t, n)) <==> Loose(s)
  {
    if n == 0 {
    } else {
      LooseRewrites(s, t, n - 1);
      LooseRewrite(Rewrites(s, t, n - 1), t);
    }
  }

  /** Where nothing is loose, every write finds the label the one before left. */
  lemma {:induction false} WritesInPlace(s: string, m: Span, rest: string, t: string, n: nat)
    requires First(s) == Some(m) && m.start <= m.end < |s| && rest == s[m.end + 1..] && !Loose(rest)
    requires Clean(t) && n > 0
    ensures Rewrites(s, t, n) == Around(s, m, t, Rewrites(rest, t, n))
    ensures First(Rewrites(s, t, n)) == Some(Span(m.start, m.start + |t|))
  {
    if n == 1 {
      LastOfRewrites(s, t, 0, s);
      LastOfRewrites(rest, t, 0, rest);
      FirstAfterWrite(s, m, rest, t);
    } else {
      WritesInPlace(s, m, rest, t, n - 1);
      NextInPlace(s, m, rest, t, n, Rewrites(rest, t, n - 1), Rewrites(s, t, n - 1));
    }
  }

  lemma NextInPlace(s: string, m: Span, rest: string, t: string, n: nat, y: string, w: string)
    requires First(s) == Some(m) && m.start <= |s| && !Loose(rest) && Clean(t) && n > 1
    requires y == Rewrites(rest, t, n - 1) && w == Rewrites(s, t, n - 1)
    requires w == Around(s, m, t, y) && First(w) == Some(Span(m.start, m.start + |t|))
    ensures Rewrites(s, t, n) == Around(s, m, t, Rewrites(rest, t, n))
    ensures First(Rewrites(s, t, n)) == Some(Span(m.start, m.start + |t|))
  {
    LastOfRewrites(s, t, n - 1, w);
    LastOfRewrites(rest, t, n - 1, y);
    LooseRewrites(rest, t, n);
    WriteOver(s, m, t, t, y, w);
    FirstAround(s, m, rest, t, Rewrites(rest, t, n), Rewrites(s, t, n));
  }

  /** Where something is, the first write stays out of reach of all the others. */
  lemma {:induction false} WritesStay(s: string, m: Span, rest: string, t: string, n: nat)
    requires First(s) == Some(m) && m.start <= m.end < |s| && rest == s[m.end + 1..] && Loose(rest)
    requires Clean(t) && t != "" && n > 0
    ensures var w := Rewrites(s, t, n);
      m.start < |w| && w[m.start] == t[0] && First(w).Some? && First(w).value.start > m.start
  {
    if n == 1 {
      FirstAfterWrite(s, m, rest, t);
      AroundIs(s, m, t, Rewrite(rest, t));
    } else {
      WritesStay(s, m, rest, t, n - 1);
      var w := Rewrites(s, t, n - 1);
      FirstSpan(w);
      KeepsFront(w, t, m.start);
      FirstAfterWrite(w, First(w).value, w[First(w).value.end + 1..], t);
    }
  }

  /** However often it is made, a write of an unstable text shows through one that begins differently. */
  lemma {:induction false} WritesShow(s: string, t: string, u: string, n: nat)
    requires !Stable(s) && Clean(t) && n > 0
    requires t != "" && u != "" && t[0] != u[0]
    ensures Rewrite(Rewrites(s, t, n), u) != Rewrite(s, u)
    decreases |s|
  {
    FirstSpan(s);
    var m := First(s).value;
    var rest := s[m.end + 1..];
    if Loose(rest) {
      WritesStay(s, m, rest, t, n);
      FrontsDiffer(s, m, rest, u, Rewrites(s, t, n), t[0]);
    } else {
      WritesShow(rest, t, u, n);
      WritesInPlace(s, m, rest, t, n);
      RewriteAt(s, m, rest, u);
      WriteOver(s, m, t, u, Rewrites(rest, t, n), Rewrites(s, t, n));
      TailsDiffer(s, m, u, Rewrite(rest, u), Rewrite(Rewrites(rest, t, n), u));
    }
  }

  lemma FrontsDiffer(s: string, m: Span, rest: string, u: string, w: string, c: char)
    requires First(s) == Some(m) && m.start <= m.end < |s| && rest == s[m.end + 1..] && u != "" && c != u[0]
    requires First(w).Some? && First(w).value.start > m.start && m.start < |w| && w[m.start] == c
    ensures Rewrite(w, u) != Rewrite(s, u)
  {
    RewriteAt(s, m, rest, u);
    AroundIs(s, m, u, Rewrite(rest, u));
    KeepsFront(w, u, m.start);
    assert Rewrite(s, u)[m.start] == u[0];
  }

  lemma WriteOver(s: string, m: Span, t: string, u: string, y: string, w: string)
    requires m.start <= |s| && w == Around(s, m, t, y) && First(w) == Some(Span(m.start, m.start + |t|))
    ensures Rewrite(w, u) == Around(s, m, u, Rewrite(y, u))
  {
    AroundIs(s, m, t, y);
    RewriteAt(w, Span(m.start, m.start + |t|), y, u);
  }

  lemma TailsDiffer(s: string, m: Span, u: string, y: string, z: string)
    requires m.start <= |s| && y != z
    ensures Around(s, m, u, y) != Around(s, m, u, z)
  {
    AroundIs(s, m, u, y);
    AroundIs(s, m, u, z);
  }

  /** In an unstable text a first write shows through a second one that begins differently. */
  lemma FirstWriteShows(s: string, t: string, u: string)
    requires !Stable(s) && Clean(t)
    requires t != "" && u != "" && t[0] != u[0]
    ensures Rewrite(Rewrite(s, t), u) != Rewrite(s, u)
  {
    WritesShow(s, t, u, 1);
    LastOfRewrites(s, t, 0, s);
  }

  // ---- The fixed point

  /** Masking sees nothing of `t`. */
  predicate Masks(s: string, t: string, mask: string) {
    Rewrite(Rewrite(s, t), mask) == Rewrite(s, mask)
  }

  /** The fixed point, exactly: writing any stamp and masking again is masking, if and only if the text is stable. */
  lemma MaskIsFixedPointIffStable(s: string, mask: string)
    requires Clean(mask) && mask != ""
    ensures Stable(s) <==> forall t :: Clean(t) && |t| == |mask| ==> Masks(s, t, mask)
  {
    if Stable(s) {
      forall t | Clean(t) && |t| == |mask| ensures Masks(s, t, mask) {
        LastWriteWins(s, t, mask);
      }
    } else {
      var t := OtherStamp(mask);
      FirstWriteShows(s, t, mask);
      assert !Masks(s, t, mask);
    }
  }

  lemma OtherStamp(mask: string) returns (t: string)
    requires mask != ""
    ensures Clean(t) && |t| == |mask| && t[0] != mask[0]
  {
    var other := if mask[0] == '1' then '2' else '1';
    t := seq(|mask|, _ => other);
    assert forall c <- t :: c == other;
  }

  ghost predicate Plain(values: seq<string>) {
    forall v <- values :: '>' !in v
  }

  lemma PlainTail(v: string, more: seq<string>)
    requires Plain([v] + more)
    ensures '>' !in v && Plain(more)
  {
    assert ([v] + more)[0] == v && ([v] + more)[1..] == more;
    forall w | w in more ensures '>' !in w {
      assert w in [v] + more;
    }
  }

  /** A text whose labels say nothing with a `>` in it is stable. */
  lemma {:induction false} PlainValuesAreStable(s: string)
    requires Plain(Values(s))
    ensures Stable(s)
    decreases |s|
  {
    FirstSpan(s);
    if First(s).None? {
    } else {
      var m := First(s).value;
      var rest := s[m.end + 1..];
      ValuesOf(s, m, s[m.start..m.end], rest);
      PlainTail(s[m.start..m.end], Values(rest));
      PlainValuesAreStable(rest);
      PlainIsNotLoose(s, m);
    }
  }

  lemma PlainIsNotLoose(s: string, m: Span)
    requires First(s) == Some(m) && m.start <= m.end < |s| && '>' !in s[m.start..m.end]
    ensures !Loose(s[m.end + 1..])
  {
    var rest := s[m.end + 1..];
    if Loose(rest) {
      RestSpan(rest, 0);
      var r := Rest(rest, 0).value.start - 6;
      var i := FirstIsMatch(s, 0);
      var c := MatchSpan(s, i);
      ReachesPast(s, c, m, rest, r);
    }
  }

  lemma ReachesPast(s: string, c: nat, m: Span, rest: string, r: nat)
    requires c <= m.start <= m.end < |s| && rest == s[m.end + 1..] && s[m.end] == '"'
    requires forall j :: c <= j < m.start ==> s[j] != '>'
    requires '>' !in s[m.start..m.end]
    requires r <= |rest| && Opens(rest, r) && forall j :: 0 <= j < r ==> rest[j] != '>'
    ensures Opens(s, m.end + 1 + r) && m.end + 1 + r <= Until(s, '>', c)
  {
    var p := m.end + 1 + r;
    var z := Until(rest, '"', r + 6);
    assert s[m.end + 1 + z] == '"';
    assert Opens(s, p);
    forall j | c <= j < p ensures s[j] != '>' {
      if m.start <= j < m.end {
        assert s[j] == s[m.start..m.end][j - m.start];
      } else if j > m.end {
        assert s[j] == rest[j - m.end - 1];
      }
    }
  }

  /** Behind a value that is a `>` stands another text attribute, and then the tag ends. */
  const LOOSE_LABEL := HEAD + ("-stamp\"" + " text=\">\" text=\"0000000\">")

  lemma SomeTextIsUnstable(s: string)
    requires s == LOOSE_LABEL
    ensures !Stable(s)
  {
    LooseIsParsed(s);
    LooseBehind(s[|HEAD| + 16..]);
  }

  lemma LooseIsParsed(s: string)
    requires s == LOOSE_LABEL
    ensures First(s) == Some(Span(|HEAD| + 14, |HEAD| + 15)) && s[|HEAD| + 16..] == " text=\"0000000\">"
    ensures s[|HEAD| + 7..] == " text=\">\" text=\"0000000\">"
  {
    LabelAtStart(s, "-stamp\"", " text=\">\" text=\"0000000\">");
    LooseParse(s, |HEAD| + 7);
  }

  lemma LabelAtStart(s: string, tail: string, behind: string)
    requires s == HEAD + (tail + behind) && tail == "-stamp\""
    ensures Label(s, 0, |HEAD| + 7) && s[|HEAD| + 7..] == behind
  {
    var lo := |HEAD|;
    assert s[..lo] == HEAD;
    assert s[lo..lo + 7] == tail;
    assert forall j :: 0 <= j < 7 ==> s[lo + j] == tail[j];
    assert s[lo + 7..] == behind;
  }

  /** The first attribute is the last one that opens before the `>` in its own value. */
  lemma LooseParse(s: string, c: nat)
    requires Label(s, 0, c) && s[c..] == " text=\">\" text=\"0000000\">"
    ensures First(s) == Some(Span(c + 7, c + 8)) && s[c + 9..] == " text=\"0000000\">"
  {
    assert s[c..][9..] == " text=\"0000000\">";
    assert s[c + 9..] == s[c..][9..];
    LooseRest(s, c);
    FirstAtStart(s, c);
  }

  lemma LooseRest(s: string, c: nat)
    requires 0 < c <= |s| && s[c..] == " text=\">\" text=\"0000000\">"
    ensures Rest(s, c) == Some(Span(c + 7, c + 8))
  {
    var behind := s[c..];
    assert forall j :: 0 <= j < |behind| ==> s[c + j] == behind[j];
    RestOpens(s, c, c + 1);
    RestSpan(s, c);
    assert s[c + 7] == '>' && s[c + 8] == '"';
  }

  lemma FirstAtStart(s: string, c: nat)
    requires Label(s, 0, c) && Rest(s, c).Some?
    ensures First(s) == Rest(s, c)
  {
    LabelMatches(s, 0, c);
    FirstIsLeftmost(s, 0, 0);
  }

  lemma LooseBehind(rest: string)
    requires rest == " text=\"0000000\">"
    ensures Loose(rest)
  {
    assert rest[14] == '"';
    RestOpens(rest, 0, 1);
  }

  /** So there are texts of which a stamp is seen after all. */
  lemma SomeStampIsSeen(s: string, mask: string) returns (t: string)
    requires s == LOOSE_LABEL && Clean(mask) && mask != ""
    ensures Clean(t) && |t| == |mask| && !Masks(s, t, mask)
  {
    SomeTextIsUnstable(s);
    MaskIsFixedPointIffStable(s, mask);
    t :| Clean(t) && |t| == |mask| && !Masks(s, t, mask);
  }
}

/**
 * The stamp label's pattern, matched the way a backtracking engine does, and rewriting what it captures
 * (hud/src/stamp.ts).
 */
module StampLabel {
  import opened Wrappers

  // ---- The pattern, piece by piece

  /** What a label opens with, up to the name of its class. */
  const HEAD := "<Label class=\"ezpug-"

  predicate HeadAt(s: string, k: nat) {
    k + |HEAD| <= |s| && s[k..k + |HEAD|] == HEAD
  }

  /** `-stamp"` */
  predicate TailAt(s: string, k: nat) {
    && k + 7 <= |s|
    && s[k] == '-' && s[k + 1] == 's' && s[k + 2] == 't' && s[k + 3] == 'a' && s[k + 4] == 'm' && s[k + 5] == 'p'
    && s[k + 6] == '"'
  }

  /** `text="` */
  predicate AttrAt(s: string, k: nat) {
    && k + 6 <= |s|
    && s[k] == 't' && s[k + 1] == 'e' && s[k + 2] == 'x' && s[k + 3] == 't' && s[k + 4] == '='
    && s[k + 5] == '"'
  }

  predicate ClassChar(c: char) {
    'a' <= c <= 'z' || c == '-'
  }

  predicate WordChar(c: char) {
    'a' <= c <= 'z' || 'A' <= c <= 'Z' || '0' <= c <= '9' || c == '_'
  }

  /** Where the greedy `[a-z-]*` stops. */
  function ClassEnd(s: string, k: nat): (e: nat)
    requires k <= |s|
    ensures k <= e <= |s|
    ensures forall j :: k <= j < e ==> ClassChar(s[j])
    ensures e < |s| ==> !ClassChar(s[e])
    decreases |s| - k
  {
    if k == |s| || !ClassChar(s[k]) then k else ClassEnd(s, k + 1)
  }

  /** The first `c` from `k` on, or the end: where the greedy `[^c]*` stops. */
  function Until(s: string, c: char, k: nat): (e: nat)
    requires k <= |s|
    ensures k <= e <= |s|
    ensures forall j :: k <= j < e ==> s[j] != c
    ensures e < |s| ==> s[e] == c
    decreases |s| - k
  {
    if k == |s| || s[k] == c then k else Until(s, c, k + 1)
  }

  /** Where a captured value starts and where its closing quote stands. */
  datatype Span = Span(start: nat, end: nat)

  /** `\btext="` at `k` with a quote to close the value. */
  predicate Opens(s: string, k: nat) {
    AttrAt(s, k) && (k == 0 || !WordChar(s[k - 1])) && Until(s, '"', k + 6) < |s|
  }

  /** `[^>]*` gives back one character at a time, from `k` down to `c`, until the attribute matches. */
  function TryText(s: string, c: nat, k: nat): Option<Span>
    requires c <= k <= |s|
    decreases k
  {
    if Opens(s, k) then Some(Span(k + 6, Until(s, '"', k + 6)))
    else if k == c then None
    else TryText(s, c, k - 1)
  }

  /** The rest of the pattern behind a class that ends at `c`. */
  function Rest(s: string, c: nat): Option<Span>
    requires c <= |s|
  {
    TryText(s, c, Until(s, '>', c))
  }

  /** `[a-z-]*` gives back one character at a time, from `k` down to `lo`. */
  function TryClass(s: string, lo: nat, k: nat): Option<Span>
    requires lo <= k <= |s|
    decreases k
  {
    if TailAt(s, k) && Rest(s, k + 7).Some? then Rest(s, k + 7)
    else if k == lo then None
    else TryClass(s, lo, k - 1)
  }

  function MatchAt(s: string, i: nat): Option<Span> {
    if HeadAt(s, i) then TryClass(s, i + |HEAD|, ClassEnd(s, i + |HEAD|)) else None
  }

  /** The leftmost match from `i` on. */
  function FirstFrom(s: string, i: nat): Option<Span>
    requires i <= |s|
    decreases |s| - i
  {
    if MatchAt(s, i).Some? then MatchAt(s, i)
    else if i == |s| then None
    else FirstFrom(s, i + 1)
  }

  function First(s: string): (r: Option<Span>)
  {
    FirstFrom(s, 0)
  }

  lemma {:induction false} TryTextIsLast(s: string, c: nat, k: nat)
    requires c <= k <= |s|
    ensures var r := TryText(s, c, k);
      if r.None? then forall q :: c <= q <= k ==> !Opens(s, q)
      else
        && c + 6 <= r.value.start <= k + 6
        && Opens(s, r.value.start - 6)
        && r.value.end == Until(s, '"', r.value.start)
        && forall q :: r.value.start - 6 < q <= k ==> !Opens(s, q)
    decreases k
  {
    if Opens(s, k) || k == c {
    } else {
      TryTextIsLast(s, c, k - 1);
    }
  }

  lemma {:induction false} TryClassFinds(s: string, lo: nat, k: nat) returns (q: nat)
    requires lo <= k <= |s|
    ensures TryClass(s, lo, k).None? ==> forall p :: lo <= p <= k && TailAt(s, p) ==> Rest(s, p + 7).None?
    ensures TryClass(s, lo, k).Some? ==> lo <= q <= k && TailAt(s, q) && Rest(s, q + 7) == TryClass(s, lo, k)
    decreases k
  {
    if (TailAt(s, k) && Rest(s, k + 7).Some?) || k == lo {
      q := k;
    } else {
      q := TryClassFinds(s, lo, k - 1);
    }
  }

  lemma {:induction false} FirstIsMatch(s: string, i: nat) returns (j: nat)
    requires i <= |s| && FirstFrom(s, i).Some?
    ensures i <= j <= |s| && MatchAt(s, j) == FirstFrom(s, i)
    ensures forall k :: i <= k < j ==> MatchAt(s, k).None?
    decreases |s| - i
  {
    if MatchAt(s, i).Some? {
      j := i;
    } else {
      j := FirstIsMatch(s, i + 1);
    }
  }

  lemma {:induction false} NoMatchAnywhere(s: string, i: nat, k: nat)
    requires i <= k <= |s| && FirstFrom(s, i).None?
    ensures MatchAt(s, k).None?
    decreases |s| - i
  {
    if i == k {
    } else {
      NoMatchAnywhere(s, i + 1, k);
    }
  }

  lemma {:induction false} FirstIsLeftmost(s: string, i: nat, j: nat)
    requires i <= j <= |s| && MatchAt(s, j).Some?
    requires forall k :: i <= k < j ==> MatchAt(s, k).None?
    ensures FirstFrom(s, i) == MatchAt(s, j)
    decreases j - i
  {
    if i == j {
    } else {
      FirstIsLeftmost(s, i + 1, j);
    }
  }

  /** A class can only end where its quote stands, so it ends in one place. */
  lemma TailEndsTheClass(s: string, lo: nat, k: nat)
    requires lo <= k <= |s| && TailAt(s, k) && lo <= |s|
    requires k <= ClassEnd(s, lo)
    ensures ClassEnd(s, lo) == k + 6
  {
    assert !ClassChar(s[k + 6]);
    assert ClassChar(s[k]) && ClassChar(s[k + 1]) && ClassChar(s[k + 2]) && ClassChar(s[k + 3]);
    assert ClassChar(s[k + 4]) && ClassChar(s[k + 5]);
  }

  /** A label whose class ends right before `c`. */
  predicate Label(s: string, i: nat, c: nat) {
    && HeadAt(s, i)
    && i + |HEAD| + 7 <= c <= |s|
    && TailAt(s, c - 7)
    && ClassEnd(s, i + |HEAD|) == c - 1
  }

  lemma MatchIsLabel(s: string, i: nat) returns (c: nat)
    ensures MatchAt(s, i).Some? ==> Label(s, i, c) && Rest(s, c) == MatchAt(s, i)
    ensures MatchAt(s, i).None? ==> forall c: nat :: Label(s, i, c) ==> Rest(s, c).None?
  {
    c := 0;
    if HeadAt(s, i) {
      var lo := i + |HEAD|;
      var q := TryClassFinds(s, lo, ClassEnd(s, lo));
      if MatchAt(s, i).Some? {
        TailEndsTheClass(s, lo, q);
        c := q + 7;
      } else {
        forall c: nat | Label(s, i, c) ensures Rest(s, c).None? {
          assert TailAt(s, c - 7) && lo <= c - 7 <= ClassEnd(s, lo);
        }
      }
    }
  }

  lemma LabelMatches(s: string, i: nat, c: nat)
    requires Label(s, i, c)
    ensures MatchAt(s, i) == Rest(s, c)
  {
    var d := MatchIsLabel(s, i);
  }

  /** What a match is: a label, and the last place within its tag's reach where the attribute opens. */
  lemma MatchSpan(s: string, i: nat) returns (c: nat)
    requires MatchAt(s, i).Some?
    ensures Label(s, i, c)
    ensures var m := MatchAt(s, i).value; var q := m.start - 6;
      && c <= q && m.start <= m.end < |s|
      && Opens(s, q) && m.end == Until(s, '"', m.start)
      && (forall j :: c <= j < m.start ==> s[j] != '>')
      && forall p :: q < p <= Until(s, '>', c) ==> !Opens(s, p)
  {
    c := MatchIsLabel(s, i);
    RestSpan(s, c);
  }

  lemma RestSpan(s: string, c: nat)
    requires c <= |s| && Rest(s, c).Some?
    ensures var m := Rest(s, c).value; var q := m.start - 6;
      && c <= q && m.start <= m.end < |s|
      && Opens(s, q) && m.end == Until(s, '"', m.start)
      && (forall j :: c <= j < m.start ==> s[j] != '>')
      && forall p :: q < p <= Until(s, '>', c) ==> !Opens(s, p)
  {
    var m := Rest(s, c).value;
    TryTextIsLast(s, c, Until(s, '>', c));
    var q := m.start - 6;
    assert q <= Until(s, '>', c);
    assert forall j :: q <= j < q + 6 ==> s[j] != '>';
  }
}

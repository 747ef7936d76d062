/** The stamp label's pattern told as a language: what the backtracking matcher finds is the parse whose value
    begins last (hud/src/stamp.ts). */
module StampPattern {
  import opened Wrappers
  import opened StampLabel
  import opened StampRewrite

  predicate StandsAt(s: string, i: nat, piece: string) {
    i + |piece| <= |s| && s[i..i + |piece|] == piece
  }

  /** `<Label class="ezpug-[a-z-]*-stamp"[^>]*\btext="` with the class's name and what stands before the attribute. */
  function Opening(name: string, attrs: string): string {
    "<Label class=\"ezpug-" + name + "-stamp\"" + attrs + "text=\""
  }

  ghost predicate NameIs(name: string) {
    forall c <- name :: 'a' <= c <= 'z' || c == '-'
  }

  /** No bracket closes the tag, and `text` begins a word. */
  ghost predicate AttrsAre(attrs: string) {
    && '>' !in attrs
    && (attrs != "" ==>
      var c := attrs[|attrs| - 1]; !('a' <= c <= 'z' || 'A' <= c <= 'Z' || '0' <= c <= '9' || c == '_'))
  }

  /** A way to read a label from `i` on, with a value between quotes. */
  ghost predicate Parses(s: string, i: nat, name: string, attrs: string, value: string) {
    && NameIs(name) && AttrsAre(attrs) && '"' !in value
    && StandsAt(s, i, Opening(name, attrs) + value + "\"")
  }

  lemma OpeningLength(name: string, attrs: string)
    ensures |Opening(name, attrs)| == |HEAD| + |name| + 7 + |attrs| + 6
  {
    assert |"<Label class=\"ezpug-"| == |HEAD| && |"-stamp\""| == 7 && |"text=\""| == 6;
  }

  lemma StandsInTurn(s: string, i: nat, a: string, b: string)
    ensures StandsAt(s, i, a + b) <==> StandsAt(s, i, a) && StandsAt(s, i + |a|, b)
  {
    if StandsAt(s, i, a + b) {
      assert s[i..i + |a|] == s[i..i + |a + b|][..|a|];
      assert s[i + |a|..i + |a| + |b|] == s[i..i + |a + b|][|a|..];
    }
    if StandsAt(s, i, a) && StandsAt(s, i + |a|, b) {
      assert s[i..i + |a + b|] == s[i..i + |a|] + s[i + |a|..i + |a| + |b|];
    }
  }

  lemma Without(s: string, i: nat, piece: string, x: char)
    requires StandsAt(s, i, piece) && x !in piece
    ensures forall j :: i <= j < i + |piece| ==> s[j] != x
  {
    forall j | i <= j < i + |piece| ensures s[j] != x {
      assert s[j] == s[i..i + |piece|][j - i] && piece[j - i] in piece;
    }
  }

  lemma FivePieces(s: string, i: nat, a: string, b: string, c: string, d: string, e: string)
    ensures StandsAt(s, i, a + b + c + d + e)
       <==> && StandsAt(s, i, a) && StandsAt(s, i + |a|, b) && StandsAt(s, i + |a| + |b|, c)
            && StandsAt(s, i + |a| + |b| + |c|, d) && StandsAt(s, i + |a| + |b| + |c| + |d|, e)
  {
    StandsInTurn(s, i, a + b + c + d, e);
    StandsInTurn(s, i, a + b + c, d);
    StandsInTurn(s, i, a + b, c);
    StandsInTurn(s, i, a, b);
  }

  /** The pieces of a parse, one behind the other. */
  lemma Pieces(s: string, i: nat, name: string, attrs: string, value: string)
    ensures var n := i + |HEAD|; var c := n + |name| + 7; var q := c + |attrs|;
      StandsAt(s, i, Opening(name, attrs) + value + "\"")
      <==> && StandsAt(s, i, "<Label class=\"ezpug-") && StandsAt(s, n, name) && StandsAt(s, n + |name|, "-stamp\"")
           && StandsAt(s, c, attrs) && StandsAt(s, q, "text=\"") && StandsAt(s, q + 6, value)
           && StandsAt(s, q + 6 + |value|, "\"")
  {
    OpeningLength(name, attrs);
    StandsInTurn(s, i, Opening(name, attrs) + value, "\"");
    StandsInTurn(s, i, Opening(name, attrs), value);
    FivePieces(s, i, "<Label class=\"ezpug-", name, "-stamp\"", attrs, "text=\"");
    assert |"<Label class=\"ezpug-"| == |HEAD| && |"-stamp\""| == 7 && |"text=\""| == 6;
  }

  lemma Literals(s: string, k: nat)
    ensures HeadAt(s, k) <==> StandsAt(s, k, "<Label class=\"ezpug-")
    ensures TailAt(s, k) <==> StandsAt(s, k, "-stamp\"")
    ensures AttrAt(s, k) <==> StandsAt(s, k, "text=\"")
  {
    if k + 7 <= |s| {
      var t := s[k..k + 7];
      assert t == [s[k], s[k + 1], s[k + 2], s[k + 3], s[k + 4], s[k + 5], s[k + 6]];
      assert "-stamp\"" == ['-', 's', 't', 'a', 'm', 'p', '"'];
    }
    if k + 6 <= |s| {
      var t := s[k..k + 6];
      assert t == [s[k], s[k + 1], s[k + 2], s[k + 3], s[k + 4], s[k + 5]];
      assert "text=\"" == ['t', 'e', 'x', 't', '=', '"'];
    }
  }

  lemma LabelReads(s: string, i: nat, c: nat)
    requires Label(s, i, c)
    ensures var n := i + |HEAD|; var name := s[n..c - 7];
      && NameIs(name) && StandsAt(s, i, "<Label class=\"ezpug-") && StandsAt(s, n, name)
      && StandsAt(s, n + |name|, "-stamp\"")
  {
    Literals(s, i);
    Literals(s, c - 7);
    var n := i + |HEAD|;
    var name := s[n..c - 7];
    forall x | x in name ensures 'a' <= x <= 'z' || x == '-' {
      var j :| 0 <= j < |name| && name[j] == x;
      assert ClassChar(s[n + j]);
    }
  }

  lemma AttributesRead(s: string, c: nat, q: nat, end: nat)
    requires c <= q && q + 6 <= end < |s| && Opens(s, q) && Until(s, '"', q + 6) == end
    requires forall j :: c <= j < q ==> s[j] != '>'
    ensures AttrsAre(s[c..q]) && StandsAt(s, q, "text=\"")
    ensures '"' !in s[q + 6..end] && StandsAt(s, end, "\"")
  {
    Literals(s, q);
    assert s[end..end + 1] == "\"";
    assert c < q ==> s[c..q][q - c - 1] == s[q - 1];
  }

  lemma Read(s: string, i: nat, c: nat, q: nat, end: nat)
    requires Label(s, i, c) && c <= q && q + 6 <= end < |s| && Opens(s, q) && Until(s, '"', q + 6) == end
    requires forall j :: c <= j < q ==> s[j] != '>'
    ensures var name, attrs, value := s[i + |HEAD|..c - 7], s[c..q], s[q + 6..end];
      Parses(s, i, name, attrs, value) && i + |Opening(name, attrs)| == q + 6
  {
    var name, attrs, value := s[i + |HEAD|..c - 7], s[c..q], s[q + 6..end];
    LabelReads(s, i, c);
    AttributesRead(s, c, q, end);
    OpeningLength(name, attrs);
    Pieces(s, i, name, attrs, value);
  }

  /** What is matched is a way to read a label. */
  lemma MatchIsAParse(s: string, i: nat) returns (name: string, attrs: string, value: string)
    requires MatchAt(s, i).Some?
    ensures Parses(s, i, name, attrs, value)
    ensures var start := i + |Opening(name, attrs)|; MatchAt(s, i) == Some(Span(start, start + |value|))
  {
    var c := MatchSpan(s, i);
    var m := MatchAt(s, i).value;
    Read(s, i, c, m.start - 6, m.end);
    name, attrs, value := s[i + |HEAD|..c - 7], s[c..m.start - 6], s[m.start..m.end];
  }

  lemma {:induction false} ClassEndsAt(s: string, k: nat, e: nat)
    requires k <= e < |s| && !ClassChar(s[e]) && forall j :: k <= j < e ==> ClassChar(s[j])
    ensures ClassEnd(s, k) == e
    decreases e - k
  {
    if k == e {
    } else {
      ClassEndsAt(s, k + 1, e);
    }
  }

  lemma ReadsLabel(s: string, i: nat, name: string)
    requires NameIs(name) && StandsAt(s, i, "<Label class=\"ezpug-")
    requires StandsAt(s, i + |HEAD|, name) && StandsAt(s, i + |HEAD| + |name|, "-stamp\"")
    ensures var c := i + |HEAD| + |name| + 7; Label(s, i, c) && s[c - 1] == '"' && MatchAt(s, i) == Rest(s, c)
  {
    var n, c := i + |HEAD|, i + |HEAD| + |name| + 7;
    Literals(s, i);
    Literals(s, c - 7);
    forall j | n <= j < c - 7 ensures ClassChar(s[j]) {
      assert s[j] == s[n..n + |name|][j - n] && name[j - n] in name;
    }
    ClassEndsAt(s, n, c - 1);
    LabelMatches(s, i, c);
  }

  lemma ReadsValue(s: string, k: nat, value: string)
    requires '"' !in value && StandsAt(s, k, value) && StandsAt(s, k + |value|, "\"")
    ensures Until(s, '"', k) == k + |value| < |s|
  {
    var e := k + |value|;
    Without(s, k, value, '"');
    assert s[e] == s[e..e + 1][0] == '"';
  }

  lemma ReadsAttributes(s: string, c: nat, attrs: string)
    requires AttrsAre(attrs) && 0 < c <= |s| && s[c - 1] == '"'
    requires StandsAt(s, c, attrs) && StandsAt(s, c + |attrs|, "text=\"")
    ensures var q := c + |attrs|; AttrAt(s, q) && !WordChar(s[q - 1])
    ensures forall j :: c <= j < c + |attrs| ==> s[j] != '>'
  {
    var q := c + |attrs|;
    Literals(s, q);
    Without(s, c, attrs, '>');
    assert attrs != "" ==> s[q - 1] == s[c..q][|attrs| - 1];
  }

  lemma ReadsOn(s: string, c: nat, attrs: string, value: string)
    requires AttrsAre(attrs) && '"' !in value && 0 < c <= |s| && s[c - 1] == '"'
    requires StandsAt(s, c, attrs) && StandsAt(s, c + |attrs|, "text=\"")
    requires StandsAt(s, c + |attrs| + 6, value) && StandsAt(s, c + |attrs| + 6 + |value|, "\"")
    ensures Rest(s, c).Some? && c + |attrs| + 6 <= Rest(s, c).value.start
    ensures c + |attrs| + 6 == Rest(s, c).value.start ==> Rest(s, c).value.end == c + |attrs| + 6 + |value|
  {
    var q := c + |attrs|;
    ReadsAttributes(s, c, attrs);
    ReadsValue(s, q + 6, value);
    assert Opens(s, q) && q <= Until(s, '>', c);
    TryTextIsLast(s, c, Until(s, '>', c));
  }

  /** However a label can be read, it is matched, with a value that begins there or later. */
  lemma ParseIsMatched(s: string, i: nat, name: string, attrs: string, value: string)
    requires Parses(s, i, name, attrs, value)
    ensures var start := i + |Opening(name, attrs)|;
      && MatchAt(s, i).Some? && start <= MatchAt(s, i).value.start
      && (start == MatchAt(s, i).value.start ==> MatchAt(s, i).value.end == start + |value|)
  {
    var c := i + |HEAD| + |name| + 7;
    Pieces(s, i, name, attrs, value);
    OpeningLength(name, attrs);
    ReadsLabel(s, i, name);
    ReadsOn(s, c, attrs, value);
  }

  lemma ValueIsLast(s: string, name: string, attrs: string, value: string)
    requires NameIs(name) && AttrsAre(attrs) && '"' !in value
    requires s == Opening(name, attrs) + value + "\""
    ensures First(s) == Some(Span(|Opening(name, attrs)|, |s| - 1))
  {
    var n := |Opening(name, attrs)|;
    assert s[0..|s|] == s;
    ParseIsMatched(s, 0, name, attrs, value);
    var c := MatchSpan(s, 0);
    var m := MatchAt(s, 0).value;
    assert s[m.start - 1] == '"';
    forall j | n <= j < |s| - 1 ensures s[j] != '"' {
      assert s[j] == value[j - n] && value[j - n] in value;
    }
    FirstIsLeftmost(s, 0, 0);
  }

  /** A label and nothing else: its value is read, and written over. */
  lemma LoneLabel(name: string, attrs: string, value: string, t: string)
    requires NameIs(name) && AttrsAre(attrs) && '"' !in value
    ensures Values(Opening(name, attrs) + value + "\"") == [value]
    ensures Rewrite(Opening(name, attrs) + value + "\"", t) == Opening(name, attrs) + t + "\""
  {
    var s := Opening(name, attrs) + value + "\"";
    ValueIsLast(s, name, attrs, value);
    var m := First(s).value;
    assert s[m.end + 1..] == "" && s[m.start..m.end] == value && s[..m.start] == Opening(name, attrs);
    assert s[m.end] == '"';
    FirstSpan("");
    RewriteIsAround(s, t);
  }
}

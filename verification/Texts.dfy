/** What the models need of JavaScript strings: their order, and splitting and joining them. */
module Texts {

  /** Where a character falls when strings are compared by UTF-16 code units: a character past
      the basic plane begins with a surrogate, so it stands before U+E000. */
  function Rank(c: char): nat {
    var n := c as int;
    if n < 0xD800 then n
    else if n >= 0x1_0000 then n - 0x1_0000 + 0xD800
    else n - 0xE000 + 0xD800 + 0x10_0000
  }

  /** `a < b`. */
  predicate Less(a: string, b: string) {
    if b == "" then false
    else if a == "" then true
    else if a[0] == b[0] then Less(a[1..], b[1..])
    else Rank(a[0]) < Rank(b[0])
  }

  lemma {:induction false} LessIsStrict(a: string, b: string)
    ensures Less(a, b) ==> !Less(b, a)
    ensures !Less(a, a)
  {
    if a == "" {
    } else {
      LessIsStrict(a[1..], if b == "" then "" else b[1..]);
    }
  }

  lemma {:induction false} LessIsTotal(a: string, b: string)
    ensures Less(a, b) || Less(b, a) || a == b
  {
    if a == "" || b == "" {
    } else {
      LessIsTotal(a[1..], b[1..]);
      assert a == [a[0]] + a[1..] && b == [b[0]] + b[1..];
    }
  }

  lemma {:induction false} LessIsTransitive(a: string, b: string, c: string)
    requires !Less(b, a) && !Less(c, b)
    ensures !Less(c, a)
  {
    if a == "" || b == "" || c == "" || a[0] != b[0] || b[0] != c[0] {
    } else {
      LessIsTransitive(a[1..], b[1..], c[1..]);
    }
  }

  /** A string as JavaScript holds it: a character past the basic plane is a surrogate pair. */
  function Units(s: string): seq<nat> {
    if s == "" then [] else UnitsOf(s[0]) + Units(s[1..])
  }

  function UnitsOf(c: char): seq<nat> {
    var n := c as int;
    if n < 0x1_0000 then [n] else [0xD800 + (n - 0x1_0000) / 0x400, 0xDC00 + (n - 0x1_0000) % 0x400]
  }

  predicate UnitsLess(a: seq<nat>, b: seq<nat>) {
    b != [] && (a == [] || a[0] < b[0] || (a[0] == b[0] && UnitsLess(a[1..], b[1..])))
  }

  lemma UnitsLessBehind(c: char, a: seq<nat>, b: seq<nat>)
    ensures UnitsLess(UnitsOf(c) + a, UnitsOf(c) + b) <==> UnitsLess(a, b)
  {
    var u := UnitsOf(c);
    assert (u + a)[1..] == u[1..] + a && (u + b)[1..] == u[1..] + b;
    if |u| == 2 {
      assert (u[1..] + a)[1..] == a && (u[1..] + b)[1..] == b;
    }
  }

  lemma UnitsLessAt(c: char, d: char, a: seq<nat>, b: seq<nat>)
    requires c != d
    ensures UnitsLess(UnitsOf(c) + a, UnitsOf(d) + b) <==> Rank(c) < Rank(d)
  {
    var u, v := UnitsOf(c), UnitsOf(d);
    assert (u + a)[1..] == u[1..] + a && (v + b)[1..] == v[1..] + b;
  }

  /** Strings stand in the order of their UTF-16 code units. */
  lemma {:induction false} LessIsByUnits(a: string, b: string)
    ensures Less(a, b) <==> UnitsLess(Units(a), Units(b))
  {
    if a == "" || b == "" {
    } else if a[0] == b[0] {
      LessIsByUnits(a[1..], b[1..]);
      UnitsLessBehind(a[0], Units(a[1..]), Units(b[1..]));
    } else {
      UnitsLessAt(a[0], b[0], Units(a[1..]), Units(b[1..]));
    }
  }

  /** The last index below `end` at which `c` stands, or -1. */
  function LastBefore(s: string, c: char, end: nat): (i: int)
    requires end <= |s|
    ensures -1 <= i < end
    ensures i >= 0 ==> s[i] == c
    ensures forall j :: i < j < end ==> s[j] != c
  {
    if end == 0 then -1
    else if s[end - 1] == c then end - 1
    else LastBefore(s, c, end - 1)
  }

  /** `s.lastIndexOf(c)`. */
  function LastIndexOf(s: string, c: char): (i: int)
    ensures -1 <= i < |s|
    ensures i >= 0 ==> s[i] == c
    ensures forall j :: i < j < |s| ==> s[j] != c
  {
    LastBefore(s, c, |s|)
  }

  predicate StartsWith(s: string, prefix: string) {
    |prefix| <= |s| && s[..|prefix|] == prefix
  }

  predicate EndsWith(s: string, suffix: string) {
    |suffix| <= |s| && s[|s| - |suffix|..] == suffix
  }

  /** `s.split(c)`. */
  function SplitOn(s: string, c: char): (parts: seq<string>)
    ensures parts != []
  {
    if s == "" then [""]
    else
      var rest := SplitOn(s[1..], c);
      if s[0] == c then [""] + rest else [[s[0]] + rest[0]] + rest[1..]
  }

  /** `parts.join(c)`. */
  function Join(parts: seq<string>, c: char): string {
    if parts == [] then ""
    else if |parts| == 1 then parts[0]
    else parts[0] + [c] + Join(parts[1..], c)
  }

  lemma SplitOnPrefix(a: string, rest: string, c: char)
    requires c !in a
    ensures SplitOn(a + [c] + rest, c) == [a] + SplitOn(rest, c)
  {
    if a == "" {
      assert a + [c] + rest == [c] + rest;
    } else {
      assert (a + [c] + rest)[1..] == a[1..] + [c] + rest;
      SplitOnPrefix(a[1..], rest, c);
      assert a == [a[0]] + a[1..];
    }
  }

  lemma {:induction false} SplitOnNone(a: string, c: char)
    requires c !in a
    ensures SplitOn(a, c) == [a]
  {
    if a == "" {
    } else {
      SplitOnNone(a[1..], c);
      assert a == [a[0]] + a[1..];
    }
  }

  /** Splitting undoes joining for parts without the separator: what makes comparing joined lists honest. */
  lemma {:induction false} SplitsJoined(parts: seq<string>, c: char)
    requires parts != [] && forall p <- parts :: c !in p
    ensures SplitOn(Join(parts, c), c) == parts
  {
    if |parts| == 1 {
      SplitOnNone(parts[0], c);
    } else {
      SplitsJoined(parts[1..], c);
      SplitOnPrefix(parts[0], Join(parts[1..], c), c);
    }
  }

  lemma JoinIsInjective(a: seq<string>, b: seq<string>, c: char)
    requires forall p <- a + b :: c !in p && p != ""
    requires Join(a, c) == Join(b, c)
    ensures a == b
  {
    assert forall p <- a :: p in a + b;
    assert forall p <- b :: p in a + b;
    if a != [] && b != [] {
      SplitsJoined(a, c);
      SplitsJoined(b, c);
    } else if a != [] {
      assert a[0] in a;
      SplitsJoined(a, c);
    } else if b != [] {
      assert b[0] in b;
      SplitsJoined(b, c);
    }
  }
}

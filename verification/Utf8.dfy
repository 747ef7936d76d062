/** UTF-8 as Node writes and reads it: `Buffer.from(s, 'utf8')` and `buffer.toString('utf8')`. */
module Utf8 {
  import opened Lists
  import opened Octets

  const REPLACEMENT := 0xFFFD as char

  function EncodeChar(c: char): (b: Bytes)
    ensures 1 <= |b| <= 4
  {
    var n := c as int;
    if n < 0x80 then [n]
    else if n < 0x800 then [0xC0 + n / 64, 0x80 + n % 64]
    else if n < 0x10000 then [0xE0 + n / 4096, 0x80 + n / 64 % 64, 0x80 + n % 64]
    else [0xF0 + n / 262144, 0x80 + n / 4096 % 64, 0x80 + n / 64 % 64, 0x80 + n % 64]
  }

  function Encode(s: string): Bytes {
    if s == "" then [] else EncodeChar(s[0]) + Encode(s[1..])
  }

  /** How many continuation bytes a lead byte asks for; none for ASCII and for a byte that leads nothing. */
  function Wanted(lead: byte): nat {
    if 0xC2 <= lead < 0xE0 then 1
    else if 0xE0 <= lead < 0xF0 then 2
    else if 0xF0 <= lead < 0xF5 then 3
    else 0
  }

  predicate Leads(lead: byte) {
    lead < 0x80 || 0xC2 <= lead < 0xF5
  }

  /** The first continuation byte excludes overlong forms, surrogates and what lies past U+10FFFF. */
  predicate Continues(lead: byte, k: nat, b: byte) {
    if k > 0 then 0x80 <= b < 0xC0
    else if lead == 0xE0 then 0xA0 <= b < 0xC0
    else if lead == 0xED then 0x80 <= b < 0xA0
    else if lead == 0xF0 then 0x90 <= b < 0xC0
    else if lead == 0xF4 then 0x80 <= b < 0x90
    else 0x80 <= b < 0xC0
  }

  /** How many of the wanted continuation bytes are there, counting on from the `k`-th. */
  function Found(b: Bytes, k: nat): (n: nat)
    requires b != []
    ensures n <= k + |b|
    ensures n <= Wanted(b[0]) || n == k
    ensures k < |b| ==> n < |b|
    decreases |b| - k
  {
    if k < Wanted(b[0]) && k + 1 < |b| && Continues(b[0], k, b[k + 1]) then Found(b, k + 1) else k
  }

  predicate Valid(n: int) {
    0 <= n < 0xD800 || 0xE000 <= n < 0x11_0000
  }

  /** The scalar value a complete sequence stands for. */
  function Value(b: Bytes): int
    requires b != [] && |b| == 1 + Wanted(b[0])
  {
    var b0: int := b[0];
    if |b| == 1 then b0 else
      var b1: int := b[1] as int - 0x80;
      if |b| == 2 then (b0 - 0xC0) * 64 + b1 else
        var b2: int := b[2] as int - 0x80;
        if |b| == 3 then (b0 - 0xE0) * 4096 + b1 * 64 + b2 else
          var b3: int := b[3] as int - 0x80;
          (b0 - 0xF0) * 262144 + b1 * 4096 + b2 * 64 + b3
  }

  /** One character and how many bytes it took: a truncated sequence is one replacement character. */
  function DecodeOne(b: Bytes): (r: (char, nat))
    requires b != []
    ensures 1 <= r.1 <= |b|
  {
    var n := Found(b, 0);
    if Leads(b[0]) && n == Wanted(b[0]) && Valid(Value(b[..1 + n]))
    then (Value(b[..1 + n]) as char, 1 + n)
    else (REPLACEMENT, 1 + n)
  }

  function Decode(b: Bytes): (s: string)
    ensures s == "" <==> b == []
  {
    if b == [] then "" else
      var (c, n) := DecodeOne(b);
      [c] + Decode(b[n..])
  }

  lemma DecodesChar(c: char, rest: Bytes)
    ensures DecodeOne(EncodeChar(c) + rest) == (c, |EncodeChar(c)|)
  {
    var e := EncodeChar(c);
    var b := e + rest;
    var n := c as int;
    assert b[0] == e[0] && b[..|e|] == e;
    assert Wanted(b[0]) == |e| - 1;
    if |e| == 2 {
      assert b[1] == e[1];
      assert Found(b, 1) == 1;
    } else if |e| == 3 {
      assert b[1] == e[1] && b[2] == e[2];
      assert n / 64 == n / 4096 * 64 + n / 64 % 64;
      assert Found(b, 2) == 2 && Found(b, 1) == 2;
    } else if |e| == 4 {
      DecodesWideChar(c, rest);
    }
  }

  /** A character beyond the first plane, which takes four bytes. */
  lemma DecodesWideChar(c: char, rest: Bytes)
    requires c as int >= 0x10000
    ensures DecodeOne(EncodeChar(c) + rest) == (c, 4)
  {
    var e := EncodeChar(c);
    var b := e + rest;
    var n := c as int;
    assert b[0] == e[0] && b[..4] == e;
    assert b[1] == e[1] && b[2] == e[2] && b[3] == e[3];
    assert n / 4096 == n / 262144 * 64 + n / 4096 % 64;
    assert n / 64 == n / 4096 * 64 + n / 64 % 64;
    assert Found(b, 3) == 3 && Found(b, 2) == 3 && Found(b, 1) == 3;
  }

  /** Two of the examples of section 7 of RFC 3629, and a sequence cut short. */
  lemma KnownBytes()
    ensures Encode("A\U{2262}\U{0391}.") == [0x41, 0xE2, 0x89, 0xA2, 0xCE, 0x91, 0x2E]
    ensures Encode("\U{233B4}") == [0xF0, 0xA3, 0x8E, 0xB4]
    ensures Decode([0xE2, 0x89]) == [REPLACEMENT]
  {
    var s := "A\U{2262}\U{0391}.";
    assert s[1..] == "\U{2262}\U{0391}." && s[1..][1..] == "\U{0391}." && s[1..][1..][1..] == ".";
    assert Encode(".") == [0x2E] + Encode("");
  }

  /** Every string is read back from its own bytes. */
  lemma {:induction false} DecodesEncoded(s: string)
    ensures Decode(Encode(s)) == s
  {
    if s == "" {
    } else {
      var b := EncodeChar(s[0]) + Encode(s[1..]);
      DecodesChar(s[0], Encode(s[1..]));
      assert b[|EncodeChar(s[0])|..] == Encode(s[1..]);
      DecodesEncoded(s[1..]);
    }
  }

  /** Only NUL is written with a zero byte. */
  lemma {:induction false} ZeroIsNul(s: string)
    ensures 0 in Encode(s) <==> '\0' in s
  {
    if s == "" {
    } else {
      ZeroIsNul(s[1..]);
      assert s == [s[0]] + s[1..];
      assert 0 in EncodeChar(s[0]) <==> s[0] == '\0';
    }
  }

  lemma NulNeedsZero(b: Bytes)
    requires b != [] && 0 !in b
    ensures DecodeOne(b).0 != '\0'
  {
    assert b[0] != 0;
  }

  /** Bytes without a zero never read as a NUL. */
  lemma {:induction false} NoZeroNoNul(b: Bytes)
    requires 0 !in b
    ensures '\0' !in Decode(b)
  {
    if b == [] {
    } else {
      var (c, n) := DecodeOne(b);
      NulNeedsZero(b);
      assert forall x <- b[n..] :: x in b;
      NoZeroNoNul(b[n..]);
    }
  }

  /** No string has a byte 0xff. */
  lemma {:induction false} NeverAllOnes(s: string)
    ensures 255 !in Encode(s)
  {
    if s == "" {
    } else {
      NeverAllOnes(s[1..]);
      assert 255 !in EncodeChar(s[0]);
    }
  }

  // ---- When decoding loses nothing

  lemma {:induction false} FoundContinue(b: Bytes, k: nat, j: nat)
    requires b != [] && k <= j < Found(b, k)
    ensures j + 1 < |b| && Continues(b[0], j, b[j + 1])
    decreases |b| - k
  {
    if j == k {
    } else {
      FoundContinue(b, k + 1, j);
    }
  }

  lemma TwoBytesBack(b: Bytes)
    requires |b| >= 2 && Wanted(b[0]) == 1 && Continues(b[0], 0, b[1])
    ensures EncodeChar(Value(b[..2]) as char) == b[..2]
  {
  }

  lemma ThreeBytesBack(b: Bytes)
    requires |b| >= 3 && Wanted(b[0]) == 2 && Continues(b[0], 0, b[1]) && Continues(b[0], 1, b[2])
    requires Valid(Value(b[..3]))
    ensures EncodeChar(Value(b[..3]) as char) == b[..3]
  {
  }

  lemma FourBytesBack(b: Bytes)
    requires |b| >= 4 && Wanted(b[0]) == 3
    requires Continues(b[0], 0, b[1]) && Continues(b[0], 1, b[2]) && Continues(b[0], 2, b[3])
    requires Valid(Value(b[..4]))
    ensures EncodeChar(Value(b[..4]) as char) == b[..4]
  {
    var n := Value(b[..4]);
    var b0, b1, b2 := b[0] as int - 0xF0, b[1] as int - 0x80, b[2] as int - 0x80;
    assert n / 64 == b0 * 4096 + b1 * 64 + b2;
    assert n / 4096 == b0 * 64 + b1;
  }

  /** A character that is no replacement was read from its own bytes. */
  lemma DecodedOneIsEncoded(b: Bytes)
    requires b != [] && DecodeOne(b).0 != REPLACEMENT
    ensures EncodeChar(DecodeOne(b).0) == b[..DecodeOne(b).1]
  {
    var n := Found(b, 0);
    if n >= 1 {
      FoundContinue(b, 0, 0);
    }
    if n >= 2 {
      FoundContinue(b, 0, 1);
    }
    if n >= 3 {
      FoundContinue(b, 0, 2);
    }
    if n == 1 {
      TwoBytesBack(b);
    } else if n == 2 {
      ThreeBytesBack(b);
    } else if n == 3 {
      FourBytesBack(b);
    }
  }

  lemma {:induction false} EncodedAgain(b: Bytes)
    requires REPLACEMENT !in Decode(b)
    ensures Encode(Decode(b)) == b
  {
    if b == [] {
    } else {
      var (c, n) := DecodeOne(b);
      DecodeCons(b, c, b[n..]);
      EncodedAgain(b[n..]);
      OneEncodedAgain(b, c, n, b[n..]);
    }
  }

  lemma OneEncodedAgain(b: Bytes, c: char, n: nat, rest: Bytes)
    requires b != [] && DecodeOne(b) == (c, n) && c != REPLACEMENT && rest == b[n..] && Encode(Decode(rest)) == rest
    ensures Encode(Decode(b)) == b
  {
    DecodeCons(b, c, rest);
    DecodedOneIsEncoded(b);
    EncodeCons(c, Decode(rest));
    assert b == b[..n] + rest;
  }

  lemma EncodeCons(c: char, s: string)
    ensures Encode([c] + s) == EncodeChar(c) + Encode(s)
  {
    assert ([c] + s)[1..] == s;
  }

  lemma DecodeCons(b: Bytes, c: char, rest: Bytes)
    requires b != [] && DecodeOne(b).0 == c && b[DecodeOne(b).1..] == rest
    ensures Decode(b) == [c] + Decode(rest)
  {
  }

  lemma DecodesCharBehind(c: char, middle: Bytes, rest: Bytes)
    ensures Decode((EncodeChar(c) + middle) + rest) == [c] + Decode(middle + rest)
  {
    var first, more := EncodeChar(c), middle + rest;
    assert (first + middle) + rest == first + more;
    DecodesChar(c, more);
    assert (first + more)[|first|..] == more;
    DecodeCons(first + more, c, more);
  }

  lemma {:induction false} DecodesBehind(s: string, rest: Bytes)
    ensures Decode(Encode(s) + rest) == s + Decode(rest)
  {
    if s == "" {
      assert Encode(s) + rest == rest;
      assert s + Decode(rest) == Decode(rest);
    } else {
      DecodesBehind(s[1..], rest);
      OneDecodesBehind(s, s[0], s[1..], rest, Decode(rest));
    }
  }

  lemma OneDecodesBehind(s: string, c: char, tail: string, rest: Bytes, behind: string)
    requires s == [c] + tail && Decode(Encode(tail) + rest) == tail + behind
    ensures Decode(Encode(s) + rest) == s + behind
  {
    EncodeCons(c, tail);
    DecodesCharBehind(c, Encode(tail), rest);
    Regroup([c], tail, behind);
  }

  /** A byte that leads nothing reads as a replacement character. */
  lemma LeadsNothing(lead: byte, rest: Bytes)
    requires !Leads(lead)
    ensures Decode([lead] + rest) == [REPLACEMENT] + Decode(rest)
  {
    assert ([lead] + rest)[1..] == rest;
    DecodeCons([lead] + rest, REPLACEMENT, rest);
  }

  /** Every replacement character can be read from other bytes as well. */
  lemma ReadFromOthers(s: string, i: nat) returns (b: Bytes)
    requires i < |s| && s[i] == REPLACEMENT
    ensures Decode(b) == s && b != Encode(s)
  {
    b := Encode(s[..i]) + ([255] + Encode(s[i + 1..]));
    OtherBytesRead(s[..i], s[i + 1..], [255] + Encode(s[i + 1..]));
    assert s == s[..i] + ([s[i]] + s[i + 1..]);
    NeverAllOnes(s);
    assert b[|Encode(s[..i])|] == 255;
  }

  lemma OtherBytesRead(front: string, back: string, bytes: Bytes)
    requires bytes == [255] + Encode(back)
    ensures Decode(Encode(front) + bytes) == front + ([REPLACEMENT] + back)
  {
    DecodesBehind(front, bytes);
    LeadsNothing(255, Encode(back));
    DecodesEncoded(back);
  }

  /** A text determines its bytes exactly when it has no replacement character. */
  lemma NothingLostIff(b: Bytes)
    ensures REPLACEMENT !in Decode(b) <==> forall d :: Decode(d) == Decode(b) ==> d == b
  {
    if REPLACEMENT !in Decode(b) {
      forall d | Decode(d) == Decode(b) ensures d == b {
        EncodedAgain(b);
        EncodedAgain(d);
      }
    } else {
      var i :| 0 <= i < |Decode(b)| && Decode(b)[i] == REPLACEMENT;
      var d := ReadFromOthers(Decode(b), i);
      DecodesEncoded(Decode(b));
      assert Decode(Encode(Decode(b))) == Decode(b);
    }
  }
}

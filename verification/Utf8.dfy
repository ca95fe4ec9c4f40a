/** UTF-8 as section 3 of RFC 3629 defines it, the decoder that drops what it cannot read, and the
    byte-level cut `text.encode()[:cap].decode(errors="ignore")`
    (src/app/infra/candidate_extraction.py). */
module Utf8 {
  import opened Wrappers

  type Byte = b: int | 0 <= b < 0x100

  function EncodeChar(c: char): (bytes: seq<Byte>)
    ensures 1 <= |bytes| <= 4
  {
    var u := c as int;
    var u1 := u / 0x40;
    var u2 := u1 / 0x40;
    if u < 0x80 then [u]
    else if u < 0x800 then [0xC0 + u1, 0x80 + u % 0x40]
    else if u < 0x1_0000 then [0xE0 + u2, 0x80 + u1 % 0x40, 0x80 + u % 0x40]
    else [0xF0 + u2 / 0x40, 0x80 + u2 % 0x40, 0x80 + u1 % 0x40, 0x80 + u % 0x40]
  }

  /** The examples of section 7 of RFC 3629. */
  lemma KnownEncodings()
    ensures EncodeChar('A') == [0x41] && EncodeChar('.') == [0x2E]
    ensures EncodeChar('\U{0391}') == [0xCE, 0x91] && EncodeChar('\U{2262}') == [0xE2, 0x89, 0xA2]
    ensures EncodeChar('\U{65E5}') == [0xE6, 0x97, 0xA5] && EncodeChar('\U{D55C}') == [0xED, 0x95, 0x9C]
    ensures EncodeChar('\U{233B4}') == [0xF0, 0xA3, 0x8E, 0xB4]
  {
  }

  function Encode(s: string): seq<Byte> {
    if s == "" then [] else EncodeChar(s[0]) + Encode(s[1..])
  }

  /** How many bytes the character led by `b` takes; 0 when `b` leads no character. */
  function Width(b: Byte): (n: nat)
    ensures n <= 4
  {
    if b < 0x80 then 1
    else if b < 0xC2 then 0
    else if b < 0xE0 then 2
    else if b < 0xF0 then 3
    else if b < 0xF5 then 4
    else 0
  }

  predicate Continuation(b: Byte) {
    0x80 <= b < 0xC0
  }

  /** The number spelled by one lead byte and its continuations. */
  function Bits(bytes: seq<Byte>): int
    requires 1 <= |bytes| <= 4
  {
    var b: seq<int> := bytes;
    if |b| == 1 then b[0]
    else if |b| == 2 then (b[0] - 0xC0) * 0x40 + b[1] - 0x80
    else if |b| == 3 then ((b[0] - 0xE0) * 0x40 + b[1] - 0x80) * 0x40 + b[2] - 0x80
    else (((b[0] - 0xF0) * 0x40 + b[1] - 0x80) * 0x40 + b[2] - 0x80) * 0x40 + b[3] - 0x80
  }

  /** The character at the front of `bytes`, if a well-formed one is there: the shortest form, no
      surrogate, nothing above U+10FFFF. */
  function FirstChar(bytes: seq<Byte>): (first: Option<char>)
    ensures first.Some? ==> bytes != [] && 1 <= Width(bytes[0]) <= |bytes|
  {
    if bytes == [] then None
    else
      var n := Width(bytes[0]);
      if n == 0 || n > |bytes| then None
      else if exists i :: 1 <= i < n && !Continuation(bytes[i]) then None
      else
        var u := Bits(bytes[..n]);
        var shortest := if n == 1 then 0 else if n == 2 then 0x80 else if n == 3 then 0x800 else 0x1_0000;
        if u < shortest || 0xD800 <= u < 0xE000 || u > 0x10_FFFF then None
        else Some(u as char)
  }

  /** Decoding that silently drops every byte that belongs to no well-formed character. */
  function DecodeIgnoring(bytes: seq<Byte>): string {
    if bytes == [] then ""
    else
      match FirstChar(bytes)
      case Some(c) => [c] + DecodeIgnoring(bytes[Width(bytes[0])..])
      case None => DecodeIgnoring(bytes[1..])
  }

  lemma WidthOfEncoding(c: char)
    ensures Width(EncodeChar(c)[0]) == |EncodeChar(c)|
    ensures forall i :: 1 <= i < |EncodeChar(c)| ==> Continuation(EncodeChar(c)[i])
  {
  }

  lemma BitsOfEncoding(c: char)
    ensures Bits(EncodeChar(c)) == c as int
  {
  }

  lemma FirstCharOfEncoding(c: char, rest: seq<Byte>)
    ensures FirstChar(EncodeChar(c) + rest) == Some(c)
  {
    var own := EncodeChar(c);
    var bytes := own + rest;
    WidthOfEncoding(c);
    BitsOfEncoding(c);
    assert bytes[0] == own[0] && bytes[..|own|] == own;
    assert forall i :: 1 <= i < |own| ==> Continuation(bytes[i]);
  }

  lemma {:induction false} ContinuationsVanish(bytes: seq<Byte>)
    requires forall i :: 0 <= i < |bytes| ==> Continuation(bytes[i])
    ensures DecodeIgnoring(bytes) == ""
  {
    if bytes != [] {
      ContinuationsVanish(bytes[1..]);
    }
  }

  /** A character cut short leaves nothing behind. */
  lemma TornCharVanishes(c: char, k: nat)
    requires k < |EncodeChar(c)|
    ensures DecodeIgnoring(EncodeChar(c)[..k]) == ""
  {
    WidthOfEncoding(c);
    if k > 0 {
      ContinuationsVanish(EncodeChar(c)[..k][1..]);
    }
  }

  /** The decoder takes exactly the encodings for characters. */
  lemma FirstCharIff(bytes: seq<Byte>, c: char)
    ensures FirstChar(bytes) == Some(c) <==> EncodeChar(c) <= bytes
  {
    if FirstChar(bytes) == Some(c) {
      OnlyEncodingsDecode(bytes);
    }
    if EncodeChar(c) <= bytes {
      FirstCharOfEncoding(c, bytes[|EncodeChar(c)|..]);
      assert bytes == EncodeChar(c) + bytes[|EncodeChar(c)|..];
    }
  }

  lemma OnlyEncodingsDecode(bytes: seq<Byte>)
    requires FirstChar(bytes).Some?
    ensures EncodeChar(FirstChar(bytes).value) <= bytes
  {
    var n := Width(bytes[0]);
    var b := bytes[..n];
    assert forall i :: 1 <= i < n ==> b[i] == bytes[i] && Continuation(bytes[i]);
    if n == 3 {
      ThreeByteEncoding(b);
    } else if n == 4 {
      FourByteEncoding(b);
    } else {
      assert EncodeChar(Bits(b) as char) == b;
    }
  }

  lemma ThreeByteEncoding(b: seq<Byte>)
    requires |b| == 3 && 0xE0 <= b[0] < 0xF0 && Continuation(b[1]) && Continuation(b[2])
    requires 0x800 <= Bits(b) && !(0xD800 <= Bits(b) < 0xE000)
    ensures EncodeChar(Bits(b) as char) == b
  {
    var x: int, y: int, z: int := b[0] - 0xE0, b[1] - 0x80, b[2] - 0x80;
    assert ((x * 0x40 + y) * 0x40 + z) / 0x40 == x * 0x40 + y && (x * 0x40 + y) / 0x40 == x;
  }

  lemma FourByteEncoding(b: seq<Byte>)
    requires |b| == 4 && 0xF0 <= b[0] < 0xF5 && Continuation(b[1]) && Continuation(b[2]) && Continuation(b[3])
    requires 0x1_0000 <= Bits(b) <= 0x10_FFFF
    ensures EncodeChar(Bits(b) as char) == b
  {
    var w: int, x: int, y: int, z: int := b[0] - 0xF0, b[1] - 0x80, b[2] - 0x80, b[3] - 0x80;
    assert (((w * 0x40 + x) * 0x40 + y) * 0x40 + z) / 0x40 == (w * 0x40 + x) * 0x40 + y;
    assert ((w * 0x40 + x) * 0x40 + y) / 0x40 == w * 0x40 + x && (w * 0x40 + x) / 0x40 == w;
  }

  /** The round trip, for every text. */
  lemma {:induction false} DecodeOfEncode(s: string)
    ensures DecodeIgnoring(Encode(s)) == s
  {
    if s != "" {
      FirstCharOfEncoding(s[0], Encode(s[1..]));
      WidthOfEncoding(s[0]);
      assert Encode(s)[|EncodeChar(s[0])|..] == Encode(s[1..]);
      DecodeOfEncode(s[1..]);
    }
  }

  /** `s.encode()[:cap].decode(errors="ignore")`. */
  function Truncate(s: string, cap: nat): string {
    var bytes := Encode(s);
    DecodeIgnoring(if |bytes| <= cap then bytes else bytes[..cap])
  }

  /** `t` is the longest prefix of `s` whose encoding fits in `cap` bytes. */
  ghost predicate LongestFit(t: string, s: string, cap: nat) {
    && t <= s
    && |Encode(t)| <= cap
    && forall u: string :: u <= s && |Encode(u)| <= cap ==> |u| <= |t|
  }

  lemma {:induction false} TruncateFits(s: string, cap: nat)
    ensures LongestFit(Truncate(s, cap), s, cap)
  {
    if s == "" {
      assert Truncate(s, cap) == "";
    } else {
      var own, rest := EncodeChar(s[0]), s[1..];
      var t := Truncate(s, cap);
      if cap < |own| {
        assert |Encode(s)| > cap ==> Encode(s)[..cap] == own[..cap];
        TornCharVanishes(s[0], cap);
        assert t == "";
        forall u: string | u <= s && |Encode(u)| <= cap ensures u == "" {
        }
      } else {
        var cap' := cap - |own|;
        var t' := Truncate(rest, cap');
        TruncateFits(rest, cap');
        var cut := if |Encode(s)| <= cap then Encode(s) else Encode(s)[..cap];
        var cut' := if |Encode(rest)| <= cap' then Encode(rest) else Encode(rest)[..cap'];
        assert cut == own + cut';
        FirstCharOfEncoding(s[0], cut');
        WidthOfEncoding(s[0]);
        assert cut[|own|..] == cut';
        assert t == [s[0]] + t';
        assert t[1..] == t';
        assert [s[0]] + rest == s;
        forall u: string | u <= s && |Encode(u)| <= cap ensures |u| <= |t| {
          if u != "" {
            assert u[0] == s[0] && u[1..] <= rest;
            assert |Encode(u[1..])| <= cap';
          }
        }
      }
    }
  }
}

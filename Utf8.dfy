/** `new TextEncoder().encode(s)` on a string of Unicode scalar values: the UTF-8
    encoding of RFC 3629, section 3, with a decoder that inverts it. A JavaScript
    string may also hold lone surrogates, which `TextEncoder` replaces by U+FFFD;
    Dafny's `char` holds scalar values only, so those strings are outside this model. */
module Utf8 {

  newtype byte = x: int | 0 <= x < 256

  /** The scalar value of a character. */
  function CodePoint(c: char): (cp: int)
    ensures 0 <= cp < 0xD800 || 0xE000 <= cp < 0x11_0000
  {
    c as int
  }

  /** A continuation byte `10xxxxxx` holding the low six bits of `v`. */
  function Cont(v: int): (b: byte)
    requires v >= 0
    ensures 0x80 <= b as int < 0xC0
  {
    (0x80 + v % 64) as byte
  }

  /** The one to four bytes of one scalar value. */
  function EncodePoint(cp: int): (bs: seq<byte>)
    requires 0 <= cp < 0x11_0000
    ensures 1 <= |bs| <= 4
    ensures (|bs| == 1) <==> cp < 0x80
  {
    if cp < 0x80 then [cp as byte]
    else if cp < 0x800 then [(0xC0 + cp / 64) as byte, Cont(cp)]
    else if cp < 0x1_0000 then [(0xE0 + cp / 4096) as byte, Cont(cp / 64), Cont(cp)]
    else [(0xF0 + cp / 262144) as byte, Cont(cp / 4096), Cont(cp / 64), Cont(cp)]
  }

  /** `TextEncoder.encode`. */
  function Encode(s: string): (bs: seq<byte>)
    ensures |s| <= |bs| <= 4 * |s|
  {
    if s == [] then [] else EncodePoint(CodePoint(s[0])) + Encode(s[1..])
  }

  /** Number of bytes of the sequence that starts with lead byte `b`. */
  function SequenceLength(b: byte): (n: nat)
    ensures 1 <= n <= 4
  {
    if b < 0xC0 then 1 else if b < 0xE0 then 2 else if b < 0xF0 then 3 else 4
  }

  /** Low bits of a continuation byte. */
  function Payload(b: byte): int {
    b as int % 64
  }

  /** Decodes the scalar value at the head of `bs` (malformed input yields U+FFFD). */
  function DecodeHead(bs: seq<byte>): int
    requires |bs| > 0 && |bs| >= SequenceLength(bs[0])
  {
    var b0 := bs[0] as int;
    if b0 < 0x80 then b0
    else if b0 < 0xC0 then 0xFFFD
    else if b0 < 0xE0 then (b0 - 0xC0) * 64 + Payload(bs[1])
    else if b0 < 0xF0 then (b0 - 0xE0) * 4096 + Payload(bs[1]) * 64 + Payload(bs[2])
    else (b0 - 0xF0) * 262144 + Payload(bs[1]) * 4096 + Payload(bs[2]) * 64 + Payload(bs[3])
  }

  /** The scalar values of a byte sequence. */
  function Decode(bs: seq<byte>): seq<int>
    decreases |bs|
  {
    if bs == [] then []
    else if |bs| < SequenceLength(bs[0]) then [0xFFFD]
    else [DecodeHead(bs)] + Decode(bs[SequenceLength(bs[0])..])
  }

  /** The scalar values of a string. */
  function CodePoints(s: string): (cps: seq<int>)
    ensures |cps| == |s|
  {
    if s == [] then [] else [CodePoint(s[0])] + CodePoints(s[1..])
  }

  lemma EncodePointLead(cp: int)
    requires 0 <= cp < 0x11_0000
    ensures SequenceLength(EncodePoint(cp)[0]) == |EncodePoint(cp)|
  {
  }

  /** A value split into its low six bits and the rest. */
  lemma SixBits(v: int)
    requires v >= 0
    ensures v == (v / 64) * 64 + v % 64 && Payload(Cont(v)) == v % 64
  {
  }

  lemma DecodeTwoBytes(cp: int)
    requires 0x80 <= cp < 0x800
    ensures DecodeHead(EncodePoint(cp)) == cp
  {
    SixBits(cp);
  }

  lemma DecodeThreeBytes(cp: int)
    requires 0x800 <= cp < 0x1_0000
    ensures DecodeHead(EncodePoint(cp)) == cp
  {
    var q := cp / 64;
    SixBits(cp);
    SixBits(q);
    assert q / 64 == cp / 4096;
  }

  lemma DecodeFourBytes(cp: int)
    requires 0x1_0000 <= cp < 0x11_0000
    ensures DecodeHead(EncodePoint(cp)) == cp
  {
    var q := cp / 64;
    var r := q / 64;
    SixBits(cp);
    SixBits(q);
    SixBits(r);
    assert r == cp / 4096;
    assert r / 64 == cp / 262144;
  }

  lemma DecodeEncodePoint(cp: int)
    requires 0 <= cp < 0x11_0000
    ensures DecodeHead(EncodePoint(cp)) == cp
  {
    if cp < 0x80 {
    } else if cp < 0x800 {
      DecodeTwoBytes(cp);
    } else if cp < 0x1_0000 {
      DecodeThreeBytes(cp);
    } else {
      DecodeFourBytes(cp);
    }
  }

  /** Decoding the encoding of a string gives back its scalar values. */
  lemma {:induction false} DecodeEncode(s: string)
    ensures Decode(Encode(s)) == CodePoints(s)
  {
    if s != [] {
      var head := EncodePoint(CodePoint(s[0]));
      var bs := Encode(s);
      assert bs == head + Encode(s[1..]);
      EncodePointLead(CodePoint(s[0]));
      DecodeEncodePoint(CodePoint(s[0]));
      assert bs[0] == head[0];
      assert bs[..|head|] == head;
      assert bs[|head|..] == Encode(s[1..]);
      DecodeEncode(s[1..]);
    }
  }

  lemma {:induction false} CodePointsInjective(a: string, b: string)
    requires CodePoints(a) == CodePoints(b)
    ensures a == b
  {
    if a != [] {
      assert CodePoint(a[0]) == CodePoints(a)[0] == CodePoints(b)[0] == CodePoint(b[0]);
      assert CodePoints(a[1..]) == CodePoints(a)[1..] == CodePoints(b)[1..] == CodePoints(b[1..]);
      CodePointsInjective(a[1..], b[1..]);
    }
  }

  /** Different strings never share an encoding. */
  lemma EncodeInjective(a: string, b: string)
    requires Encode(a) == Encode(b)
    ensures a == b
  {
    DecodeEncode(a);
    DecodeEncode(b);
    CodePointsInjective(a, b);
  }

  /** An ASCII string encodes to one byte per character, of the same value. */
  lemma {:induction false} EncodeAscii(s: string)
    requires forall i :: 0 <= i < |s| ==> s[i] as int < 0x80
    ensures |Encode(s)| == |s|
    ensures forall i :: 0 <= i < |s| ==> Encode(s)[i] as int == s[i] as int
  {
    if s != [] {
      EncodeAscii(s[1..]);
      assert Encode(s) == [s[0] as int as byte] + Encode(s[1..]);
    }
  }
}

/**
 UTF-8 as section 4 of RFC 3629 defines it, decoded the way Go's unicode/utf8 package does: a
 byte that starts no well-formed encoding is an error rune of width one.
 */
module Utf8 {
  import opened Basics

  const RUNE_ERROR: int := 0xFFFD

  /** The length of an encoding that starts with this byte; 0 if none does. */
  function Length(b: byte): nat {
    if b < 0x80 then 1
    else if 0xC2 <= b <= 0xDF then 2
    else if 0xE0 <= b <= 0xEF then 3
    else if 0xF0 <= b <= 0xF4 then 4
    else 0
  }

  predicate Tail(b: byte) {
    0x80 <= b <= 0xBF
  }

  /** Whether `b` may follow the first byte `first` of an encoding. */
  predicate Second(first: byte, b: byte) {
    (if first == 0xE0 then 0xA0 else if first == 0xF0 then 0x90 else 0x80)
    <= b <=
    (if first == 0xED then 0x9F else if first == 0xF4 then 0x8F else 0xBF)
  }

  function Bits(b: byte, mark: int): int {
    b - mark
  }

  datatype Decoded = Decoded(rune: int, size: nat)

  function DecodeRune(p: seq<byte>): (d: Decoded)
    ensures p != [] ==> 1 <= d.size <= |p| && d.size <= 4
  {
    if p == [] then Decoded(RUNE_ERROR, 0)
    else
      var n := Length(p[0]);
      if n == 1 then Decoded(p[0], 1)
      else if n == 0 || |p| < n || !Second(p[0], p[1]) then Decoded(RUNE_ERROR, 1)
      else if n == 2 then Decoded(Bits(p[0], 0xC0) * 0x40 + Bits(p[1], 0x80), 2)
      else if !Tail(p[2]) then Decoded(RUNE_ERROR, 1)
      else if n == 3 then Decoded(Bits(p[0], 0xE0) * 0x1000 + Bits(p[1], 0x80) * 0x40 + Bits(p[2], 0x80), 3)
      else if !Tail(p[3]) then Decoded(RUNE_ERROR, 1)
      else Decoded(Bits(p[0], 0xF0) * 0x40000 + Bits(p[1], 0x80) * 0x1000 + Bits(p[2], 0x80) * 0x40 + Bits(p[3], 0x80), 4)
  }

  /** Whether more bytes cannot change what `p` decodes to. */
  predicate FullRune(p: seq<byte>) {
    && p != []
    && var n := Length(p[0]);
      || |p| >= n
      || (|p| > 1 && !Second(p[0], p[1]))
      || (|p| > 2 && !Tail(p[2]))
  }

  /** A full rune decodes the same whatever follows it. */
  lemma FullRuneIsStable(p: seq<byte>, more: seq<byte>)
    requires FullRune(p)
    ensures DecodeRune(p + more) == DecodeRune(p)
  {
    assert (p + more)[0] == p[0];
  }

  // ---------- the encoding of scalar values ----------

  predicate Scalar(r: int) {
    0 <= r < 0xD800 || 0xE000 <= r <= 0x10FFFF
  }

  function EncodeRune(r: int): seq<byte>
    requires Scalar(r)
  {
    if r < 0x80 then [r]
    else if r < 0x800 then [0xC0 + r / 0x40, 0x80 + r % 0x40]
    else if r < 0x10000 then [0xE0 + r / 0x1000, 0x80 + r / 0x40 % 0x40, 0x80 + r % 0x40]
    else [0xF0 + r / 0x40000, 0x80 + r / 0x1000 % 0x40, 0x80 + r / 0x40 % 0x40, 0x80 + r % 0x40]
  }

  /** Encodings that section 7 of RFC 3629 and the Unicode charts list. */
  lemma KnownEncodings()
    ensures EncodeRune(0x41) == [0x41] && EncodeRune(0x391) == [0xCE, 0x91] && EncodeRune(0x2262) == [0xE2, 0x89, 0xA2]
    ensures EncodeRune(0x2019) == [0xE2, 0x80, 0x99] && EncodeRune(0x233B4) == [0xF0, 0xA3, 0x8E, 0xB4]
  {
  }

  lemma DecodeEncode(r: int, rest: seq<byte>)
    requires Scalar(r)
    ensures DecodeRune(EncodeRune(r) + rest) == Decoded(r, |EncodeRune(r)|)
    ensures FullRune(EncodeRune(r))
  {
    var e := EncodeRune(r);
    var p := e + rest;
    assert forall i :: 0 <= i < |e| ==> p[i] == e[i];
    assert r / 0x40 / 0x40 == r / 0x1000 && r / 0x1000 / 0x40 == r / 0x40000;
  }

  lemma Digits(a: int, b: int, c: int, d: int)
    requires 0 <= b < 0x40 && 0 <= c < 0x40 && 0 <= d < 0x40
    ensures
      var r := a * 0x40000 + b * 0x1000 + c * 0x40 + d;
      r / 0x40000 == a && r / 0x1000 % 0x40 == b && r / 0x40 % 0x40 == c && r % 0x40 == d
  {
    var r := a * 0x40000 + b * 0x1000 + c * 0x40 + d;
    assert r / 0x40 == a * 0x1000 + b * 0x40 + c;
    assert r / 0x1000 == a * 0x40 + b;
  }

  /** What decodes is either the one encoding of a scalar value or one malformed byte. */
  lemma DecodedIsEncoded(p: seq<byte>)
    requires p != []
    ensures
      var d := DecodeRune(p);
      (Scalar(d.rune) && p[..d.size] == EncodeRune(d.rune)) || d == Decoded(RUNE_ERROR, 1)
  {
    match DecodeRune(p).size
    case 2 => TwoBytes(p);
    case 3 => ThreeBytes(p);
    case 4 => FourBytes(p);
    case _ =>
  }

  lemma TwoBytes(p: seq<byte>)
    requires p != [] && DecodeRune(p).size == 2
    ensures Scalar(DecodeRune(p).rune) && p[..2] == EncodeRune(DecodeRune(p).rune)
  {
    Digits(0, 0, Bits(p[0], 0xC0), Bits(p[1], 0x80));
  }

  lemma ThreeBytes(p: seq<byte>)
    requires p != [] && DecodeRune(p).size == 3
    ensures Scalar(DecodeRune(p).rune) && p[..3] == EncodeRune(DecodeRune(p).rune)
  {
    Digits(0, Bits(p[0], 0xE0), Bits(p[1], 0x80), Bits(p[2], 0x80));
  }

  lemma FourBytes(p: seq<byte>)
    requires p != [] && DecodeRune(p).size == 4
    ensures Scalar(DecodeRune(p).rune) && p[..4] == EncodeRune(DecodeRune(p).rune)
  {
    Digits(Bits(p[0], 0xF0), Bits(p[1], 0x80), Bits(p[2], 0x80), Bits(p[3], 0x80));
  }

  /** The scanner waits only for bytes that can still matter: what is not full starts an encoding. */
  lemma WaitingIsNeeded(p: seq<byte>) returns (more: seq<byte>)
    requires p != [] && !FullRune(p)
    ensures DecodeRune(p + more).size > |p| && DecodeRune(p) == Decoded(RUNE_ERROR, 1)
  {
    var n := Length(p[0]);
    var second: byte := if p[0] == 0xE0 then 0xA0 else if p[0] == 0xF0 then 0x90 else 0x80;
    if |p| == 1 {
      more := [second] + seq(n - 2, _ => 0x80);
      assert p + more == [p[0], second] + seq(n - 2, _ => 0x80);
    } else if |p| == 2 {
      more := seq(n - 2, _ => 0x80);
      assert p + more == [p[0], p[1]] + more;
    } else {
      more := [0x80];
      assert p + more == [p[0], p[1], p[2], 0x80];
    }
  }
}

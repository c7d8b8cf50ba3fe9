/**
 What UTF-8 text is, two ways: as a reader recognises it byte by byte (section 4 of
 RFC 3629), and as what comes out of writing Unicode scalar values (section 3).
 */
module Utf8 {
  import opened Basics
  import opened Cbor

  /** A code point that is no surrogate. */
  type scalar = c: int | 0 <= c <= 0x10FFFF && !(0xD800 <= c <= 0xDFFF)

  function EncodeScalar(c: scalar): seq<byte> {
    if c < 0x80 then [c]
    else if c < 0x800 then [0xC0 + c / 64, 0x80 + c % 64]
    else if c < 0x1_0000 then [0xE0 + c / 4096, 0x80 + c / 64 % 64, 0x80 + c % 64]
    else [0xF0 + c / 262144, 0x80 + c / 4096 % 64, 0x80 + c / 64 % 64, 0x80 + c % 64]
  }

  function EncodeScalars(cs: seq<scalar>): seq<byte> {
    if cs == [] then [] else EncodeScalar(cs[0]) + EncodeScalars(cs[1..])
  }

  /** The bytes of a scalar are in the ranges a reader asks for. */
  lemma ThreeByteRanges(c: scalar)
    requires 0x800 <= c < 0x1_0000
    ensures var (a, b) := (0xE0 + c / 4096, 0x80 + c / 64 % 64);
            (a == 0xE0 && b >= 0xA0) || 0xE1 <= a <= 0xEC || (a == 0xED && b <= 0x9F) || 0xEE <= a <= 0xEF
  {
    var x, y := c / 4096, c / 64 % 64;
    Quotient(c / 64, 64, x, y);
  }

  lemma FourByteRanges(c: scalar)
    requires 0x1_0000 <= c
    ensures var (a, b) := (0xF0 + c / 262144, 0x80 + c / 4096 % 64);
            (a == 0xF0 && b >= 0x90) || 0xF1 <= a <= 0xF3 || (a == 0xF4 && b <= 0x8F)
  {
    var w, x := c / 262144, c / 4096 % 64;
    Quotient(c / 4096, 64, w, x);
  }

  /** A written scalar is taken, and the reader goes on behind it. */
  lemma ScalarTaken(c: scalar, rest: seq<byte>)
    ensures ValidUtf8(EncodeScalar(c) + rest) <==> ValidUtf8(rest)
  {
    hide EncodeScalar;
    if c < 0x80 {
      OneTaken(c, rest);
    } else if c < 0x800 {
      TwoTaken(c, rest);
    } else if c < 0x1_0000 {
      ThreeTaken(c, rest);
    } else {
      FourTaken(c, rest);
    }
  }

  lemma OneTaken(c: scalar, rest: seq<byte>)
    requires c < 0x80
    ensures ValidUtf8(EncodeScalar(c) + rest) <==> ValidUtf8(rest)
  {
    assert (EncodeScalar(c) + rest)[1..] == rest;
  }

  lemma TwoTaken(c: scalar, rest: seq<byte>)
    requires 0x80 <= c < 0x800
    ensures ValidUtf8(EncodeScalar(c) + rest) <==> ValidUtf8(rest)
  {
    var a, b := 0xC0 + c / 64, 0x80 + c % 64;
    assert (EncodeScalar(c) + rest)[2..] == rest;
    assert (EncodeScalar(c) + rest)[0] == a && (EncodeScalar(c) + rest)[1] == b;
  }

  lemma ThreeTaken(c: scalar, rest: seq<byte>)
    requires 0x800 <= c < 0x1_0000
    ensures ValidUtf8(EncodeScalar(c) + rest) <==> ValidUtf8(rest)
  {
    ThreeByteRanges(c);
    var t := EncodeScalar(c) + rest;
    assert t[3..] == rest;
    assert t[0] == 0xE0 + c / 4096 && t[1] == 0x80 + c / 64 % 64 && t[2] == 0x80 + c % 64;
  }

  lemma FourTaken(c: scalar, rest: seq<byte>)
    requires 0x1_0000 <= c
    ensures ValidUtf8(EncodeScalar(c) + rest) <==> ValidUtf8(rest)
  {
    FourByteRanges(c);
    var t := EncodeScalar(c) + rest;
    assert t[4..] == rest;
    assert t[0] == 0xF0 + c / 262144 && t[1] == 0x80 + c / 4096 % 64;
    assert t[2] == 0x80 + c / 64 % 64 && t[3] == 0x80 + c % 64;
  }

  lemma {:induction false} WrittenIsValid(cs: seq<scalar>)
    ensures ValidUtf8(EncodeScalars(cs))
  {
    if cs != [] {
      WrittenIsValid(cs[1..]);
      ScalarTaken(cs[0], EncodeScalars(cs[1..]));
    }
  }

  /** The scalar valid text begins with. */
  lemma FirstScalar(t: seq<byte>) returns (c: scalar)
    requires t != [] && ValidUtf8(t)
    ensures 1 <= |EncodeScalar(c)| <= |t| && EncodeScalar(c) == t[..|EncodeScalar(c)|]
    ensures ValidUtf8(t[|EncodeScalar(c)|..])
  {
    if t[0] < 0x80 {
      c := t[0];
    } else if t[0] < 0xE0 {
      c := (t[0] as int - 0xC0) * 64 + (t[1] as int - 0x80);
      assert t[..2] == [t[0], t[1]];
    } else if t[0] < 0xF0 {
      c := ThreeBytes(t[0], t[1], t[2]);
      assert t[..3] == [t[0], t[1], t[2]];
    } else {
      c := FourBytesOf(t[0], t[1], t[2], t[3]);
      assert t[..4] == [t[0], t[1], t[2], t[3]];
    }
  }

  lemma ThreeBytes(a: byte, b: byte, d: byte) returns (c: scalar)
    requires In(b, 0x80, 0xBF) && In(d, 0x80, 0xBF)
    requires (a == 0xE0 && b >= 0xA0) || In(a, 0xE1, 0xEC) || (a == 0xED && b <= 0x9F) || In(a, 0xEE, 0xEF)
    ensures EncodeScalar(c) == [a, b, d]
  {
    var x, y, z := a as int - 0xE0, b as int - 0x80, d as int - 0x80;
    c := x * 4096 + y * 64 + z;
    Quotient(c, 4096, x, y * 64 + z);
    Quotient(c, 64, x * 64 + y, z);
    Quotient(x * 64 + y, 64, x, y);
  }

  lemma FourBytesOf(a: byte, b: byte, d: byte, e: byte) returns (c: scalar)
    requires In(b, 0x80, 0xBF) && In(d, 0x80, 0xBF) && In(e, 0x80, 0xBF)
    requires (a == 0xF0 && b >= 0x90) || In(a, 0xF1, 0xF3) || (a == 0xF4 && b <= 0x8F)
    ensures EncodeScalar(c) == [a, b, d, e]
  {
    var w, x, y, z := a as int - 0xF0, b as int - 0x80, d as int - 0x80, e as int - 0x80;
    c := w * 262144 + x * 4096 + y * 64 + z;
    Quotient(c, 262144, w, x * 4096 + y * 64 + z);
    Quotient(c, 4096, w * 64 + x, y * 64 + z);
    Quotient(c, 64, (w * 64 + x) * 64 + y, z);
    Quotient(w * 64 + x, 64, w, x);
    Quotient((w * 64 + x) * 64 + y, 64, w * 64 + x, y);
  }

  lemma {:induction false} ValidIsWritten(t: seq<byte>) returns (cs: seq<scalar>)
    requires ValidUtf8(t)
    ensures EncodeScalars(cs) == t
    decreases |t|
  {
    hide EncodeScalar, ValidUtf8;
    cs := [];
    if t != [] {
      var c := FirstScalar(t);
      var n := |EncodeScalar(c)|;
      var more := ValidIsWritten(t[n..]);
      cs := [c] + more;
      assert cs[1..] == more && t == t[..n] + t[n..];
    }
  }

  /** Text is accepted exactly when some scalar values are written as it. */
  lemma ValidUtf8Iff(t: seq<byte>)
    ensures ValidUtf8(t) <==> exists cs :: EncodeScalars(cs) == t
  {
    if ValidUtf8(t) {
      var cs := ValidIsWritten(t);
    }
    if cs :| EncodeScalars(cs) == t {
      WrittenIsValid(cs);
    }
  }
}

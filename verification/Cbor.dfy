/**
 The part of CBOR (RFC 8949) the wire messages use, encoded canonically (section 3.9 of
 RFC 7049: shortest heads, definite lengths) and decoded within the decoder's limits.
 */
module Cbor {
  import opened Basics

  type byte = b: int | 0 <= b < 256

  /** A map is kept as its keys and values in turn. */
  datatype Value =
    | UInt(n: nat)
    | NInt(n: nat)            // the integer -1 - n
    | Bytes(b: seq<byte>)
    | Text(t: seq<byte>)
    | Array(items: seq<Value>)
    | Map(flat: seq<Value>)
    | Bool(v: bool)
    | Null

  /** Array elements and map pairs a decoder accepts in one item. */
  const MAX_ELEMENTS: nat := 131072

  const TWO_64: nat := 0x1_0000_0000_0000_0000

  // ---------- numbers ----------

  function Pow256(k: nat): (p: nat)
    ensures p >= 1
  {
    if k == 0 then 1 else 256 * Pow256(k - 1)
  }

  /** `n` in `k` bytes, most significant first. */
  function BigEndian(n: nat, k: nat): (bs: seq<byte>)
    ensures |bs| == k
  {
    if k == 0 then [] else BigEndian(n / 256, k - 1) + [n % 256]
  }

  function FromBigEndian(bs: seq<byte>): nat {
    if bs == [] then 0 else FromBigEndian(bs[..|bs| - 1]) * 256 + bs[|bs| - 1]
  }

  lemma {:induction false} BigEndianRoundTrip(n: nat, k: nat)
    requires n < Pow256(k)
    ensures FromBigEndian(BigEndian(n, k)) == n
  {
    if k > 0 {
      BigEndianRoundTrip(n / 256, k - 1);
    }
  }

  lemma DivideAgain(n: nat, b: nat)
    requires b > 0
    ensures (n / 256) / b == n / (256 * b)
  {
    var q, s := n / 256, n % 256;
    var p, t := q / b, q % b;
    assert q == p * b + t;
    assert 256 * (p * b) == p * (256 * b);
    Quotient(n, 256 * b, p, 256 * t + s);
  }

  /** Byte `i` of `k` is digit k - 1 - i in base 256: the most significant comes first. */
  lemma {:induction false} BigEndianDigit(n: nat, k: nat, i: nat)
    requires i < k
    ensures BigEndian(n, k)[i] == n / Pow256(k - 1 - i) % 256
  {
    if i < k - 1 {
      BigEndianDigit(n / 256, k - 1, i);
      DivideAgain(n, Pow256(k - 2 - i));
    }
  }

  /** Reading bytes is the inverse of writing digits, both ways. */
  lemma {:induction false} BigEndianOnto(bs: seq<byte>)
    ensures FromBigEndian(bs) < Pow256(|bs|) && BigEndian(FromBigEndian(bs), |bs|) == bs
  {
    if bs != [] {
      var n := |bs| - 1;
      BigEndianOnto(bs[..n]);
      assert bs == bs[..n] + [bs[n]];
    }
  }

  /** So the value read has the bytes as its digits. */
  lemma FromBigEndianDigit(bs: seq<byte>, i: nat)
    requires i < |bs|
    ensures bs[i] == FromBigEndian(bs) / Pow256(|bs| - 1 - i) % 256
  {
    BigEndianOnto(bs);
    BigEndianDigit(FromBigEndian(bs), |bs|, i);
  }

  /** The number that four bytes are, the first weighing most. */
  function FourByteValue(bs: seq<byte>): int
    requires |bs| >= 4
  {
    bs[0] as int * 0x100_0000 + bs[1] as int * 0x1_0000 + bs[2] as int * 0x100 + bs[3] as int
  }

  lemma FourBytes(bs: seq<byte>)
    requires |bs| == 4
    ensures FromBigEndian(bs) == FourByteValue(bs)
  {
    assert bs[..3][..2] == bs[..2] && bs[..2][..1] == bs[..1] && bs[..1][..0] == [];
    var a, b, c := bs[0] as int, bs[1] as int, bs[2] as int;
    assert FromBigEndian(bs[..1]) == a;
    assert FromBigEndian(bs[..2]) == a * 256 + b;
    assert FromBigEndian(bs[..3]) == (a * 256 + b) * 256 + c;
  }

  lemma Powers()
    ensures Pow256(1) == 0x100 && Pow256(2) == 0x1_0000 && Pow256(4) == 0x1_0000_0000 && Pow256(8) == TWO_64
  {
    assert Pow256(3) == 256 * Pow256(2);
    assert Pow256(4) == 256 * Pow256(3);
    assert Pow256(5) == 256 * Pow256(4);
    assert Pow256(6) == 256 * Pow256(5);
    assert Pow256(7) == 256 * Pow256(6);
  }

  // ---------- heads: major type and argument ----------

  type major = m: int | 0 <= m < 8

  /** How many bytes the shortest head spends on its argument. */
  function ArgBytes(n: nat): nat {
    if n < 24 then 0 else if n < 0x100 then 1 else if n < 0x1_0000 then 2 else if n < 0x1_0000_0000 then 4 else 8
  }

  function Info(n: nat): (i: nat)
    ensures i < 28
  {
    if n < 24 then n else match ArgBytes(n) case 1 => 24 case 2 => 25 case 4 => 26 case _ => 27
  }

  function Head(m: major, n: nat): seq<byte> {
    [m * 32 + Info(n)] + BigEndian(n, ArgBytes(n))
  }

  /** Major type, raw five low bits, argument, and what follows the head. Widths 28 to 31 are reserved. */
  datatype HeadResult = HeadResult(m: major, info: nat, n: nat, rest: seq<byte>)

  function DecodeHead(bs: seq<byte>): (r: Option<HeadResult>)
    ensures r.Some? ==> |r.value.rest| < |bs| && bs[0] == r.value.m * 32 + r.value.info && r.value.info < 28
  {
    if bs == [] then None
    else
      var m, info, rest := bs[0] / 32, bs[0] % 32, bs[1..];
      if info < 24 then Some(HeadResult(m, info, info, rest))
      else if info > 27 then None
      else
        var k := match info case 24 => 1 case 25 => 2 case 26 => 4 case _ => 8;
        if |rest| < k then None else Some(HeadResult(m, info, FromBigEndian(rest[..k]), rest[k..]))
  }

  lemma FirstByte(m: major, n: nat)
    ensures (m * 32 + Info(n)) / 32 == m && (m * 32 + Info(n)) % 32 == Info(n)
  {
  }

  lemma ArgumentRoundTrip(n: nat)
    requires n < TWO_64
    ensures n >= 24 ==> FromBigEndian(BigEndian(n, ArgBytes(n))) == n
  {
    Powers();
    if n >= 24 {
      BigEndianRoundTrip(n, ArgBytes(n));
    }
  }

  lemma HeadRoundTrip(m: major, n: nat, rest: seq<byte>)
    requires n < TWO_64
    ensures DecodeHead(Head(m, n) + rest) == Some(HeadResult(m, Info(n), n, rest))
  {
    var k := ArgBytes(n);
    var arg := BigEndian(n, k);
    var bs := Head(m, n) + rest;
    FirstByte(m, n);
    ArgumentRoundTrip(n);
    assert bs == [m * 32 + Info(n)] + (arg + rest);
    assert bs[1..] == arg + rest;
    assert (arg + rest)[..k] == arg && (arg + rest)[k..] == rest;
    if n < 24 {
      assert arg + rest == rest;
    }
  }

  /** No way of writing the argument is shorter than the one heads are written in. */
  lemma NoShorterHead(bs: seq<byte>)
    ensures var r := DecodeHead(bs);
            r.Some? ==> |bs| - |r.value.rest| >= |Head(r.value.m, r.value.n)|
  {
    var r := DecodeHead(bs);
    if r.Some? {
      Powers();
      var k := |bs| - |r.value.rest| - 1;
      BigEndianOnto(bs[1..][..k]);
    }
  }

  // ---------- text ----------

  predicate In(b: byte, lo: int, hi: int) { lo <= b <= hi }

  /** Well-formed UTF-8 (section 4 of RFC 3629). */
  predicate ValidUtf8(t: seq<byte>) {
    if t == [] then true
    else if t[0] < 0x80 then ValidUtf8(t[1..])
    else if |t| >= 2 && In(t[0], 0xC2, 0xDF) && In(t[1], 0x80, 0xBF) then ValidUtf8(t[2..])
    else if |t| >= 3 && In(t[2], 0x80, 0xBF)
            && ((t[0] == 0xE0 && In(t[1], 0xA0, 0xBF))
                || (In(t[0], 0xE1, 0xEC) && In(t[1], 0x80, 0xBF))
                || (t[0] == 0xED && In(t[1], 0x80, 0x9F))
                || (In(t[0], 0xEE, 0xEF) && In(t[1], 0x80, 0xBF))) then ValidUtf8(t[3..])
    else if |t| >= 4 && In(t[2], 0x80, 0xBF) && In(t[3], 0x80, 0xBF)
            && ((t[0] == 0xF0 && In(t[1], 0x90, 0xBF))
                || (In(t[0], 0xF1, 0xF3) && In(t[1], 0x80, 0xBF))
                || (t[0] == 0xF4 && In(t[1], 0x80, 0x8F))) then ValidUtf8(t[4..])
    else false
  }

  // ---------- values ----------

  /** Arguments and lengths fit a head, and maps are whole pairs. */
  predicate Encodable(v: Value)
    decreases v
  {
    match v
    case UInt(n) => n < TWO_64
    case NInt(n) => n < TWO_64
    case Bytes(b) => |b| < TWO_64
    case Text(t) => |t| < TWO_64
    case Array(items) => |items| < TWO_64 && forall x | x in items :: Encodable(x)
    case Map(flat) => |flat| % 2 == 0 && |flat| / 2 < TWO_64 && forall x | x in flat :: Encodable(x)
    case _ => true
  }

  /** The decoder takes it: element counts are within the limit, throughout. */
  predicate Acceptable(v: Value)
    decreases v
  {
    match v
    case Array(items) => |items| <= MAX_ELEMENTS && forall x | x in items :: Acceptable(x)
    case Map(flat) => |flat| / 2 <= MAX_ELEMENTS && forall x | x in flat :: Acceptable(x)
    case _ => true
  }

  function Encode(v: Value): seq<byte>
    decreases v, 0
  {
    match v
    case UInt(n) => Head(0, n)
    case NInt(n) => Head(1, n)
    case Bytes(b) => Head(2, |b|) + b
    case Text(t) => Head(3, |t|) + t
    case Array(items) => Head(4, |items|) + EncodeAll(items)
    case Map(flat) => Head(5, |flat| / 2) + EncodeAll(flat)
    case Bool(v) => Head(7, if v then 21 else 20)
    case Null => Head(7, 22)
  }

  function EncodeAll(vs: seq<Value>): seq<byte>
    decreases vs, 1
  {
    if vs == [] then [] else Encode(vs[0]) + EncodeAll(vs[1..])
  }

  function Decode(bs: seq<byte>): (r: Option<(Value, seq<byte>)>)
    ensures r.Some? ==> |r.value.1| < |bs|
    decreases |bs|, 0, 0
  {
    var head := DecodeHead(bs);
    if head.None? then None
    else
      var HeadResult(m, info, n, rest) := head.value;
      match m
      case 0 => Some((UInt(n), rest))
      case 1 => Some((NInt(n), rest))
      case 2 => if n <= |rest| then Some((Bytes(rest[..n]), rest[n..])) else None
      case 3 => if n <= |rest| then Some((Text(rest[..n]), rest[n..])) else None
      case 4 =>
        if n > MAX_ELEMENTS then None
        else
          var items := DecodeAll(n, rest);
          if items.None? then None else Some((Array(items.value.0), items.value.1))
      case 5 =>
        if n > MAX_ELEMENTS then None
        else
          var flat := DecodeAll(2 * n, rest);
          if flat.None? then None else Some((Map(flat.value.0), flat.value.1))
      case 7 =>
        if info == 20 then Some((Bool(false), rest))
        else if info == 21 then Some((Bool(true), rest))
        else if info == 22 then Some((Null, rest))
        else None
      case _ => None
  }

  function DecodeAll(n: nat, bs: seq<byte>): (r: Option<(seq<Value>, seq<byte>)>)
    ensures r.Some? ==> |r.value.0| == n && |r.value.1| <= |bs|
    decreases |bs|, 1, n
  {
    if n == 0 then Some(([], bs))
    else
      var first := Decode(bs);
      if first.None? then None
      else
        var more := DecodeAll(n - 1, first.value.1);
        if more.None? then None else Some(([first.value.0] + more.value.0, more.value.1))
  }

  /** How each kind of value begins, and what argument its head carries. */
  lemma EncodingBegins(v: Value, rest: seq<byte>)
    requires Encodable(v)
    ensures var h := DecodeHead(Encode(v) + rest);
            h.Some?
            && match v
               case UInt(n) => h.value.m == 0 && h.value.n == n
               case NInt(n) => h.value.m == 1 && h.value.n == n
               case Bytes(b) => h.value.m == 2 && h.value.n == |b| && h.value.rest == b + rest
               case Text(t) => h.value.m == 3 && h.value.n == |t| && h.value.rest == t + rest
               case Array(items) => h.value.m == 4 && h.value.n == |items|
               case Map(flat) => h.value.m == 5 && 2 * h.value.n == |flat|
               case Bool(b) => Encode(v) == [if b then 0xF5 else 0xF4]
               case Null => Encode(v) == [0xF6]
  {
    hide DecodeHead, Head;
    match v
    case UInt(n) => HeadRoundTrip(0, n, rest);
    case NInt(n) => HeadRoundTrip(1, n, rest);
    case Bytes(b) => StringRoundTrip(2, b, rest);
    case Text(t) => StringRoundTrip(3, t, rest);
    case Array(items) =>
      HeadRoundTrip(4, |items|, EncodeAll(items) + rest);
      assert Encode(v) + rest == Head(4, |items|) + (EncodeAll(items) + rest);
    case Map(flat) =>
      HeadRoundTrip(5, |flat| / 2, EncodeAll(flat) + rest);
      assert Encode(v) + rest == Head(5, |flat| / 2) + (EncodeAll(flat) + rest);
    case Bool(b) =>
      HeadRoundTrip(7, if b then 21 else 20, rest);
      HeadBegins(7, if b then 21 else 20);
    case Null =>
      HeadRoundTrip(7, 22, rest);
      HeadBegins(7, 22);
  }

  /** A head's first byte is its major type in the three high bits and the argument or its width below. */
  lemma HeadBegins(m: major, n: nat)
    ensures Head(m, n)[0] / 32 == m
    ensures n < 24 ==> Head(m, n) == [m * 32 + n]
    ensures 24 <= n < 0x100 ==> |Head(m, n)| == 2 && Head(m, n)[0] % 32 == 24
    ensures 0x100 <= n < 0x1_0000 ==> |Head(m, n)| == 3 && Head(m, n)[0] % 32 == 25
    ensures 0x1_0000 <= n < 0x1_0000_0000 ==> |Head(m, n)| == 5 && Head(m, n)[0] % 32 == 26
    ensures 0x1_0000_0000 <= n ==> |Head(m, n)| == 9 && Head(m, n)[0] % 32 == 27
  {
    FirstByte(m, n);
  }

  // ---------- decoding undoes encoding ----------

  /**
   On the encoding of any value the decoder returns that value or, outside its limits,
   fails. Whether text is UTF-8 is only looked at when it is read into a known field.
   */
  lemma {:induction false} DecodeEncode(v: Value, rest: seq<byte>)
    requires Encodable(v)
    ensures Decode(Encode(v) + rest) == if Acceptable(v) then Some((v, rest)) else None
    decreases v, 0
  {
    match v
    case UInt(n) => HeadRoundTrip(0, n, rest);
    case NInt(n) => HeadRoundTrip(1, n, rest);
    case Bytes(b) => StringRoundTrip(2, b, rest);
    case Text(t) => StringRoundTrip(3, t, rest);
    case Array(items) =>
      DecodeEncodeAll(items, rest);
      ArrayRoundTrip(items, rest);
    case Map(flat) =>
      DecodeEncodeAll(flat, rest);
      MapRoundTrip(flat, rest);
    case Bool(b) => HeadRoundTrip(7, if b then 21 else 20, rest);
    case Null => HeadRoundTrip(7, 22, rest);
  }

  ghost predicate AllDecode(vs: seq<Value>, rest: seq<byte>) {
    DecodeAll(|vs|, EncodeAll(vs) + rest) == if forall v | v in vs :: Acceptable(v) then Some((vs, rest)) else None
  }

  lemma ArrayRoundTrip(items: seq<Value>, rest: seq<byte>)
    requires |items| < TWO_64 && AllDecode(items, rest)
    ensures Decode(Encode(Array(items)) + rest)
         == if Acceptable(Array(items)) then Some((Array(items), rest)) else None
  {
    assert Encode(Array(items)) + rest == Head(4, |items|) + (EncodeAll(items) + rest);
    HeadRoundTrip(4, |items|, EncodeAll(items) + rest);
  }

  lemma MapRoundTrip(flat: seq<Value>, rest: seq<byte>)
    requires |flat| % 2 == 0 && |flat| / 2 < TWO_64 && AllDecode(flat, rest)
    ensures Decode(Encode(Map(flat)) + rest) == if Acceptable(Map(flat)) then Some((Map(flat), rest)) else None
  {
    assert Encode(Map(flat)) + rest == Head(5, |flat| / 2) + (EncodeAll(flat) + rest);
    HeadRoundTrip(5, |flat| / 2, EncodeAll(flat) + rest);
  }

  lemma StringRoundTrip(m: major, b: seq<byte>, rest: seq<byte>)
    requires |b| < TWO_64
    ensures DecodeHead(Head(m, |b|) + b + rest) == Some(HeadResult(m, Info(|b|), |b|, b + rest))
    ensures (b + rest)[..|b|] == b && (b + rest)[|b|..] == rest
  {
    assert Head(m, |b|) + b + rest == Head(m, |b|) + (b + rest);
    HeadRoundTrip(m, |b|, b + rest);
  }

  lemma {:induction false} DecodeEncodeAll(vs: seq<Value>, rest: seq<byte>)
    requires forall v | v in vs :: Encodable(v)
    ensures AllDecode(vs, rest)
    decreases vs, 1
  {
    hide AllDecode, Encode, Decode;
    if vs == [] {
      NoneDecode(rest);
    } else {
      DecodeEncode(vs[0], EncodeAll(vs[1..]) + rest);
      DecodeEncodeAll(vs[1..], rest);
      FirstDecodes(vs, rest);
    }
  }

  lemma NoneDecode(rest: seq<byte>)
    ensures AllDecode([], rest)
  {
    assert EncodeAll([]) + rest == rest;
  }

  lemma FirstDecodes(vs: seq<Value>, rest: seq<byte>)
    requires vs != [] && AllDecode(vs[1..], rest)
    requires var v, more := vs[0], EncodeAll(vs[1..]) + rest;
             Decode(Encode(v) + more) == if Acceptable(v) then Some((v, more)) else None
    ensures AllDecode(vs, rest)
  {
    hide Encode, Decode, Acceptable;
    assert EncodeAll(vs) + rest == Encode(vs[0]) + (EncodeAll(vs[1..]) + rest);
    assert vs == [vs[0]] + vs[1..];
  }

  /** Different values have encodings of which neither begins the other. */
  lemma EncodingPrefixFree(v: Value, w: Value, a: seq<byte>, b: seq<byte>)
    requires Encodable(v) && Encodable(w) && Acceptable(v)
    requires Encode(v) + a == Encode(w) + b
    ensures v == w && a == b
  {
    DecodeEncode(v, a);
    DecodeEncode(w, b);
  }

  /** Whatever the decoder returns is within its limits. */
  lemma {:induction false} DecodeAcceptable(bs: seq<byte>)
    ensures Decode(bs).Some? ==> Acceptable(Decode(bs).value.0)
    decreases |bs|, 0, 0
  {
    var head := DecodeHead(bs);
    if head.Some? && head.value.n <= MAX_ELEMENTS {
      match head.value.m
      case 4 => DecodeAllAcceptable(head.value.n, head.value.rest);
      case 5 => DecodeAllAcceptable(2 * head.value.n, head.value.rest);
      case _ =>
    }
  }

  lemma {:induction false} DecodeAllAcceptable(n: nat, bs: seq<byte>)
    ensures var r := DecodeAll(n, bs); r.Some? ==> forall v | v in r.value.0 :: Acceptable(v)
    decreases |bs|, 1, n
  {
    hide Acceptable;
    if n > 0 {
      var first := Decode(bs);
      DecodeAcceptable(bs);
      if first.Some? {
        DecodeAllAcceptable(n - 1, first.value.1);
      }
    }
  }

  // ---------- sizes ----------

  lemma HeadSize(m: major, n: nat)
    ensures |Head(m, n)| == 1 + ArgBytes(n) <= 9
  {
  }

  lemma {:induction false} EncodeAllSize(vs: seq<Value>, bound: nat)
    requires forall v | v in vs :: |Encode(v)| <= bound
    ensures |EncodeAll(vs)| <= bound * |vs|
  {
    if vs != [] {
      EncodeAllSize(vs[1..], bound);
      OneMore(bound, |vs| - 1);
      assert |Encode(vs[0])| <= bound;
    }
  }

  lemma OneMore(a: nat, b: nat)
    ensures a * (b + 1) == a * b + a
  {
  }

  /** Integers fit and maps are whole pairs; lengths are whatever they are. */
  predicate Plain(v: Value)
    decreases v
  {
    match v
    case UInt(n) => n < TWO_64
    case NInt(n) => n < TWO_64
    case Array(items) => forall x | x in items :: Plain(x)
    case Map(flat) => |flat| % 2 == 0 && forall x | x in flat :: Plain(x)
    case _ => true
  }

  /** A value whose encoding has a representable length has nothing longer in it. */
  lemma {:induction false} SmallIsEncodable(v: Value)
    requires Plain(v) && |Encode(v)| < TWO_64
    ensures Encodable(v)
    decreases v, 0
  {
    match v
    case Array(items) => AllSmallEncodable(items);
    case Map(flat) => AllSmallEncodable(flat);
    case _ =>
  }

  lemma {:induction false} AllSmallEncodable(vs: seq<Value>)
    requires (forall v | v in vs :: Plain(v)) && |EncodeAll(vs)| < TWO_64
    ensures |vs| < TWO_64 && forall v | v in vs :: Encodable(v)
    ensures |vs| <= |EncodeAll(vs)|
    decreases vs, 1
  {
    if vs != [] {
      SmallIsEncodable(vs[0]);
      AllSmallEncodable(vs[1..]);
      assert vs == [vs[0]] + vs[1..];
      EncodeNonEmpty(vs[0]);
    }
  }

  lemma EncodeNonEmpty(v: Value)
    ensures |Encode(v)| >= 1
  {
  }
}

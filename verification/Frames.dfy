/**
 Frames: a 4-byte big-endian length, then the encoded message. Reading a stream of frames
 gives back the messages written; a stream that was cut gives back the whole frames before
 the cut and an error that says where in a frame the cut lies.
 */
module Frames {
  import opened Basics
  import opened Cbor
  import opened Messages

  /** The largest payload a frame may carry. */
  const MAX_FRAME: nat := 0x100_0000

  /** How many pack bytes ride in one data frame. */
  const CHUNK_SIZE: nat := 0x10_0000

  const T_WANTS: int64 := 6
  const T_DATA: int64 := 7
  const T_DATA_END: int64 := 8
  const T_ERR: int64 := 10
  const T_ACCEPT: int64 := 12

  /** Eof is the bare end of stream before a frame; inside one it is something else. */
  datatype ReadError = Eof | UnexpectedEof | Oversize(n: nat) | ShortFrame(inner: ReadError) | Malformed

  datatype Parsed = Got(m: Msg, rest: seq<byte>) | Failed(e: ReadError)

  predicate Writable(m: Msg) { |Marshal(m)| <= MAX_FRAME }

  function Frame(m: Msg): seq<byte> { BigEndian(|Marshal(m)|, 4) + Marshal(m) }

  function Stream(ms: seq<Msg>): seq<byte> {
    if ms == [] then [] else Frame(ms[0]) + Stream(ms[1..])
  }

  /** What reading one frame makes of a stream that ends after `bs`. */
  function ParseFrame(bs: seq<byte>): (p: Parsed)
    ensures p.Got? ==> |p.rest| < |bs|
  {
    if bs == [] then Failed(Eof)
    else if |bs| < 4 then Failed(UnexpectedEof)
    else
      var n, body := FromBigEndian(bs[..4]), bs[4..];
      if n > MAX_FRAME then Failed(Oversize(n))
      else if n > 0 && body == [] then Failed(ShortFrame(Eof))
      else if |body| < n then Failed(ShortFrame(UnexpectedEof))
      else
        match Unmarshal(body[..n])
        case None => Failed(Malformed)
        case Some(m) => Got(m, body[n..])
  }

  /** All messages up to the first error, and that error. */
  function ReadAll(bs: seq<byte>): (seq<Msg>, ReadError)
    decreases |bs|
  {
    match ParseFrame(bs)
    case Failed(e) => ([], e)
    case Got(m, rest) => var (ms, e) := ReadAll(rest); ([m] + ms, e)
  }

  // ---------- whole frames ----------

  lemma HeaderRoundTrip(n: nat, rest: seq<byte>)
    requires n <= MAX_FRAME
    ensures var bs := BigEndian(n, 4) + rest;
            |bs| >= 4 && FromBigEndian(bs[..4]) == n && bs[4..] == rest
  {
    Powers();
    BigEndianRoundTrip(n, 4);
    assert (BigEndian(n, 4) + rest)[..4] == BigEndian(n, 4);
  }

  /** The stream begins with the number `n` in four bytes, most significant first. */
  predicate Header(bs: seq<byte>, n: nat) { |bs| >= 4 && FourByteValue(bs) == n }

  /** A frame is its payload's length in four bytes, and the payload. */
  lemma FrameBytes(m: Msg)
    requires Writable(m)
    ensures Header(Frame(m), |Marshal(m)|) && Frame(m)[4..] == Marshal(m)
  {
    var hdr := BigEndian(|Marshal(m)|, 4);
    Powers();
    BigEndianRoundTrip(|Marshal(m)|, 4);
    FourBytes(hdr);
    assert Frame(m)[..4] == hdr;
    assert Frame(m)[0] == hdr[0] && Frame(m)[1] == hdr[1] && Frame(m)[2] == hdr[2] && Frame(m)[3] == hdr[3];
  }

  /**
   What is read is decided by the number in the first four bytes: over the limit it is
   refused whatever follows, otherwise that many bytes must follow and are the payload.
   */
  lemma ParseByHeader(bs: seq<byte>, n: nat)
    requires Header(bs, n)
    ensures n > MAX_FRAME ==> ParseFrame(bs) == Failed(Oversize(n))
    ensures n <= MAX_FRAME && |bs| == 4 && n > 0 ==> ParseFrame(bs) == Failed(ShortFrame(Eof))
    ensures n <= MAX_FRAME && 4 < |bs| < 4 + n ==> ParseFrame(bs) == Failed(ShortFrame(UnexpectedEof))
    ensures n <= MAX_FRAME && |bs| >= 4 + n ==>
              ParseFrame(bs) == match Unmarshal(bs[4..4 + n])
                                case None => Failed(Malformed)
                                case Some(m) => Got(m, bs[4 + n..])
  {
    hide Unmarshal;
    FourBytes(bs[..4]);
    assert bs[..4][0] == bs[0] && bs[..4][1] == bs[1] && bs[..4][2] == bs[2] && bs[..4][3] == bs[3];
    if |bs| >= 4 + n {
      assert bs[4..][..n] == bs[4..4 + n] && bs[4..][n..] == bs[4 + n..];
    }
  }

  lemma FrameShape(m: Msg, rest: seq<byte>)
    ensures |Marshal(m)| >= 1 && |Frame(m)| == 4 + |Marshal(m)|
    ensures Frame(m) + rest == BigEndian(|Marshal(m)|, 4) + (Marshal(m) + rest)
  {
    EncodeNonEmpty(ToValue(m));
  }

  /** A written frame reads back as its message, or as malformed if its text or lists are. */
  lemma FrameRoundTrip(m: Msg, rest: seq<byte>)
    requires Writable(m)
    ensures ParseFrame(Frame(m) + rest) == if WellFormed(m) then Got(m, rest) else Failed(Malformed)
  {
    FrameShape(m, rest);
    HeaderRoundTrip(|Marshal(m)|, Marshal(m) + rest);
    var body := Marshal(m) + rest;
    assert body[..|Marshal(m)|] == Marshal(m) && body[|Marshal(m)|..] == rest;
    MsgRoundTrip(m);
  }

  ghost predicate Sendable(ms: seq<Msg>) {
    forall m | m in ms :: Writable(m) && WellFormed(m)
  }

  lemma ReadAllFrame(m: Msg, rest: seq<byte>)
    requires Writable(m) && WellFormed(m)
    ensures ReadAll(Frame(m) + rest) == ([m] + ReadAll(rest).0, ReadAll(rest).1)
  {
    FrameRoundTrip(m, rest);
  }

  /** Reading frames that were written one after the other gives the messages in order. */
  lemma {:induction false} StreamRoundTrip(ms: seq<Msg>, tail: seq<byte>)
    requires Sendable(ms)
    ensures ReadAll(Stream(ms) + tail) == (ms + ReadAll(tail).0, ReadAll(tail).1)
  {
    hide ParseFrame, WellFormed, Writable, Frame;
    if ms == [] {
      assert Stream(ms) + tail == tail && ms + ReadAll(tail).0 == ReadAll(tail).0;
    } else {
      var rest, more := Stream(ms[1..]) + tail, ReadAll(tail);
      StreamRoundTrip(ms[1..], tail);
      ReadAllFrame(ms[0], rest);
      assert ms + more.0 == [ms[0]] + (ms[1..] + more.0);
      assert Stream(ms) + tail == Frame(ms[0]) + rest;
    }
  }

  lemma {:induction false} StreamAppend(a: seq<Msg>, b: seq<Msg>)
    ensures Stream(a + b) == Stream(a) + Stream(b)
  {
    if a == [] {
      assert a + b == b;
    } else {
      assert (a + b)[1..] == a[1..] + b;
      StreamAppend(a[1..], b);
    }
  }

  // ---------- cut streams ----------

  /** How many frames lie wholly within the first `cut` bytes. */
  function WholeFrames(ms: seq<Msg>, cut: nat): (n: nat)
    ensures n <= |ms|
  {
    if ms == [] || cut < |Frame(ms[0])| then 0 else 1 + WholeFrames(ms[1..], cut - |Frame(ms[0])|)
  }

  /** How far into the next frame the cut lies. */
  function CutOffset(ms: seq<Msg>, cut: nat): nat {
    if ms == [] || cut < |Frame(ms[0])| then cut else CutOffset(ms[1..], cut - |Frame(ms[0])|)
  }

  function CutError(offset: nat): ReadError {
    if offset == 0 then Eof
    else if offset < 4 then UnexpectedEof
    else if offset == 4 then ShortFrame(Eof)
    else ShortFrame(UnexpectedEof)
  }

  lemma CutFrame(m: Msg, cut: nat)
    requires Writable(m) && cut < |Frame(m)|
    ensures ParseFrame(Frame(m)[..cut]) == Failed(CutError(cut))
  {
    FrameShape(m, []);
    if cut >= 4 {
      var n := |Marshal(m)|;
      var bs := Frame(m)[..cut];
      HeaderRoundTrip(n, Marshal(m));
      assert bs[..4] == Frame(m)[..4];
      assert |bs[4..]| == cut - 4;
    }
  }

  lemma EmptyStream()
    ensures ReadAll([]) == ([], Eof)
  {
  }

  lemma NothingRead(bs: seq<byte>, e: ReadError)
    requires ParseFrame(bs) == Failed(e)
    ensures ReadAll(bs) == ([], e)
  {
  }

  /**
   A stream cut anywhere yields a prefix of its messages and then an error: the whole
   frames before the cut, and an error determined by the cut's place in the next one.
   */
  lemma {:induction false} TruncatedStream(ms: seq<Msg>, cut: nat)
    requires Sendable(ms) && cut <= |Stream(ms)|
    ensures ReadAll(Stream(ms)[..cut]) == (ms[..WholeFrames(ms, cut)], CutError(CutOffset(ms, cut)))
    ensures |Stream(ms[..WholeFrames(ms, cut)])| + CutOffset(ms, cut) == cut
  {
    hide ParseFrame, WellFormed, Writable, Frame;
    if ms == [] {
      EmptyStream();
      assert Stream(ms)[..cut] == [] && ms[..0] == [];
    } else if cut < |Frame(ms[0])| {
      assert Stream(ms)[..cut] == Frame(ms[0])[..cut];
      CutFrame(ms[0], cut);
      NothingRead(Frame(ms[0])[..cut], CutError(cut));
      assert ms[..0] == [];
    } else {
      var f, rest := Frame(ms[0]), ms[1..];
      var k := WholeFrames(rest, cut - |f|);
      TruncatedStream(rest, cut - |f|);
      assert Stream(ms)[..cut] == f + Stream(rest)[..cut - |f|];
      ReadAllFrame(ms[0], Stream(rest)[..cut - |f|]);
      assert ms[..k + 1] == [ms[0]] + rest[..k];
      assert ms[..k + 1][1..] == rest[..k];
    }
  }

  /** The bare end of stream is reported exactly when the cut falls between two frames. */
  lemma {:induction false} BareEofOnlyAtBoundary(ms: seq<Msg>, cut: nat)
    requires Sendable(ms) && cut <= |Stream(ms)|
    ensures ReadAll(Stream(ms)[..cut]).1 == Eof <==> exists j :: 0 <= j <= |ms| && |Stream(ms[..j])| == cut
  {
    TruncatedStream(ms, cut);
    var k := WholeFrames(ms, cut);
    if CutOffset(ms, cut) == 0 {
      assert |Stream(ms[..k])| == cut;
    }
    if j :| 0 <= j <= |ms| && |Stream(ms[..j])| == cut {
      BoundaryOffset(ms, j);
    }
  }

  lemma {:induction false} BoundaryOffset(ms: seq<Msg>, j: nat)
    requires j <= |ms|
    ensures CutOffset(ms, |Stream(ms[..j])|) == 0
  {
    hide Frame;
    if j == 0 {
      assert ms[..0] == [];
      if ms != [] {
        FrameShape(ms[0], []);
      }
    } else {
      BoundaryOffset(ms[1..], j - 1);
      assert ms[..j][1..] == ms[1..][..j - 1];
      assert |Stream(ms[..j])| == |Frame(ms[0])| + |Stream(ms[1..][..j - 1])|;
    }
  }

  /**
   Putting a frame that was read back in front of its stream changes nothing for the next
   reader: how a client that expected a sharding server falls back to a plain transfer.
   The one way it can fail is that the frame writer refuses the frame for its size.
   */
  lemma ReplayedFrame(bs: seq<byte>, m: Msg, rest: seq<byte>)
    requires ParseFrame(bs) == Got(m, rest)
    ensures WellFormed(m)
    ensures Writable(m) ==> ReadAll(Frame(m) + rest) == ReadAll(bs)
  {
    ParsedWellFormed(bs);
    if Writable(m) {
      FrameRoundTrip(m, rest);
    }
  }

  lemma ParsedWellFormed(bs: seq<byte>)
    ensures ParseFrame(bs).Got? ==> WellFormed(ParseFrame(bs).m)
  {
    hide Unmarshal, WellFormed;
    if |bs| >= 4 && FromBigEndian(bs[..4]) <= |bs[4..]| {
      UnmarshalWellFormed(bs[4..][..FromBigEndian(bs[..4])]);
    }
  }

  // ---------- frames the transfer sends fit ----------

  function WantsMsg(keys: seq<seq<byte>>): Msg {
    EMPTY.(typ := T_WANTS, keys := seq(|keys|, i requires 0 <= i < |keys| => Some(keys[i])))
  }

  function DataMsg(data: seq<byte>): Msg { EMPTY.(typ := T_DATA, data := data) }

  const DATA_END: Msg := EMPTY.(typ := T_DATA_END)

  lemma {:induction false} SkipAbsent(f: seq<Option<Value>>, a: nat, b: nat)
    requires a <= b <= |f| && forall k | a <= k < b :: f[k].None?
    ensures Entries(f, a) == Entries(f, b)
    decreases b - a
  {
    if a < b {
      SkipAbsent(f, a + 1, b);
    }
  }

  /** When only field `k` is present besides the first, there are two entries or one. */
  lemma TwoEntries(f: seq<Option<Value>>, k: nat)
    requires 1 <= k < |f| && f[0].Some? && forall j | 1 <= j < |f| && j != k :: f[j].None?
    ensures Entries(f, 0) == [UInt(0), f[0].value] + if f[k].Some? then [UInt(k), f[k].value] else []
  {
    SkipAbsent(f, 1, k);
    SkipAbsent(f, k + 1, |f|);
  }

  lemma PairSize(k: nat, v: Value, rest: seq<Value>)
    requires k < 24
    ensures |EncodeAll([UInt(k), v] + rest)| == 1 + |Encode(v)| + |EncodeAll(rest)|
  {
    var all := [UInt(k), v] + rest;
    assert all[1..] == [v] + rest && all[1..][1..] == rest;
    HeadSize(0, k);
  }

  /** A message whose only field besides the type is number `k` has two entries. */
  lemma TwoFieldSize(m: Msg, k: nat)
    requires 1 <= k < 18 && 0 <= m.typ < 24
    requires forall j | 1 <= j < 18 && j != k :: Fields(m)[j].None?
    ensures |Marshal(m)| <= 20 + if Fields(m)[k].Some? then |Encode(Fields(m)[k].value)| else 0
  {
    hide Entries, EncodeAll;
    var f := Fields(m);
    TwoEntries(f, k);
    var tail := if f[k].Some? then [UInt(k), f[k].value] else [];
    NothingToEncode();
    if f[k].Some? {
      PairSize(k, f[k].value, []);
      assert tail + [] == tail;
    }
    PairSize(0, f[0].value, tail);
    HeadSize(5, |Entries(f, 0)| / 2);
    HeadSize(0, m.typ);
  }

  lemma NothingToEncode()
    ensures EncodeAll([]) == []
  {
  }

  /** A want frame with as many keys as a round may send, of any key size up to 254 bytes, fits. */
  lemma WantsFrameFits(keys: seq<seq<byte>>)
    requires |keys| <= 32 * 1024 && forall k | k in keys :: |k| <= 254
    ensures Writable(WantsMsg(keys)) && WellFormed(WantsMsg(keys))
  {
    hide Marshal, Encode, ValidUtf8;
    TwoFieldSize(WantsMsg(keys), 7);
    if keys != [] {
      KeysSize(keys, WantsMsg(keys).keys);
    }
    NoText();
  }

  lemma KeysSize(keys: seq<seq<byte>>, slices: seq<Option<seq<byte>>>)
    requires |keys| <= 32 * 1024 && forall k | k in keys :: |k| <= 254
    requires |slices| == |keys| && forall i | 0 <= i < |keys| :: slices[i] == Some(keys[i])
    ensures |Encode(Array(Image(SliceValue, slices)))| <= 9 + 256 * |keys|
  {
    hide EncodeAll;
    var items := Image(SliceValue, slices);
    forall v | v in items
      ensures |Encode(v)| <= 256
    {
      var i :| 0 <= i < |items| && items[i] == v;
      assert v == Bytes(keys[i]) && keys[i] in keys;
    }
    EncodeAllSize(items, 256);
    HeadSize(4, |items|);
  }

  lemma DataFrameFits(data: seq<byte>)
    requires |data| <= CHUNK_SIZE
    ensures Writable(DataMsg(data)) && WellFormed(DataMsg(data))
  {
    TwoFieldSize(DataMsg(data), 8);
    HeadSize(2, |data|);
  }

  lemma DataEndFits()
    ensures Writable(DATA_END) && WellFormed(DATA_END)
  {
    TwoFieldSize(DATA_END, 8);
  }

  // ---------- replaying a want frame ----------

  /** A want frame a sender of this program wrote is put back byte for byte. */
  lemma OwnFrameReplays(keys: seq<seq<byte>>, rest: seq<byte>)
    requires |keys| <= 32 * 1024 && forall k | k in keys :: |k| <= 254
    ensures Writable(WantsMsg(keys))
    ensures ParseFrame(Frame(WantsMsg(keys)) + rest) == Got(WantsMsg(keys), rest)
  {
    WantsFrameFits(keys);
    FrameRoundTrip(WantsMsg(keys), rest);
  }

  function Repeat<T>(x: T, n: nat): (r: seq<T>)
    ensures |r| == n && forall i | 0 <= i < n :: r[i] == x
  {
    seq(n, _ => x)
  }

  lemma RepeatHead<T>(x: T, n: nat)
    requires n > 0
    ensures Repeat(x, n)[0] == x && Repeat(x, n)[1..] == Repeat(x, n - 1)
    ensures Repeat(x, n) == [x] + Repeat(x, n - 1)
  {
  }

  /** A want frame as some other program may write it: with null references, and with data besides. */
  function OddFlat(n: nat, data: seq<byte>): seq<Value> {
    [UInt(0), UInt(6), UInt(6), Array(Repeat(Null, n)), UInt(8), Bytes(data)]
  }

  function OddValue(n: nat, data: seq<byte>): Value { Map(OddFlat(n, data)) }

  const NO_REF: RefInfo := RefInfo([], None, 0, [])

  /** What a reader makes of it: a null reference is one with nothing in it. */
  function OddMsg(n: nat, data: seq<byte>): Msg {
    EMPTY.(typ := T_WANTS, refs := Repeat(NO_REF, n), data := data)
  }

  lemma {:induction false} NullsRead(n: nat)
    ensures Messages.ReadAll(ReadRefInfo, Repeat(Null, n)) == Some(Repeat(NO_REF, n))
  {
    hide Repeat;
    if n > 0 {
      RepeatHead(Null, n);
      NullsRead(n - 1);
      RepeatHead(NO_REF, n);
    }
  }

  /** Copies of a value take as much as one, each. */
  lemma {:induction false} CopiesSize(v: Value, n: nat)
    ensures |EncodeAll(Repeat(v, n))| == n * |Encode(v)|
  {
    hide Repeat, Encode;
    if n > 0 {
      RepeatHead(v, n);
      CopiesSize(v, n - 1);
      Cbor.OneMore(|Encode(v)|, n - 1);
    }
  }

  lemma PairOnly(k: nat, v: Value)
    requires k < 24
    ensures |EncodeAll([UInt(k), v])| == 1 + |Encode(v)|
  {
    PairSize(k, v, []);
    NothingToEncode();
    assert [UInt(k), v] + [] == [UInt(k), v];
  }

  /** A reference with nothing in it takes seven bytes where a null takes one. */
  lemma EmptyRefSize()
    ensures |Encode(RefInfoValue(NO_REF))| == 7 && |Encode(Null)| == 1
  {
    hide EncodeAll;
    EmptyRefEntries();
    var last := [UInt(2), UInt(0)];
    PairOnly(2, UInt(0));
    PairSize(1, Null, last);
    PairSize(0, Text([]), [UInt(1), Null] + last);
    HeadSize(5, 3);
  }

  lemma EmptyRefEntries()
    ensures Entries(RefInfoFields(NO_REF), 0) == [UInt(0), Text([])] + ([UInt(1), Null] + [UInt(2), UInt(0)])
  {
    var f := RefInfoFields(NO_REF);
    assert f[3].None? && Entries(f, 4) == [];
    assert Entries(f, 3) == [];
    assert Entries(f, 2) == [UInt(2), UInt(0)];
  }

  lemma OddSize(n: nat, data: seq<byte>)
    requires 0x1_0000 <= n < 0x1_0000_0000 && 0x1_0000 <= |data| < 0x1_0000_0000
    ensures |Encode(OddValue(n, data))| == 15 + n + |data|
  {
    hide EncodeAll, Repeat;
    var nulls := Array(Repeat(Null, n));
    var last := [UInt(8), Bytes(data)];
    PairOnly(8, Bytes(data));
    PairSize(6, nulls, last);
    PairSize(0, UInt(6), [UInt(6), nulls] + last);
    CopiesSize(Null, n);
    EmptyRefSize();
    HeadSize(4, n);
    HeadSize(2, |data|);
    HeadSize(5, 3);
    HeadSize(0, 6);
    assert [UInt(0), UInt(6)] + ([UInt(6), nulls] + last) == OddFlat(n, data);
  }

  lemma OddLookup(n: nat, data: seq<byte>, k: nat)
    ensures Lookup(OddFlat(n, data), k)
         == if k == 0 then Some(UInt(6)) else if k == 6 then Some(Array(Repeat(Null, n)))
            else if k == 8 then Some(Bytes(data)) else None
  {
    var nulls, bytes, flat := Array(Repeat(Null, n)), Bytes(data), OddFlat(n, data);
    assert flat[2..] == [UInt(6), nulls, UInt(8), bytes];
    assert flat[2..][2..] == [UInt(8), bytes];
    assert flat[2..][2..][2..] == [];
    assert Lookup(flat[2..][2..][2..], k) == None;
    assert Lookup(flat[2..][2..], k) == if k == 8 then Some(bytes) else None;
    assert Lookup(flat[2..], k) == if k == 6 then Some(nulls) else if k == 8 then Some(bytes) else None;
  }

  lemma OddParts(n: nat, data: seq<byte>)
    ensures PartsOf(OddFlat(n, data), ALL_KEYS).Assemble() == Some(OddMsg(n, data))
  {
    hide Lookup, OddFlat, Repeat, ReadRefInfo;
    var flat := OddFlat(n, data);
    forall k: nat | k < 18
      ensures Known(flat, ALL_KEYS, k)
           == if k == 0 then Some(UInt(6)) else if k == 6 then Some(Array(Repeat(Null, n)))
              else if k == 8 then Some(Bytes(data)) else None
    {
      OddLookup(n, data, k);
    }
    NullsRead(n);
  }

  lemma OddUnmarshal(n: nat, data: seq<byte>)
    requires n <= MAX_ELEMENTS && |data| < TWO_64
    ensures Unmarshal(Encode(OddValue(n, data))) == Some(OddMsg(n, data))
  {
    hide Encode, Decode, PartsOf, OddMsg, Repeat;
    var v := OddValue(n, data);
    assert Encode(v) + [] == Encode(v);
    OddValueOk(n, data);
    DecodeEncode(v, []);
    OddParts(n, data);
  }

  lemma OddValueOk(n: nat, data: seq<byte>)
    requires n <= MAX_ELEMENTS && |data| < TWO_64
    ensures Encodable(OddValue(n, data)) && Acceptable(OddValue(n, data))
  {
    var nulls := Array(Repeat(Null, n));
    assert Encodable(nulls) && Acceptable(nulls);
  }

  lemma {:induction false} SmallerField(f: seq<Option<Value>>, from: nat, k: nat)
    requires from <= k < |f| && f[k].Some?
    ensures |EncodeAll(Entries(f, from))| >= |Encode(f[k].value)|
    decreases k - from
  {
    hide Encode, EncodeAll;
    if from < k {
      SmallerField(f, from + 1, k);
    }
    if f[from].Some? {
      FirstPair(UInt(from), f[from].value, Entries(f, from + 1));
    } else {
      assert Entries(f, from) == Entries(f, from + 1);
    }
  }

  lemma FirstPair(a: Value, b: Value, rest: seq<Value>)
    ensures |EncodeAll([a, b] + rest)| == |Encode(a)| + |Encode(b)| + |EncodeAll(rest)|
  {
    hide Encode;
    var all := [a, b] + rest;
    assert all[1..] == [b] + rest && all[1..][1..] == rest;
  }

  /** Two fields of a message take at least what they take by themselves. */
  lemma TwoFieldsTake(f: seq<Option<Value>>, from: nat, j: nat, k: nat)
    requires from <= j < k < |f| && f[j].Some? && f[k].Some?
    ensures |EncodeAll(Entries(f, from))| >= |Encode(f[j].value)| + |Encode(f[k].value)|
    decreases j - from
  {
    hide Encode, EncodeAll;
    if from < j {
      TwoFieldsTake(f, from + 1, j, k);
    } else {
      SmallerField(f, from + 1, k);
    }
    if f[from].Some? {
      FirstPair(UInt(from), f[from].value, Entries(f, from + 1));
    } else {
      assert Entries(f, from) == Entries(f, from + 1);
    }
  }

  lemma OddRewritten(n: nat, data: seq<byte>)
    requires n > 0 && data != []
    ensures |Marshal(OddMsg(n, data))| >= 7 * n + |data|
  {
    hide Encode, EncodeAll, Entries, Repeat, RefInfoValue;
    var m := OddMsg(n, data);
    TwoFieldsTake(Fields(m), 0, 6, 8);
    OddFields(n, data);
    CopiesSize(RefInfoValue(NO_REF), n);
    EmptyRefSize();
    ListSize(Repeat(RefInfoValue(NO_REF), n));
    BytesSize(data);
    StructSize(Fields(m));
  }

  lemma OddFields(n: nat, data: seq<byte>)
    requires n > 0 && data != []
    ensures Fields(OddMsg(n, data))[6] == Some(Array(Repeat(RefInfoValue(NO_REF), n)))
    ensures Fields(OddMsg(n, data))[8] == Some(Bytes(data))
  {
    hide RefInfoValue;
    LowFields(OddMsg(n, data));
    assert Image(RefInfoValue, Repeat(NO_REF, n)) == Repeat(RefInfoValue(NO_REF), n);
  }

  lemma ListSize(items: seq<Value>)
    ensures |Encode(Array(items))| >= |EncodeAll(items)|
  {
  }

  lemma BytesSize(b: seq<byte>)
    ensures |Encode(Bytes(b))| >= |b|
  {
  }

  lemma StructSize(f: seq<Option<Value>>)
    ensures |Encode(Struct(f))| >= |EncodeAll(Entries(f, 0))|
  {
  }

  /** Every frame whose payload is within the limit is read, whoever wrote it. */
  lemma PayloadRead(payload: seq<byte>, m: Msg)
    requires |payload| <= MAX_FRAME && Unmarshal(payload) == Some(m)
    ensures ParseFrame(BigEndian(|payload|, 4) + payload) == Got(m, [])
  {
    hide Unmarshal, Decode;
    NoPayload();
    HeaderRoundTrip(|payload|, payload);
    assert payload[..|payload|] == payload;
  }

  lemma NoPayload()
    ensures Unmarshal([]) == None
  {
  }

  /**
   A want frame can be received that cannot be put back: a full frame of null references,
   each of which takes six more bytes when it is written again.
   */
  lemma UnreplayableFrame()
    ensures exists bs, m, rest :: ParseFrame(bs) == Got(m, rest) && m.typ == T_WANTS && !Writable(m)
  {
    hide ParseFrame, Unmarshal, Encode, Marshal, OddMsg, OddValue;
    var n, data := MAX_ELEMENTS, Repeat(0 as byte, MAX_FRAME - MAX_ELEMENTS - 15);
    var payload := Encode(OddValue(n, data));
    OddSize(n, data);
    OddUnmarshal(n, data);
    OddRewritten(n, data);
    OddType(n, data);
    PayloadRead(payload, OddMsg(n, data));
    assert ParseFrame(BigEndian(|payload|, 4) + payload) == Got(OddMsg(n, data), []);
  }

  lemma OddType(n: nat, data: seq<byte>)
    ensures OddMsg(n, data).typ == T_WANTS
  {
  }

  // ---------- the program ----------

  /** One direction of a stream: what was written and not yet read. Reading past it finds the end. */
  class Pipe {
    var bytes: seq<byte>

    constructor ()
      ensures bytes == []
    {
      bytes := [];
    }

    /** A write can break off anywhere. */
    method Write(p: seq<byte>) returns (ok: bool)
      modifies this
      ensures ok ==> bytes == old(bytes) + p
      ensures !ok ==> exists k :: 0 <= k <= |p| && bytes == old(bytes) + p[..k]
    {
      if * {
        bytes := bytes + p;
        ok := true;
      } else {
        var k: nat :| k <= |p|;
        bytes := bytes + p[..k];
        ok := false;
      }
    }

    /** Some bytes, at most `max`, or none at the end. */
    method Read(max: nat) returns (p: seq<byte>)
      requires max > 0
      modifies this
      ensures old(bytes) == p + bytes && |p| <= max
      ensures p == [] <==> old(bytes) == []
    {
      if bytes == [] {
        return [];
      }
      var k: nat :| 1 <= k <= max && k <= |bytes|;
      p, bytes := bytes[..k], bytes[k..];
    }
  }

  /** Reads exactly `n` bytes, over as many reads as it takes. */
  method ReadFull(r: Pipe, n: nat) returns (p: seq<byte>, e: Option<ReadError>)
    modifies r
    ensures old(r.bytes) == p + r.bytes
    ensures e.None? <==> |old(r.bytes)| >= n
    ensures e.None? ==> |p| == n
    ensures e.Some? ==> r.bytes == [] && e.value == if p == [] then Eof else UnexpectedEof
  {
    p, e := [], None;
    while |p| < n
      invariant |p| <= n && old(r.bytes) == p + r.bytes
    {
      var more := r.Read(n - |p|);
      if more == [] {
        e := Some(if p == [] then Eof else UnexpectedEof);
        return;
      }
      p := p + more;
    }
  }

  method WriteMsg(w: Pipe, m: Msg) returns (ok: bool)
    modifies w
    ensures ok ==> Writable(m) && w.bytes == old(w.bytes) + Frame(m)
    ensures ok ==> Header(Frame(m), |Marshal(m)|) && Frame(m)[4..] == Marshal(m)
    ensures !Writable(m) ==> !ok && w.bytes == old(w.bytes)
    ensures !ok && Writable(m) ==> exists k :: 0 <= k <= |Frame(m)| && w.bytes == old(w.bytes) + Frame(m)[..k]
  {
    var payload := Marshal(m);
    if |payload| > MAX_FRAME {
      return false;
    }
    ghost var before := w.bytes;
    var hdr := BigEndian(|payload|, 4);
    ok := w.Write(hdr);
    if !ok {
      ghost var k :| 0 <= k <= |hdr| && w.bytes == before + hdr[..k];
      assert Frame(m)[..k] == hdr[..k];
      return;
    }
    ok := w.Write(payload);
    if ok {
      assert before + hdr + payload == before + Frame(m);
      FrameBytes(m);
    } else {
      ghost var k :| 0 <= k <= |payload| && w.bytes == before + hdr + payload[..k];
      assert Frame(m)[..4 + k] == hdr + payload[..k];
      assert before + hdr + payload[..k] == before + (hdr + payload[..k]);
    }
  }

  /** Reading one frame off a stream is ParseFrame of what is on it. */
  method ReadMsg(r: Pipe) returns (m: Result<Msg, ReadError>)
    modifies r
    ensures match ParseFrame(old(r.bytes))
            case Got(msg, rest) => m == Ok(msg) && r.bytes == rest
            case Failed(e) => m == Err(e)
    ensures forall n: nat | Header(old(r.bytes), n) && n > MAX_FRAME :: m == Err(Oversize(n))
    ensures forall n: nat | Header(old(r.bytes), n) && n <= MAX_FRAME && |old(r.bytes)| >= 4 + n ::
              m == if Unmarshal(old(r.bytes)[4..4 + n]).Some? then Ok(Unmarshal(old(r.bytes)[4..4 + n]).value)
                   else Err(Malformed)
  {
    ghost var bs := r.bytes;
    forall n: nat | Header(bs, n)
      ensures n > MAX_FRAME ==> ParseFrame(bs) == Failed(Oversize(n))
      ensures n <= MAX_FRAME && |bs| >= 4 + n ==>
                ParseFrame(bs) == match Unmarshal(bs[4..4 + n])
                                  case None => Failed(Malformed)
                                  case Some(m) => Got(m, bs[4 + n..])
    {
      ParseByHeader(bs, n);
    }
    var hdr, e := ReadFull(r, 4);
    if e.Some? {
      return Err(e.value);
    }
    assert hdr == bs[..4] && r.bytes == bs[4..];
    var n := FromBigEndian(hdr);
    if n > MAX_FRAME {
      return Err(Oversize(n));
    }
    var payload;
    payload, e := ReadFull(r, n);
    if e.Some? {
      return Err(ShortFrame(e.value));
    }
    assert payload == bs[4..][..n] && r.bytes == bs[4..][n..];
    var msg := Unmarshal(payload);
    m := if msg.Some? then Ok(msg.value) else Err(Malformed);
  }
}

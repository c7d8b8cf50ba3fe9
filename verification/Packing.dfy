/**
 A pack inside data frames: the writer cuts a byte stream into chunks whatever sizes it is
 written in, the reader joins them again whatever sizes it is read in.
 */
module Packing {
  import opened Basics
  import opened Cbor
  import opened Messages
  import opened Frames

  // ---------- what a pack looks like on the wire ----------

  /** The bytes in pieces of CHUNK_SIZE, the last one possibly shorter. */
  function Chunks(d: seq<byte>): seq<seq<byte>>
    decreases |d|
  {
    if d == [] then []
    else if |d| <= CHUNK_SIZE then [d]
    else [d[..CHUNK_SIZE]] + Chunks(d[CHUNK_SIZE..])
  }

  function Concat(pieces: seq<seq<byte>>): seq<byte> {
    if pieces == [] then [] else pieces[0] + Concat(pieces[1..])
  }

  /** Every chunk is full except a non-empty last one, together they are the bytes, and none is wasted. */
  lemma {:induction false} ChunksMeaning(d: seq<byte>)
    ensures Concat(Chunks(d)) == d
    ensures forall i | 0 <= i < |Chunks(d)| - 1 :: |Chunks(d)[i]| == CHUNK_SIZE
    ensures forall i | 0 <= i < |Chunks(d)| :: 0 < |Chunks(d)[i]| <= CHUNK_SIZE
    ensures |Chunks(d)| == (|d| + CHUNK_SIZE - 1) / CHUNK_SIZE
    decreases |d|
  {
    if 0 < |d| <= CHUNK_SIZE {
      assert Chunks(d)[1..] == [];
    } else if d != [] {
      ChunksMeaning(d[CHUNK_SIZE..]);
      assert Chunks(d)[1..] == Chunks(d[CHUNK_SIZE..]);
      assert d == d[..CHUNK_SIZE] + d[CHUNK_SIZE..];
    }
  }

  /** Full chunks come out the same whatever follows them. */
  lemma {:induction false} ChunksAppend(full: seq<byte>, more: seq<byte>)
    requires |full| % CHUNK_SIZE == 0
    ensures Chunks(full + more) == Chunks(full) + Chunks(more)
    decreases |full|
  {
    var d := full + more;
    if full == [] {
      assert d == more;
    } else {
      assert |full| >= CHUNK_SIZE;
      var rest := full[CHUNK_SIZE..];
      ChunksAppend(rest, more);
      assert d[..CHUNK_SIZE] == full[..CHUNK_SIZE] && d[CHUNK_SIZE..] == rest + more;
      FirstChunk(full);
      if more == [] {
        assert d == full;
      } else {
        FirstChunk(d);
      }
    }
  }

  lemma FirstChunk(d: seq<byte>)
    requires |d| >= CHUNK_SIZE
    ensures Chunks(d) == [d[..CHUNK_SIZE]] + Chunks(d[CHUNK_SIZE..])
  {
    if |d| == CHUNK_SIZE {
      assert d[..CHUNK_SIZE] == d;
    }
  }

  lemma OneChunk(d: seq<byte>)
    requires 0 < |d| <= CHUNK_SIZE
    ensures Chunks(d) == [d]
  {
  }

  function DataFrames(chunks: seq<seq<byte>>): (ms: seq<Msg>)
    ensures |ms| == |chunks| && forall i | 0 <= i < |ms| :: ms[i] == DataMsg(chunks[i])
  {
    seq(|chunks|, i requires 0 <= i < |chunks| => DataMsg(chunks[i]))
  }

  function PackFrames(d: seq<byte>): seq<Msg> { DataFrames(Chunks(d)) + [DATA_END] }

  /** No frame of a pack is refused by the frame writer. */
  lemma PackFramesFit(d: seq<byte>)
    ensures Sendable(PackFrames(d))
  {
    hide Writable, WellFormed, Chunks;
    ChunksMeaning(d);
    DataEndFits();
    forall m | m in PackFrames(d)
      ensures Writable(m) && WellFormed(m)
    {
      if m in DataFrames(Chunks(d)) {
        var i :| 0 <= i < |Chunks(d)| && DataFrames(Chunks(d))[i] == m;
        DataFrameFits(Chunks(d)[i]);
      }
    }
  }

  // ---------- reading a pack ----------

  datatype PackError =
    | StreamError(e: ReadError)
    | RemoteError(code: seq<byte>, text: seq<byte>, current: seq<byte>)
    | UnexpectedFrame(typ: int64)

  /** The end of the pack, with the stream after it; or how it went wrong. */
  datatype End = Finished(after: seq<byte>) | Lost(e: PackError)

  /** What a reader still has to deliver, and how that ends. */
  datatype Rest = Rest(data: seq<byte>, end: End)

  function Unpack(bs: seq<byte>): Rest
    decreases |bs|
  {
    match ParseFrame(bs)
    case Failed(e) => Rest([], Lost(StreamError(e)))
    case Got(m, rest) =>
      if m.typ == T_DATA then Rest(m.data + Unpack(rest).data, Unpack(rest).end)
      else if m.typ == T_DATA_END then Rest([], Finished(rest))
      else if m.typ == T_ERR then Rest([], Lost(RemoteError(m.code, m.text, m.current)))
      else Rest([], Lost(UnexpectedFrame(m.typ)))
  }

  const EOF: PackError := StreamError(Eof)

  /** What the caller is told: the end of the pack looks like the end of the stream. */
  function Visible(end: End): PackError {
    match end
    case Finished(_) => EOF
    case Lost(e) => e
  }

  lemma UnpackChunk(chunk: seq<byte>, rest: seq<byte>)
    requires |chunk| <= CHUNK_SIZE
    ensures Unpack(Frame(DataMsg(chunk)) + rest) == Rest(chunk + Unpack(rest).data, Unpack(rest).end)
  {
    hide WellFormed, Writable, Frame, ParseFrame;
    DataFrameFits(chunk);
    FrameRoundTrip(DataMsg(chunk), rest);
  }

  lemma UnpackEnd(rest: seq<byte>)
    ensures Unpack(Frame(DATA_END) + rest) == Rest([], Finished(rest))
  {
    hide WellFormed, Writable, Frame, ParseFrame;
    DataEndFits();
    FrameRoundTrip(DATA_END, rest);
  }

  lemma {:induction false} UnpackFrames(chunks: seq<seq<byte>>, rest: seq<byte>)
    requires forall i | 0 <= i < |chunks| :: |chunks[i]| <= CHUNK_SIZE
    ensures Unpack(Stream(DataFrames(chunks)) + rest) == Rest(Concat(chunks) + Unpack(rest).data, Unpack(rest).end)
  {
    hide Unpack, Frame;
    if chunks == [] {
      assert Stream(DataFrames(chunks)) + rest == rest;
      assert Concat(chunks) + Unpack(rest).data == Unpack(rest).data;
    } else {
      var more := Stream(DataFrames(chunks[1..])) + rest;
      UnpackFrames(chunks[1..], rest);
      UnpackChunk(chunks[0], more);
      assert DataFrames(chunks)[1..] == DataFrames(chunks[1..]);
      assert Stream(DataFrames(chunks)) + rest == Frame(DataMsg(chunks[0])) + more;
      assert Concat(chunks) + Unpack(rest).data == chunks[0] + (Concat(chunks[1..]) + Unpack(rest).data);
    }
  }

  lemma {:induction false} SingleFrame(m: Msg)
    ensures Stream([m]) == Frame(m)
  {
    assert [m][1..] == [];
    assert Stream([m][1..]) == [];
  }

  /** Reading a pack gives back exactly the bytes that were written and stops right behind its end. */
  lemma PackRoundTrip(d: seq<byte>, tail: seq<byte>)
    ensures Unpack(Stream(PackFrames(d)) + tail) == Rest(d, Finished(tail))
  {
    hide Unpack, Frame, Stream, DataFrames, Chunks, Concat;
    ChunksMeaning(d);
    StreamAppend(DataFrames(Chunks(d)), [DATA_END]);
    SingleFrame(DATA_END);
    UnpackEnd(tail);
    UnpackFrames(Chunks(d), Frame(DATA_END) + tail);
    assert Stream(PackFrames(d)) + tail == Stream(DataFrames(Chunks(d))) + (Frame(DATA_END) + tail);
  }

  // ---------- the end that is no end ----------

  /** How many data frames a list of messages begins with. */
  function DataPrefix(ms: seq<Msg>): (n: nat)
    ensures n <= |ms|
    ensures forall i | 0 <= i < n :: ms[i].typ == T_DATA
    ensures n < |ms| ==> ms[n].typ != T_DATA
  {
    if ms == [] || ms[0].typ != T_DATA then 0 else 1 + DataPrefix(ms[1..])
  }

  function DataOf(ms: seq<Msg>): seq<byte> {
    if ms == [] then [] else ms[0].data + DataOf(ms[1..])
  }

  function FirstOther(ms: seq<Msg>, e: ReadError): PackError {
    var n := DataPrefix(ms);
    if n == |ms| then StreamError(e)
    else if ms[n].typ == T_DATA_END then EOF
    else if ms[n].typ == T_ERR then RemoteError(ms[n].code, ms[n].text, ms[n].current)
    else UnexpectedFrame(ms[n].typ)
  }

  /** What a reader makes of the messages `ms` followed by the stream error `e`. */
  ghost predicate Meant(u: Rest, ms: seq<Msg>, e: ReadError) {
    && u.data == DataOf(ms[..DataPrefix(ms)])
    && Visible(u.end) == FirstOther(ms, e)
    && (u.end.Finished? <==> DataPrefix(ms) < |ms| && ms[DataPrefix(ms)].typ == T_DATA_END)
  }

  /** A pack's content and end are decided by the messages on the stream up to the first that is no data. */
  lemma {:induction false} UnpackMeaning(bs: seq<byte>)
    ensures Meant(Unpack(bs), Frames.ReadAll(bs).0, Frames.ReadAll(bs).1)
    decreases |bs|
  {
    hide Meant, ParseFrame;
    match ParseFrame(bs)
    case Failed(e) => MeantNothing(e);
    case Got(m, rest) =>
      UnpackMeaning(rest);
      MeantNext(m, Unpack(rest), Frames.ReadAll(rest).0, Frames.ReadAll(rest).1);
      MeantOther(m, Unpack(bs), Frames.ReadAll(rest).0, Frames.ReadAll(rest).1);
  }

  lemma MeantNothing(e: ReadError)
    ensures Meant(Rest([], Lost(StreamError(e))), [], e)
  {
  }

  lemma MeantNext(m: Msg, u: Rest, ms: seq<Msg>, e: ReadError)
    requires Meant(u, ms, e)
    ensures m.typ == T_DATA ==> Meant(Rest(m.data + u.data, u.end), [m] + ms, e)
  {
    var n := DataPrefix(ms);
    assert ([m] + ms)[1..] == ms;
    assert ([m] + ms)[..n + 1] == [m] + ms[..n];
    assert ([m] + ms)[..n + 1][1..] == ms[..n];
  }

  lemma MeantOther(m: Msg, u: Rest, ms: seq<Msg>, e: ReadError)
    requires m.typ != T_DATA ==> u.data == []
    requires m.typ == T_DATA_END ==> u.end.Finished?
    requires m.typ == T_ERR ==> u.end == Lost(RemoteError(m.code, m.text, m.current))
    requires m.typ !in {T_DATA, T_DATA_END, T_ERR} ==> u.end == Lost(UnexpectedFrame(m.typ))
    ensures m.typ != T_DATA ==> Meant(u, [m] + ms, e)
  {
  }

  /**
   When a reader of a pack reports the end: exactly when the data frames are followed by
   the end frame, or by nothing at all because the stream was cut between two frames.
   */
  lemma {:induction false} EofMeaning(bs: seq<byte>)
    ensures var (ms, e) := Frames.ReadAll(bs);
            Visible(Unpack(bs).end) == EOF <==>
              if DataPrefix(ms) < |ms| then ms[DataPrefix(ms)].typ == T_DATA_END else e == Eof
  {
    hide Unpack;
    UnpackMeaning(bs);
  }

  /** The end of the stream passes for the end of a pack: with no end frame at all, and with data missing. */
  lemma EofWithoutEndFrame(d: seq<byte>)
    requires |d| > CHUNK_SIZE
    ensures exists cut ::
              && 0 < cut < |Stream(PackFrames(d))|
              && Visible(Unpack(Stream(PackFrames(d))[..cut]).end) == EOF
              && !Unpack(Stream(PackFrames(d))[..cut]).end.Finished?
              && Unpack(Stream(PackFrames(d))[..cut]).data == d[..CHUNK_SIZE] != d
  {
    hide Unpack, Frame;
    var first := DataMsg(d[..CHUNK_SIZE]);
    var cut := |Frame(first)|;
    ChunksMeaning(d);
    assert PackFrames(d)[0] == first && |PackFrames(d)| > 1;
    assert Stream(PackFrames(d))[..cut] == Frame(first);
    FrameShape(first, []);
    assert |Stream(PackFrames(d)[1..])| >= 4 by {
      FrameShape(PackFrames(d)[1], []);
    }
    UnpackChunk(d[..CHUNK_SIZE], []);
    UnpackNothing();
    assert Frame(first) + [] == Frame(first);
  }

  lemma UnpackNothing()
    ensures Unpack([]) == Rest([], Lost(EOF))
  {
  }

  // ---------- cut packs ----------

  lemma {:induction false} DataPrefixOfData(chunks: seq<seq<byte>>, more: seq<Msg>)
    requires more == [] || more[0].typ != T_DATA
    ensures DataPrefix(DataFrames(chunks) + more) == |chunks|
    ensures DataOf(DataFrames(chunks)) == Concat(chunks)
  {
    var ms := DataFrames(chunks) + more;
    if chunks == [] {
      assert ms == more;
    } else {
      assert ms[1..] == DataFrames(chunks[1..]) + more;
      assert DataFrames(chunks)[1..] == DataFrames(chunks[1..]);
      DataPrefixOfData(chunks[1..], more);
    }
  }

  /**
   A pack cut anywhere before its end never finishes: the reader delivers the data of the
   whole frames before the cut and reports where in the next frame the cut lies.
   */
  lemma CutPack(d: seq<byte>, cut: nat)
    requires cut < |Stream(PackFrames(d))|
    ensures var (n, u) := (WholeFrames(PackFrames(d), cut), Unpack(Stream(PackFrames(d))[..cut]));
            && n <= |Chunks(d)|
            && u == Rest(Concat(Chunks(d)[..n]), Lost(StreamError(CutError(CutOffset(PackFrames(d), cut)))))
  {
    hide *;
    var ms, n := PackFrames(d), WholeFrames(PackFrames(d), cut);
    PackFramesFit(d);
    TruncatedStream(ms, cut);
    UnpackMeaning(Stream(ms)[..cut]);
    NotAllFrames(ms, n, cut, CutOffset(ms, cut));
    PackBeginning(d, n);
    MeantData(Unpack(Stream(ms)[..cut]), Chunks(d)[..n], CutError(CutOffset(ms, cut)));
  }

  lemma NotAllFrames(ms: seq<Msg>, n: nat, cut: nat, offset: nat)
    requires n <= |ms| && |Stream(ms[..n])| + offset == cut < |Stream(ms)|
    ensures n < |ms|
  {
    hide Stream;
    assert ms[..|ms|] == ms;
  }

  lemma PackBeginning(d: seq<byte>, n: nat)
    requires n < |PackFrames(d)|
    ensures n <= |Chunks(d)| && PackFrames(d)[..n] == DataFrames(Chunks(d)[..n])
  {
    hide Chunks;
  }

  lemma MeantData(u: Rest, chunks: seq<seq<byte>>, e: ReadError)
    requires Meant(u, DataFrames(chunks), e)
    ensures u == Rest(Concat(chunks), Lost(StreamError(e)))
  {
    var ms := DataFrames(chunks);
    DataPrefixOfData(chunks, []);
    assert ms + [] == ms && ms[..|ms|] == ms;
  }

  // ---------- the reading program ----------

  class PackReader {
    const r: Pipe
    var cur: seq<byte>
    var done: bool
    var err: Option<PackError>

    constructor (r: Pipe)
      ensures this.r == r && Valid() && Pending() == Unpack(r.bytes)
    {
      this.r, cur, done, err := r, [], false, None;
      new;
      assert cur + Unpack(r.bytes).data == Unpack(r.bytes).data;
    }

    ghost predicate Valid()
      reads this
    {
      done || err.Some? ==> cur == []
    }

    /** What is still to come: the current frame's rest and what the stream holds. */
    ghost function Pending(): Rest
      reads this, r
    {
      if err.Some? then Rest([], Lost(err.value))
      else if done then Rest([], Finished(r.bytes))
      else Rest(cur + Unpack(r.bytes).data, Unpack(r.bytes).end)
    }

    /** Some of the pending bytes, or their end; an end once reported is reported for good. */
    method Read(max: nat) returns (b: seq<byte>, e: Option<PackError>)
      requires Valid()
      modifies this, r
      ensures Valid()
      ensures e.Some? <==> old(Pending()).data == []
      ensures e.Some? ==> b == [] && e.value == Visible(old(Pending()).end)
      ensures e.None? ==> |b| <= max && (max > 0 ==> b != [])
      ensures Pending().end == old(Pending()).end && old(Pending()).data == b + Pending().data
    {
      hide ParseFrame;
      b := [];
      while cur == []
        invariant Valid() && Pending() == old(Pending())
        decreases |r.bytes|
      {
        if err.Some? {
          return b, err;
        }
        if done {
          return b, Some(EOF);
        }
        var m := ReadMsg(r);
        if m.Err? {
          err := Some(StreamError(m.error));
          return b, err;
        }
        if m.value.typ == T_DATA {
          cur := m.value.data;
        } else if m.value.typ == T_DATA_END {
          done := true;
        } else if m.value.typ == T_ERR {
          err := Some(RemoteError(m.value.code, m.value.text, m.value.current));
          return b, err;
        } else {
          err := Some(UnexpectedFrame(m.value.typ));
          return b, err;
        }
      }
      var n := if |cur| < max then |cur| else max;
      assert cur == cur[..n] + cur[n..];
      b, cur, e := cur[..n], cur[n..], None;
    }
  }

  /** Reads to the end, in pieces of any positive sizes. */
  method Drain(p: PackReader) returns (d: seq<byte>, e: PackError)
    requires p.Valid()
    modifies p, p.r
    ensures d == old(p.Pending()).data && e == Visible(old(p.Pending()).end)
    ensures p.Valid() && p.Pending() == Rest([], old(p.Pending()).end)
  {
    hide *;
    d := [];
    while true
      invariant p.Valid() && p.Pending().end == old(p.Pending()).end
      invariant old(p.Pending()).data == d + p.Pending().data
      decreases |p.Pending().data|
    {
      var max: nat :| max > 0;
      var b, end := p.Read(max);
      if end.Some? {
        return d, end.value;
      }
      d := d + b;
    }
  }

  // ---------- the writing program ----------

  class ChunkWriter {
    const w: Pipe
    var buf: seq<byte>
    /** What the stream held before, the bytes flushed since, and whether a frame failed. */
    ghost const base: seq<byte>
    ghost var full: seq<byte>
    ghost var broken: bool

    constructor (w: Pipe)
      ensures this.w == w && Valid() && !broken && base == w.bytes && Written() == []
    {
      this.w, buf := w, [];
      base, full, broken := w.bytes, [], false;
      new;
      assert base + [] == base;
    }

    /** All bytes written so far: those flushed in full chunks, and the buffer. */
    ghost function Written(): seq<byte>
      reads this
    {
      full + buf
    }

    ghost predicate Valid()
      reads this, w
    {
      && |buf| < CHUNK_SIZE
      && (!broken ==> |full| % CHUNK_SIZE == 0 && w.bytes == base + Stream(DataFrames(Chunks(full))))
    }

    /** Writes the buffer out as one frame, if there is anything in it. */
    method Flush() returns (ok: bool)
      requires |buf| <= CHUNK_SIZE
      requires !broken ==> |full| % CHUNK_SIZE == 0 && w.bytes == base + Stream(DataFrames(Chunks(full)))
      modifies this, w
      ensures buf == []
      ensures !ok ==> broken
      ensures broken == (old(broken) || !ok)
      ensures !broken ==> full == old(full + buf) && w.bytes == base + Stream(DataFrames(Chunks(full)))
      ensures !ok && !old(broken) ==> forall more :: more != [] ==>
                w.bytes < base + Stream(DataFrames(Chunks(old(full + buf))) + more)
    {
      hide Frame, Chunks, DataFrames, Stream;
      if buf == [] {
        assert full + buf == full;
        return true;
      }
      DataFrameFits(buf);
      ok := WriteMsg(w, DataMsg(buf));
      if !broken {
        NextFrame(full, buf);
        if !ok {
          ghost var k :| 0 <= k <= |Frame(DataMsg(buf))|
                      && w.bytes == old(w.bytes) + Frame(DataMsg(buf))[..k];
          CutChunk(base, full, buf, k, w.bytes);
        }
      }
      full := full + buf;
      broken := broken || !ok;
      buf := [];
    }

    method Write(p0: seq<byte>) returns (ok: bool)
      requires Valid()
      modifies this, w
      ensures Valid()
      ensures broken == (old(broken) || !ok)
      ensures !broken ==> Written() == old(Written()) + p0
      ensures !ok && !old(broken) ==> forall more :: w.bytes < base + Stream(PackFrames(old(Written()) + p0 + more))
    {
      hide Chunks, DataFrames, Stream, PackFrames;
      var p := p0;
      while p != []
        invariant Valid() && broken == old(broken)
        invariant !broken ==> Written() + p == old(Written()) + p0
        decreases |p|
      {
        var room := CHUNK_SIZE - |buf|;
        var take := if room < |p| then room else |p|;
        ghost var all := Written() + p;
        assert all == full + (buf + p[..take]) + p[take..];
        buf, p := buf + p[..take], p[take..];
        if |buf| == CHUNK_SIZE {
          ghost var flushed := full + buf;
          ok := Flush();
          if !ok {
            if !old(broken) {
              CutWrite(base, flushed, p, w.bytes);
              assert flushed + p == old(Written()) + p0;
            }
            return;
          }
          assert full + buf == full;
        }
      }
      ok := true;
      assert Written() + p == Written();
    }

    /** Flushes what is left and ends the pack. */
    method Finish() returns (ok: bool)
      requires Valid()
      modifies this, w
      ensures ok && !old(broken) ==> w.bytes == base + Stream(PackFrames(old(Written())))
      ensures !ok && !old(broken) ==> w.bytes <= base + Stream(PackFrames(old(Written())))
    {
      hide Frame, Chunks, DataFrames, Stream, PackFrames;
      ghost var d := Written();
      ok := Flush();
      if !broken {
        EndFrame(base, d);
      }
      if !ok {
        if !old(broken) {
          CutBeforeEnd(base, d, w.bytes);
        }
        return;
      }
      DataEndFits();
      ghost var before := w.bytes;
      ok := WriteMsg(w, DATA_END);
      if !ok && !broken {
        ghost var k :| 0 <= k <= |Frame(DATA_END)| && w.bytes == before + Frame(DATA_END)[..k];
        CutEnd(before, Frame(DATA_END), k);
      }
    }
  }

  lemma EndFrame(base: seq<byte>, d: seq<byte>)
    ensures base + Stream(DataFrames(Chunks(d))) + Frame(DATA_END) == base + Stream(PackFrames(d))
  {
    hide Frame, Chunks, DataFrames, Stream;
    StreamAppend(DataFrames(Chunks(d)), [DATA_END]);
    SingleFrame(DATA_END);
  }

  lemma CutBeforeEnd(base: seq<byte>, d: seq<byte>, bytes: seq<byte>)
    requires forall more :: more != [] ==> bytes < base + Stream(DataFrames(Chunks(d)) + more)
    ensures bytes <= base + Stream(PackFrames(d))
  {
    hide Chunks, DataFrames, Stream;
  }

  /** Flushing a chunk extends the stream by its frame. */
  lemma NextFrame(full: seq<byte>, chunk: seq<byte>)
    requires |full| % CHUNK_SIZE == 0 && 0 < |chunk| <= CHUNK_SIZE
    ensures Stream(DataFrames(Chunks(full + chunk))) == Stream(DataFrames(Chunks(full))) + Frame(DataMsg(chunk))
    ensures DataFrames(Chunks(full + chunk)) == DataFrames(Chunks(full)) + [DataMsg(chunk)]
  {
    hide Frame, Stream;
    ChunksAppend(full, chunk);
    OneChunk(chunk);
    assert DataFrames(Chunks(full) + [chunk]) == DataFrames(Chunks(full)) + [DataMsg(chunk)];
    StreamAppend(DataFrames(Chunks(full)), [DataMsg(chunk)]);
    SingleFrame(DataMsg(chunk));
  }

  lemma CutIsPrefix(base: seq<byte>, a: seq<byte>, f: seq<byte>, k: nat, more: seq<byte>)
    requires k <= |f| && |more| > 0
    ensures base + a + f[..k] < base + (a + f + more)
  {
    assert base + (a + f + more) == base + a + f[..k] + (f[k..] + more);
  }

  lemma CutEnd(a: seq<byte>, f: seq<byte>, k: nat)
    requires k <= |f|
    ensures a + f[..k] <= a + f
  {
    assert a + f == a + f[..k] + f[k..];
  }

  /** A frame that broke off leaves a cut of the intended stream, whatever was to follow. */
  lemma CutChunk(base: seq<byte>, full: seq<byte>, chunk: seq<byte>, k: nat, bytes: seq<byte>)
    requires |full| % CHUNK_SIZE == 0 && 0 < |chunk| <= CHUNK_SIZE
    requires k <= |Frame(DataMsg(chunk))|
    requires bytes == base + Stream(DataFrames(Chunks(full))) + Frame(DataMsg(chunk))[..k]
    ensures forall more :: more != [] ==> bytes < base + Stream(DataFrames(Chunks(full + chunk)) + more)
  {
    hide Frame, Chunks, DataFrames, Stream;
    var f := Frame(DataMsg(chunk));
    NextFrame(full, chunk);
    forall more | more != []
      ensures bytes < base + Stream(DataFrames(Chunks(full + chunk)) + more)
    {
      StreamAppend(DataFrames(Chunks(full + chunk)), more);
      StreamNonEmpty(more);
      CutIsPrefix(base, Stream(DataFrames(Chunks(full))), f, k, Stream(more));
    }
  }

  lemma StreamNonEmpty(ms: seq<Msg>)
    requires ms != []
    ensures |Stream(ms)| > 0
  {
    FrameShape(ms[0], []);
  }

  lemma CutWrite(base: seq<byte>, flushed: seq<byte>, p: seq<byte>, bytes: seq<byte>)
    requires |flushed| % CHUNK_SIZE == 0
    requires forall more :: more != [] ==> bytes < base + Stream(DataFrames(Chunks(flushed)) + more)
    ensures forall more :: bytes < base + Stream(PackFrames(flushed + p + more))
  {
    hide Chunks, Stream, PackFrames, DataFrames;
    forall more
      ensures bytes < base + Stream(PackFrames(flushed + p + more))
    {
      assert flushed + p + more == flushed + (p + more);
      PackSplit(flushed, p + more);
    }
  }

  lemma PackSplit(full: seq<byte>, more: seq<byte>)
    requires |full| % CHUNK_SIZE == 0
    ensures PackFrames(full + more) == DataFrames(Chunks(full)) + PackFrames(more)
    ensures PackFrames(more) != []
  {
    hide Chunks, DataFrames;
    ChunksAppend(full, more);
    DataFramesAppend(Chunks(full), Chunks(more));
  }

  lemma DataFramesAppend(a: seq<seq<byte>>, b: seq<seq<byte>>)
    ensures DataFrames(a + b) == DataFrames(a) + DataFrames(b)
  {
  }

  // ---------- a whole pack ----------

  /** The bytes of the records before the first that could not be read. */
  function Content(records: seq<Option<seq<byte>>>): seq<byte> {
    if records == [] || records[0].None? then [] else records[0].value + Content(records[1..])
  }

  lemma ContentNext(records: seq<Option<seq<byte>>>, i: nat, d: seq<byte>, all: seq<byte>)
    requires i < |records| && all == d + Content(records[i..])
    ensures records[i].None? ==> all == d
    ensures records[i].Some? ==> all == d + records[i].value + Content(records[i + 1..])
  {
    assert records[i..][0] == records[i] && records[i..][1..] == records[i + 1..];
  }

  /** What was flushed of a pack that was given up is a proper cut of it: the end frame is missing. */
  lemma AbortedPrefix(base: seq<byte>, full: seq<byte>, buf: seq<byte>)
    requires |full| % CHUNK_SIZE == 0
    ensures base + Stream(DataFrames(Chunks(full))) < base + Stream(PackFrames(full + buf))
  {
    hide Chunks, DataFrames, Stream, PackFrames;
    PackSplit(full, buf);
    StreamAppend(DataFrames(Chunks(full)), PackFrames(buf));
    StreamNonEmpty(PackFrames(buf));
  }

  /**
   Sends the records as one pack. A record that cannot be read, or a failed write, leaves
   a cut of the pack of what could be read; after an unreadable record it is a proper cut,
   which no reader takes for a finished pack.
   */
  method SendPack(w: Pipe, records: seq<Option<seq<byte>>>) returns (ok: bool)
    modifies w
    ensures ok ==> None !in records && w.bytes == old(w.bytes) + Stream(PackFrames(Content(records)))
    ensures !ok ==> w.bytes <= old(w.bytes) + Stream(PackFrames(Content(records)))
    ensures None in records ==> !ok && w.bytes < old(w.bytes) + Stream(PackFrames(Content(records)))
  {
    hide Chunks, DataFrames, Stream, PackFrames, Content;
    ghost var all := Content(records);
    var cw := new ChunkWriter(w);
    assert records[0..] == records;
    for i := 0 to |records|
      invariant cw.Valid() && !cw.broken && cw.w == w && cw.base == old(w.bytes) && fresh(cw)
      invariant None !in records[..i] && all == cw.Written() + Content(records[i..])
    {
      ContentNext(records, i, cw.Written(), all);
      if records[i].None? {
        AbortedPrefix(cw.base, cw.full, cw.buf);
        return false;
      }
      ok := cw.Write(records[i].value);
      if !ok {
        return;
      }
    }
    assert records[..|records|] == records;
    assert records[|records|..] == [];
    NothingLeft();
    assert cw.Written() + [] == cw.Written();
    ok := cw.Finish();
  }

  lemma NothingLeft()
    ensures Content([]) == []
  {
  }
}

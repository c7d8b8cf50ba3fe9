/**
 The table of transfers in progress as the program keeps it: one bounded channel per
 token. Each method is one critical section or one channel operation; how they interleave
 is the subject of module Transfers.
 */
module AttachTable {
  import opened Basics
  import opened Transfers

  type Token = seq<bv8>

  class Stream {
    /** How often the stream was closed. */
    var closes: nat

    constructor ()
      ensures closes == 0
    {
      closes := 0;
    }

    method Close()
      modifies this
      ensures closes == old(closes) + 1
    {
      closes := closes + 1;
    }
  }

  class Channel {
    var buf: seq<Stream>

    constructor ()
      ensures buf == []
    {
      buf := [];
    }

    /** A send that does not wait. */
    method Offer(rw: Stream) returns (ok: bool)
      modifies this
      ensures ok <==> |old(buf)| < MAX_DATA_CONNS
      ensures buf == if ok then old(buf) + [rw] else old(buf)
    {
      ok := |buf| < MAX_DATA_CONNS;
      if ok {
        buf := buf + [rw];
      }
    }

    method Take() returns (rw: Option<Stream>)
      modifies this
      ensures if old(buf) == [] then rw == None && buf == [] else rw == Some(old(buf)[0]) && buf == old(buf)[1..]
    {
      if buf == [] {
        return None;
      }
      rw, buf := Some(buf[0]), buf[1..];
    }
  }

  ghost predicate Distinct(s: seq<Stream>) { forall i, j | 0 <= i < j < |s| :: s[i] != s[j] }

  class Table {
    var pending: map<Token, Channel>

    constructor ()
      ensures pending == map[]
    {
      pending := map[];
    }

    /** Registers a transfer under a token nobody else has. */
    method Create(token: Token) returns (ch: Channel)
      modifies this
      ensures fresh(ch) && ch.buf == [] && pending == old(pending)[token := ch]
    {
      ch := new Channel();
      pending := pending[token := ch];
    }

    method LookUp(token: Token) returns (ch: Option<Channel>)
      ensures ch == Get(pending, token)
    {
      ch := if token in pending then Some(pending[token]) else None;
    }

    /** Hands the stream over; on false it is still the caller's. */
    method Attach(token: Token, rw: Stream) returns (ok: bool)
      modifies if token in pending then {pending[token]} else {}
      ensures ok <==> token in pending && |old(pending[token].buf)| < MAX_DATA_CONNS
      ensures token in pending ==> pending[token].buf == old(pending[token].buf) + if ok then [rw] else []
    {
      var ch := LookUp(token);
      if ch.None? {
        return false;
      }
      ok := ch.value.Offer(rw);
    }

    /**
     Takes streams in order of arrival, `n` at most; the deadline may end it at any time.
     While it waits, streams out of `coming` may be handed over.
     */
    method Gather(token: Token, n: nat, coming: seq<Stream>) returns (out: seq<Stream>, arrived: nat)
      modifies if token in pending then {pending[token]} else {}
      ensures |out| <= n && arrived <= |coming|
      ensures token !in pending ==> out == [] && arrived == 0
      ensures token in pending ==> out + pending[token].buf == old(pending[token].buf) + coming[..arrived]
    {
      out, arrived := [], 0;
      if token !in pending {
        return;
      }
      var ch := pending[token];
      while |out| < n
        invariant |out| <= n && arrived <= |coming| && out + ch.buf == old(ch.buf) + coming[..arrived]
        decreases n - |out|, |coming| - arrived
      {
        if * {
          return;
        }
        var attached: bool := *;
        if attached && arrived < |coming| {
          ghost var held := out + ch.buf;
          var ok := ch.Offer(coming[arrived]);
          if ok {
            assert out + ch.buf == held + [coming[arrived]];
            assert coming[..arrived + 1] == coming[..arrived] + [coming[arrived]];
            arrived := arrived + 1;
            continue;
          }
        }
        ghost var held := out + ch.buf;
        var rw := ch.Take();
        if rw.None? {
          return;
        }
        out := out + [rw.value];
        assert out + ch.buf == held;
      }
    }

    /** Forgets the token and closes, once each, the streams nobody gathered. */
    method Drop(token: Token)
      requires token in pending ==> Distinct(pending[token].buf)
      modifies this, if token in pending then {pending[token]} else {},
               if token in pending then set x: Stream | x in pending[token].buf else {}
      ensures pending == old(pending) - {token}
      ensures token in old(pending) ==> old(pending[token]).buf == []
      ensures token in old(pending) ==> forall x: Stream | x in old(pending[token].buf) :: x.closes == old(x.closes) + 1
    {
      if token !in pending {
        return;
      }
      var ch := pending[token];
      pending := pending - {token};
      ghost var all, n := ch.buf, 0;
      while ch.buf != []
        invariant n <= |all| && ch.buf == all[n..] && all == old(ch.buf) && pending == old(pending) - {token}
        invariant forall i | 0 <= i < n :: all[i].closes == old(all[i].closes) + 1
        invariant forall i | n <= i < |all| :: all[i].closes == old(all[i].closes)
        decreases |all| - n
      {
        var rw := ch.Take();
        assert rw.value == all[n];
        rw.value.Close();
        n := n + 1;
      }
    }
  }
}

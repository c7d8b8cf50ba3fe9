/**
 The want frames the receiving loop writes, as bytes: no frame is ever refused for its size.
 */
module WantFrames {
  import opened Dag
  import opened Rounds
  import opened Dealing
  import opened Receiving
  import opened Cbor
  import Frames

  lemma {:induction false} ShardLength(wants: seq<Key>, owner: seq<nat>, i: nat, t: nat)
    requires t <= |wants| == |owner|
    ensures |Shard(wants, owner, i, t)| <= t
  {
    if t > 0 {
      ShardLength(wants, owner, i, t - 1);
    }
  }

  /** No channel is ever sent an empty want frame, or one with more keys than a round may ask for. */
  lemma {:induction false} FramesInBounds(log: Log, c: nat, m: nat)
    requires m <= |log.owners| && m <= |log.run.states|
    requires forall j | 0 <= j < m :: |log.owners[j]| == |log.run.states[j].Sent()|
    ensures |FramesOf(log, c, m)| <= m
    ensures forall f | f in FramesOf(log, c, m) :: 0 < |f| <= MAX_WANTS_PER_ROUND
  {
    hide Shard, SplitWants, WantList;
    if m > 0 {
      var sent := log.run.states[m - 1].Sent();
      FramesInBounds(log, c, m - 1);
      ShardLength(sent, log.owners[m - 1], c, |sent|);
    }
  }

  /** The wire form of keys: some bytes for each. */
  function Wire(keys: seq<Key>, form: Key -> seq<byte>): (r: seq<seq<byte>>)
    ensures |r| == |keys| && forall i | 0 <= i < |keys| :: r[i] == form(keys[i])
  {
    seq(|keys|, i requires 0 <= i < |keys| => form(keys[i]))
  }

  /** A want frame that asks for something and is within the frame limit. */
  ghost predicate Fits(f: seq<Key>, form: Key -> seq<byte>) {
    f != [] && Frames.Writable(Frames.WantsMsg(Wire(f, form)))
  }

  lemma WantFrameFits(f: seq<Key>, form: Key -> seq<byte>)
    requires 0 < |f| <= MAX_WANTS_PER_ROUND && forall k :: |form(k)| <= 254
    ensures Fits(f, form)
  {
    hide Frames.Writable, Frames.WantsMsg;
    forall k | k in Wire(f, form)
      ensures |k| <= 254
    {
      var i :| 0 <= i < |f| && Wire(f, form)[i] == k;
    }
    Frames.WantsFrameFits(Wire(f, form));
  }

  lemma SentInBounds(log: Log, n: nat, frames: seq<seq<seq<Key>>>, c: nat)
    requires FramesMatch(log, n, frames) && c < n
    ensures forall f | f in frames[c] :: 0 < |f| <= MAX_WANTS_PER_ROUND
  {
    hide DealtByThroughput, FramesOf, SplitWants, WantList;
    TracksDeal(log, n, frames);
    FramesInBounds(log, c, |log.owners|);
    assert frames[c] == FramesOf(log, c, |log.owners|);
  }

  /** With keys of at most 254 bytes, the frame writer takes every want frame of a run. */
  lemma EveryWantFrameFits(log: Log, n: nat, frames: seq<seq<seq<Key>>>, form: Key -> seq<byte>)
    requires FramesMatch(log, n, frames) && forall k :: |form(k)| <= 254
    ensures |frames| == n
    ensures forall c: nat, f | c < n && f in frames[c] :: Fits(f, form)
  {
    hide Fits, DealtByThroughput, FramesOf;
    forall c: nat, f | c < n && f in frames[c]
      ensures Fits(f, form)
    {
      SentInBounds(log, n, frames, c);
      WantFrameFits(f, form);
    }
  }
}

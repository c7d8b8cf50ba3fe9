/**
 The receiving loop, run to its end: from a root and a store, over any number of channels
 whose peers answer honestly or do anything at all.
 */
module Receiving {
  import opened Basics
  import opened Dag
  import opened Rounds
  import opened HonestRuns
  import opened Dealing
  import opened WantSync

  /** Rounds include the final empty one; `bytes` is what was read off the wire. */
  datatype Stats = Stats(rounds: nat, requested: nat, received: nat, bytes: nat)

  // ---------- one round over several channels ----------

  lemma {:induction false} KeysPermutation(a: seq<Object>, b: seq<Object>)
    requires multiset(a) == multiset(b)
    ensures multiset(Keys(a)) == multiset(Keys(b))
  {
    if a == [] {
      SamePermutationOfNothing(b);
      assert Keys(a) == Keys(b);
    } else {
      var i := RestIsPermutation(a, b);
      KeysPermutation(a[1..], b[..i] + b[i + 1..]);
      RemoveAt(Keys(b), i);
      assert Keys(b)[..i] + Keys(b)[i + 1..] == Keys(b[..i] + b[i + 1..]);
      assert Keys(a) == [a[0].key] + Keys(a[1..]);
    }
  }

  lemma {:induction false} SubShard(wants: seq<Key>, owner: seq<nat>, i: nat, t: nat)
    requires t <= |wants| == |owner|
    ensures multiset(Shard(wants, owner, i, t)) <= multiset(wants[..t])
  {
    if t > 0 {
      SubShard(wants, owner, i, t - 1);
      assert wants[..t] == wants[..t - 1] + [wants[t - 1]];
    }
  }

  lemma ShardDistinct(wants: seq<Key>, owner: seq<nat>, i: nat)
    requires |wants| == |owner| && forall k :: multiset(wants)[k] <= 1
    ensures Dedupe(Shard(wants, owner, i, |wants|)) == Shard(wants, owner, i, |wants|)
    ensures forall k | k in Shard(wants, owner, i, |wants|) :: k in wants
  {
    var shard := Shard(wants, owner, i, |wants|);
    SubShard(wants, owner, i, |wants|);
    assert wants[..|wants|] == wants;
    forall k
      ensures multiset(shard)[k] <= 1 && (k in shard ==> k in wants)
    {
      assert multiset(shard)[k] <= multiset(wants)[k] <= 1;
      assert k in shard ==> k in multiset(shard);
      assert k in multiset(wants) ==> k in wants;
    }
    DedupeDistinct(shard);
  }

  /** Packs that answer their shards add up to what the shards hold together. */
  lemma {:induction false} PacksMatchShards(wants: seq<Key>, owner: seq<nat>, packs: seq<seq<Object>>, x: Key)
    requires |wants| == |owner|
    requires forall i: nat | i < |packs| :: multiset(Keys(packs[i])) == multiset(Shard(wants, owner, i, |wants|))
    ensures Count(Keys(Flatten(packs)), x) == Copies(wants, owner, |packs|, |wants|, x)
  {
    hide Shard, Count;
    if packs == [] {
      CountNothing(Keys(Flatten(packs)), x);
    } else {
      var n := |packs| - 1;
      PacksMatchShards(wants, owner, packs[..n], x);
      CountKeys(Flatten(packs[..n]), packs[n], x);
      CountPermutation(Keys(packs[n]), Shard(wants, owner, n, |wants|), x);
    }
  }

  lemma CountNothing(ks: seq<Key>, x: Key)
    requires |ks| == 0
    ensures Count(ks, x) == 0
  {
  }

  lemma CountKeys(a: seq<Object>, b: seq<Object>, x: Key)
    ensures Count(Keys(a + b), x) == Count(Keys(a), x) + Count(Keys(b), x)
  {
    assert Keys(a + b) == Keys(a) + Keys(b);
  }

  lemma CountPermutation(a: seq<Key>, b: seq<Key>, x: Key)
    requires multiset(a) == multiset(b)
    ensures Count(a, x) == Count(b, x)
  {
  }

  /** Every channel's peer dealt with its shard, and every frame could be written. */
  ghost predicate Answered(wants: seq<Key>, owner: seq<nat>, peers: seq<Peer>, replies: seq<Reply>, after: seq<Peer>) {
    && |owner| == |wants| && |peers| == |replies| == |after|
    && (forall t | 0 <= t < |owner| :: owner[t] < |peers|)
    && forall i: nat | i < |peers| ::
         replies[i].Pack? && Responds(peers[i], Shard(wants, owner, i, |wants|), replies[i], after[i])
  }

  /** Whether channel `i` was asked for anything. */
  ghost predicate InUse(wants: seq<Key>, owner: seq<nat>, i: nat)
    requires |owner| == |wants|
  {
    Shard(wants, owner, i, |wants|) != []
  }

  lemma ShardsAnswered(wants: seq<Key>, owner: seq<nat>, w: seq<nat>, peers: seq<Peer>, shards: seq<seq<Key>>,
                       frames: seq<seq<seq<Key>>>, peers': seq<Peer>, replies: seq<Reply>, frames': seq<seq<seq<Key>>>)
    requires FairDeal(wants, w, owner) && |w| == |peers| == |shards|
    requires forall i: nat | i < |shards| :: shards[i] == Shard(wants, owner, i, |wants|)
    requires SentTo(|peers|, peers, shards, frames, peers', replies, frames')
    ensures Answered(wants, owner, peers, replies, peers')
    ensures |frames| == |frames'| == |peers|
    ensures forall c: nat | c < |frames| :: frames'[c] == AddFrame(frames[c], Shard(wants, owner, c, |wants|))
    ensures NoScriptAnswered(|peers|, peers, shards, replies) ==>
              forall i: nat | i < |peers| && InUse(wants, owner, i) :: peers[i].Honest? || replies[i].end == BrokenOff
  {
    hide Responds, Shard;
    OwnersInRange(wants, w, owner);
  }

  lemma ShardAnswer(wants: seq<Key>, owner: seq<nat>, peers: seq<Peer>, replies: seq<Reply>, after: seq<Peer>, i: nat)
    requires Answered(wants, owner, peers, replies, after) && i < |peers|
    requires forall k :: multiset(wants)[k] <= 1
    requires InUse(wants, owner, i) ==> peers[i].Honest?
    requires replies[i].end == Ended
    ensures multiset(Keys(replies[i].objects)) == multiset(Shard(wants, owner, i, |wants|))
  {
    hide Shard, Dedupe;
    ShardDistinct(wants, owner, i);
    if !InUse(wants, owner, i) {
      assert Keys(replies[i].objects) == [];
    }
  }

  /** Complete packs from honest peers on every channel in use make an exact round. */
  lemma HonestPacksAreExact(s: Loop, owner: seq<nat>, peers: seq<Peer>, replies: seq<Reply>, after: seq<Peer>,
                            got: seq<Object>)
    requires Answered(s.Sent(), owner, peers, replies, after)
    requires forall i: nat | i < |peers| :: replies[i].end == Ended
    requires forall i: nat | i < |peers| && InUse(s.Sent(), owner, i) :: peers[i].Honest?
    requires multiset(got) == multiset(Flatten(Packs(replies)))
    ensures Exact(s, got)
  {
    hide Shard, Flatten, Copies, Responds, InUse;
    var wants, packs := s.Sent(), Packs(replies);
    SentDistinct(s);
    forall i: nat | i < |packs|
      ensures multiset(Keys(packs[i])) == multiset(Shard(wants, owner, i, |wants|))
    {
      ShardAnswer(wants, owner, peers, replies, after, i);
    }
    forall x
      ensures multiset(Keys(Flatten(packs)))[x] == multiset(wants)[x]
    {
      PacksMatchShards(wants, owner, packs, x);
      ShardsPartition(wants, owner, |peers|, |wants|, x);
      assert wants[..|wants|] == wants;
    }
    KeysPermutation(got, Flatten(packs));
  }

  predicate Undecoded(end: PackEnd) { end == BrokenOff || end == LateError }

  /**
   Whether any decoder failed. An error frame read where more of a pack was expected is
   reported before anything else; all other failures are joined, and the joined error
   counts as the peer's when an error frame followed some pack's end.
   */
  method DecodeErrors(ends: seq<PackEnd>) returns (e: Option<Error>)
    ensures e.None? <==> forall i | 0 <= i < |ends| :: ends[i] == Ended
    ensures (exists i | 0 <= i < |ends| :: ends[i] == ErrorFrame) ==>
              exists i :: 0 <= i < |ends| && ends[i] == ErrorFrame && ErrorFrame !in ends[..i] && e == Some(Remote(i))
    ensures (exists i | 0 <= i < |ends| :: Undecoded(ends[i])) && ErrorFrame !in ends ==>
              e == Some(Undecodable((set i: nat | i < |ends| && Undecoded(ends[i])), LateError in ends))
  {
    var failed: set<nat>, remote := {}, false;
    for i := 0 to |ends|
      invariant ErrorFrame !in ends[..i]
      invariant failed == set j: nat | j < i && Undecoded(ends[j])
      invariant remote <==> LateError in ends[..i]
    {
      if ends[i] == ErrorFrame {
        return Some(Remote(i));
      }
      assert ends[..i + 1] == ends[..i] + [ends[i]];
      if Undecoded(ends[i]) {
        failed := failed + {i};
      }
      remote := remote || ends[i] == LateError;
    }
    assert ends[..|ends|] == ends;
    if failed == {} {
      e := None;
      forall j | 0 <= j < |ends|
        ensures ends[j] == Ended
      {
        assert ends[..|ends|][j] != ErrorFrame;
        assert j !in failed;
      }
    } else {
      var j: nat :| j in failed;
      e := Some(Undecodable(failed, remote));
    }
  }

  /** Every channel's peer can serve all of `wants`. */
  ghost predicate CanServe(peers: seq<Peer>, wants: seq<Key>) {
    forall i | 0 <= i < |peers| :: peers[i].Honest? && forall k | k in wants :: k in peers[i].have
  }

  // ---------- how a round fails ----------

  ghost predicate FirstBlocked(wants: seq<Key>, owner: seq<nat>, peers: seq<Peer>, c: nat)
    requires |owner| == |wants|
  {
    && c < |peers| && Blocked(peers[c], Shard(wants, owner, c, |wants|))
    && forall j | 0 <= j < c :: !Blocked(peers[j], Shard(wants, owner, j, |wants|))
  }

  ghost predicate NoneBlocked(wants: seq<Key>, owner: seq<nat>, peers: seq<Peer>)
    requires |owner| == |wants|
  {
    forall c | 0 <= c < |peers| :: !Blocked(peers[c], Shard(wants, owner, c, |wants|))
  }

  ghost predicate AllPacks(replies: seq<Reply>) { forall c | 0 <= c < |replies| :: replies[c].Pack? }

  ghost predicate AllEnded(replies: seq<Reply>)
    requires AllPacks(replies)
  {
    forall c | 0 <= c < |replies| :: replies[c].end == Ended
  }

  function Ends(replies: seq<Reply>): (ends: seq<PackEnd>)
    requires AllPacks(replies)
    ensures |ends| == |replies| && forall c | 0 <= c < |ends| :: ends[c] == replies[c].end
  {
    seq(|replies|, c requires 0 <= c < |replies| => replies[c].end)
  }

  /** Channel `c` is the first whose pack carried an error frame. */
  ghost predicate FirstErrorFrame(ends: seq<PackEnd>, c: nat) {
    c < |ends| && ends[c] == ErrorFrame && forall j | 0 <= j < c :: ends[j] != ErrorFrame
  }

  /** What is reported of packs that did not all end: the first error frame, or all that failed to decode. */
  ghost predicate PacksFailed(ends: seq<PackEnd>, e: Error) {
    if exists c :: 0 <= c < |ends| && ends[c] == ErrorFrame
    then exists c: nat :: FirstErrorFrame(ends, c) && e == Remote(c)
    else
      && e.Undecodable?
      && (forall c: nat :: c in e.channels <==> c < |ends| && (ends[c] == BrokenOff || ends[c] == LateError))
      && (e.remote <==> exists c :: 0 <= c < |ends| && ends[c] == LateError)
  }

  /**
   With an object among them that cannot be stored, decoders may have been stopped at an
   object before they saw their pack's end. What those still running found is reported
   first, and otherwise such an object.
   */
  ghost predicate BadObjectError(replies: seq<Reply>, faults: set<Key>, e: Error)
    requires AllPacks(replies)
  {
    exists ends ::
      && SeenEnds(replies, ends)
      && if forall c | 0 <= c < |ends| :: ends[c] == Ended then StoringFailed(replies, faults, e)
         else PacksFailed(ends, e)
  }

  ghost predicate Delivered(replies: seq<Reply>, k: Key) {
    exists c, o :: 0 <= c < |replies| && replies[c].Pack? && o in replies[c].objects && o.key == k
  }

  /** The first want that no pack held, and how many there are. */
  ghost predicate FirstOmitted(wants: seq<Key>, replies: seq<Reply>, e: Error) {
    exists i: nat ::
      && i < |wants| && !Delivered(replies, wants[i])
      && (forall j | 0 <= j < i :: Delivered(replies, wants[j]))
      && e == Omitted(|set p: nat | p < |wants| && !Delivered(replies, wants[p])|, |wants|, wants[i])
  }

  /** Why a round failed whose want frames were all written, from what came back. */
  ghost predicate RoundError(wants: seq<Key>, replies: seq<Reply>, faults: set<Key>, e: Error)
    requires AllPacks(replies)
  {
    if BadObject(replies, faults) then BadObjectError(replies, faults, e)
    else if !AllEnded(replies) then PacksFailed(Ends(replies), e)
    else FirstOmitted(wants, replies, e)
  }

  ghost predicate RoundFailed(wants: seq<Key>, owner: seq<nat>, peers: seq<Peer>, replies: seq<Reply>,
                              after: seq<Peer>, faults: set<Key>, e: Error) {
    && |owner| == |wants|
    && if NoneBlocked(wants, owner, peers)
       then Answered(wants, owner, peers, replies, after) && AllPacks(replies) && RoundError(wants, replies, faults, e)
       else exists c: nat :: FirstBlocked(wants, owner, peers, c) && e == CannotSend(c)
  }

  /** In a round that succeeded everything in every pack was received, and every pack ended. */
  ghost predicate RoundSucceeded(wants: seq<Key>, owner: seq<nat>, peers: seq<Peer>, replies: seq<Reply>,
                                 after: seq<Peer>, faults: set<Key>, got: seq<Object>) {
    && |owner| == |wants| && NoneBlocked(wants, owner, peers)
    && Answered(wants, owner, peers, replies, after) && AllPacks(replies) && AllEnded(replies)
    && !BadObject(replies, faults) && multiset(got) == multiset(Flatten(Packs(replies)))
  }

  method OneRound(st: Store, peers: seq<Peer>, frames: seq<seq<seq<Key>>>, weights: seq<int>, ghost s: Loop,
                  wants: seq<Key>, carry: seq<Key>)
    returns (r: Result<seq<Key>, Error>, peers': seq<Peer>, frames': seq<seq<seq<Key>>>,
             received: set<Key>, ghost got: seq<Object>, ghost owner: seq<nat>, ghost replies: seq<Reply>)
    requires |peers| == |frames| == |weights| >= 1
    requires st.Since(s.have, {}) && s.Judged(st.objects) && wants == s.Sent() && carry == s.Carry() && wants != []
    modifies st
    ensures s.have <= st.objects && |peers'| == |frames'| == |peers|
    ensures DealtBy(wants, weights, owner) && |owner| == |wants|
    ensures r.Ok? ==> st.Since(s.have, KeySet(got)) && received == KeySet(got)
    ensures r.Ok? ==> Round(s, got, Fresh(st.objects, r.value))
    ensures r.Ok? ==> RoundSucceeded(wants, owner, peers, replies, peers', st.faults, got)
    ensures r.Err? ==> RoundFailed(wants, owner, peers, replies, peers', st.faults, r.error)
    ensures r.Ok? ==> forall c: nat | c < |frames| :: frames'[c] == AddFrame(frames[c], Shard(wants, owner, c, |wants|))
    ensures r.Ok? ==> ScriptsLeft(peers') <= ScriptsLeft(peers)
    ensures r.Ok? && ScriptsLeft(peers') == ScriptsLeft(peers) ==> Exact(s, got)
    ensures CanServe(peers, wants) && st.faults == {} ==> r.Ok? && peers' == peers
  {
    hide Responds, SentTo, NoScriptAnswered, Shard, FairDeal, DealtBy, KeySet, KidsOf, Round, Exact, ScriptsLeft,
      BadObject, Flatten, Answered, CanServe, InUse, AddFrame, Complete, Incomplete, StoringFailed, RoundFailed,
      RoundSucceeded, Blocked, AllPacks, AllEnded, SeenEnds;
    ghost var judged := st.objects;
    var shards;
    shards, owner := DealWants(wants, weights);
    DealtByFloored(wants, weights, owner);
    received, got := {}, [];
    var packs, e;
    peers', packs, frames', e := SendShards(peers, shards, frames);
    replies := packs;
    if e.Some? {
      FrameNotWritten(wants, owner, peers, shards, replies, peers, st.faults, e.value);
      NoServingScript(peers, wants);
      return Err(e.value), peers, frames, received, got, owner, replies;
    }
    ShardsAnswered(wants, owner, Floored(weights), peers, shards, frames, peers', packs, frames');
    AnsweredMeaning(wants, owner, peers, packs, peers');
    var next, ends;
    received, next, ends, e, got := Collect(st, packs);
    ghost var serves := CanServe(peers, wants) && st.faults == {};
    if serves {
      ServedRound(s, owner, peers, packs, peers', st.faults);
    }
    var d := DecodeErrors(ends);
    AllWritten(wants, owner, peers, shards);
    if d.Some? {
      PacksNotDecoded(wants, replies, ends, st.faults, d.value);
      FailedAnswered(wants, owner, peers, replies, peers', st.faults, d.value);
      return Err(d.value), peers', frames', received, got, owner, replies;
    }
    if e.Some? {
      ObjectNotStored(wants, replies, ends, st.faults, e.value);
      FailedAnswered(wants, owner, peers, replies, peers', st.faults, e.value);
      return Err(e.value), peers', frames', received, got, owner, replies;
    }
    EndsAreEnds(replies, ends);
    SucceededAnswered(wants, owner, peers, replies, peers', st.faults, got);
    if ScriptsLeft(peers') == ScriptsLeft(peers) || serves {
      HonestPacksAreExact(s, owner, peers, packs, peers', got);
      ExactKeySet(s, got);
    }
    e := CheckDelivered(received, wants);
    if e.Some? {
      WantOmitted(wants, replies, got, received, st.faults, e.value);
      FailedAnswered(wants, owner, peers, replies, peers', st.faults, e.value);
      return Err(e.value), peers', frames', received, got, owner, replies;
    }
    r := Ok(next + carry);
    StillJudged(s, judged, st.objects);
    RoundMade(s, got, received, next, Fresh(st.objects, next + carry));
  }

  lemma FrameNotWritten(wants: seq<Key>, owner: seq<nat>, peers: seq<Peer>, shards: seq<seq<Key>>, replies: seq<Reply>,
                        after: seq<Peer>, faults: set<Key>, e: Error)
    requires |owner| == |wants| && |peers| == |shards|
    requires forall i: nat | i < |shards| :: shards[i] == Shard(wants, owner, i, |wants|)
    requires exists i :: 0 <= i < |peers| && Blocked(peers[i], shards[i]) && e == CannotSend(i)
                      && forall j | 0 <= j < i :: !Blocked(peers[j], shards[j])
    ensures RoundFailed(wants, owner, peers, replies, after, faults, e)
  {
    hide Shard, Blocked;
    var i: nat :| i < |peers| && Blocked(peers[i], shards[i]) && e == CannotSend(i)
               && forall j | 0 <= j < i :: !Blocked(peers[j], shards[j]);
    assert FirstBlocked(wants, owner, peers, i);
  }

  lemma AllWritten(wants: seq<Key>, owner: seq<nat>, peers: seq<Peer>, shards: seq<seq<Key>>)
    requires |owner| == |wants| && |peers| == |shards|
    requires forall i: nat | i < |shards| :: shards[i] == Shard(wants, owner, i, |wants|)
    requires forall i | 0 <= i < |peers| :: !Blocked(peers[i], shards[i])
    ensures NoneBlocked(wants, owner, peers)
  {
    hide Shard, Blocked;
  }

  lemma FailedAnswered(wants: seq<Key>, owner: seq<nat>, peers: seq<Peer>, replies: seq<Reply>, after: seq<Peer>,
                       faults: set<Key>, e: Error)
    requires |owner| == |wants| && NoneBlocked(wants, owner, peers)
    requires Answered(wants, owner, peers, replies, after) && AllPacks(replies) && RoundError(wants, replies, faults, e)
    ensures RoundFailed(wants, owner, peers, replies, after, faults, e)
  {
    hide Answered, RoundError, NoneBlocked;
  }

  lemma SucceededAnswered(wants: seq<Key>, owner: seq<nat>, peers: seq<Peer>, replies: seq<Reply>, after: seq<Peer>,
                          faults: set<Key>, got: seq<Object>)
    requires |owner| == |wants| && NoneBlocked(wants, owner, peers)
    requires Answered(wants, owner, peers, replies, after) && AllPacks(replies) && AllEnded(replies)
    requires !BadObject(replies, faults) && multiset(got) == multiset(Flatten(Packs(replies)))
    ensures RoundSucceeded(wants, owner, peers, replies, after, faults, got)
  {
    hide Answered, NoneBlocked, BadObject, Flatten;
  }

  lemma PacksNotDecoded(wants: seq<Key>, replies: seq<Reply>, ends: seq<PackEnd>, faults: set<Key>, e: Error)
    requires (forall i | 0 <= i < |replies| :: replies[i].Pack?) && |ends| == |replies|
    requires if BadObject(replies, faults) then SeenEnds(replies, ends)
             else forall i | 0 <= i < |replies| :: ends[i] == replies[i].end
    requires exists i :: 0 <= i < |ends| && ends[i] != Ended
    requires (exists i | 0 <= i < |ends| :: ends[i] == ErrorFrame) ==>
               exists i :: 0 <= i < |ends| && ends[i] == ErrorFrame && ErrorFrame !in ends[..i] && e == Remote(i)
    requires (exists i | 0 <= i < |ends| :: Undecoded(ends[i])) && ErrorFrame !in ends ==>
               e == Undecodable((set i: nat | i < |ends| && Undecoded(ends[i])), LateError in ends)
    ensures AllPacks(replies) && RoundError(wants, replies, faults, e)
  {
    hide BadObject, StoringFailed, SeenEnds;
    EndsFailed(ends, e);
    if !BadObject(replies, faults) {
      assert ends == Ends(replies);
    }
  }

  lemma EndsFailed(ends: seq<PackEnd>, e: Error)
    requires exists i :: 0 <= i < |ends| && ends[i] != Ended
    requires (exists i | 0 <= i < |ends| :: ends[i] == ErrorFrame) ==>
               exists i :: 0 <= i < |ends| && ends[i] == ErrorFrame && ErrorFrame !in ends[..i] && e == Remote(i)
    requires (exists i | 0 <= i < |ends| :: Undecoded(ends[i])) && ErrorFrame !in ends ==>
               e == Undecodable((set i: nat | i < |ends| && Undecoded(ends[i])), LateError in ends)
    ensures PacksFailed(ends, e)
  {
    if exists i :: 0 <= i < |ends| && ends[i] == ErrorFrame {
      var i: nat :| i < |ends| && ends[i] == ErrorFrame && ErrorFrame !in ends[..i] && e == Remote(i);
      forall j | 0 <= j < i
        ensures ends[j] != ErrorFrame
      {
        assert ends[..i][j] == ends[j];
      }
      assert FirstErrorFrame(ends, i);
    } else {
      var i: nat :| i < |ends| && ends[i] != Ended;
      assert Undecoded(ends[i]) && i in e.channels;
    }
  }

  lemma ObjectNotStored(wants: seq<Key>, replies: seq<Reply>, ends: seq<PackEnd>, faults: set<Key>, e: Error)
    requires forall i | 0 <= i < |replies| :: replies[i].Pack?
    requires SeenEnds(replies, ends) && forall i | 0 <= i < |ends| :: ends[i] == Ended
    requires BadObject(replies, faults) && StoringFailed(replies, faults, e)
    ensures AllPacks(replies) && RoundError(wants, replies, faults, e)
  {
    hide BadObject, StoringFailed, SeenEnds;
  }

  lemma EndsAreEnds(replies: seq<Reply>, ends: seq<PackEnd>)
    requires (forall i | 0 <= i < |replies| :: replies[i].Pack?) && |ends| == |replies|
    requires forall i | 0 <= i < |replies| :: ends[i] == replies[i].end && ends[i] == Ended
    ensures AllPacks(replies) && AllEnded(replies)
  {
  }

  lemma {:induction false} FlattenFrom(packs: seq<seq<Object>>, o: Object) returns (i: nat)
    requires o in Flatten(packs)
    ensures i < |packs| && o in packs[i]
  {
    var n := |packs| - 1;
    if o in packs[n] {
      i := n;
    } else {
      i := FlattenFrom(packs[..n], o);
    }
  }

  /** What was received is what the packs delivered. */
  lemma ReceivedIsDelivered(replies: seq<Reply>, got: seq<Object>, k: Key)
    requires AllPacks(replies) && multiset(got) == multiset(Flatten(Packs(replies)))
    ensures k in KeySet(got) <==> Delivered(replies, k)
  {
    hide Flatten;
    if k in KeySet(got) {
      var o :| o in got && o.key == k;
      assert o in multiset(got);
      assert o in multiset(Flatten(Packs(replies)));
      var c := FlattenFrom(Packs(replies), o);
      assert o in replies[c].objects;
    }
    if Delivered(replies, k) {
      var c: nat, o :| c < |replies| && replies[c].Pack? && o in replies[c].objects && o.key == k;
      FlattenMember(Packs(replies), c, o);
      assert o in multiset(Flatten(Packs(replies)));
      assert o in multiset(got);
    }
  }

  lemma WantOmitted(wants: seq<Key>, replies: seq<Reply>, got: seq<Object>, received: set<Key>, faults: set<Key>,
                    e: Error)
    requires AllPacks(replies) && AllEnded(replies) && !BadObject(replies, faults)
    requires received == KeySet(got) && multiset(got) == multiset(Flatten(Packs(replies)))
    requires exists i :: 0 <= i < |wants| && wants[i] !in received && (forall j | 0 <= j < i :: wants[j] in received)
                      && e == Omitted(Undelivered(received, wants), |wants|, wants[i])
    ensures RoundError(wants, replies, faults, e)
  {
    hide Flatten, BadObject, Delivered, KeySet, Undelivered;
    forall k
      ensures k in received <==> Delivered(replies, k)
    {
      ReceivedIsDelivered(replies, got, k);
    }
    UndeliveredCount(received, wants);
    assert MissingPlaces(received, wants) == set p: nat | p < |wants| && !Delivered(replies, wants[p]);
    var i: nat :| i < |wants| && wants[i] !in received && (forall j | 0 <= j < i :: wants[j] in received)
               && e == Omitted(Undelivered(received, wants), |wants|, wants[i]);
  }

  /** A judgement stays good while the store grows. */
  lemma StillJudged(s: Loop, earlier: set<Key>, now: set<Key>)
    requires s.Judged(earlier) && earlier <= now
    ensures s.Judged(now)
  {
    hide Complete;
    StillComplete(earlier, now);
  }

  lemma NoServingScript(peers: seq<Peer>, wants: seq<Key>)
    ensures CanServe(peers, wants) ==> forall i, shard | 0 <= i < |peers| :: !Blocked(peers[i], shard)
  {
  }

  lemma AnsweredMeaning(wants: seq<Key>, owner: seq<nat>, peers: seq<Peer>, replies: seq<Reply>, after: seq<Peer>)
    requires Answered(wants, owner, peers, replies, after)
    ensures |peers| == |replies| == |after| && forall i: nat | i < |replies| :: replies[i].Pack?
  {
  }

  lemma RoundMade(s: Loop, got: seq<Object>, received: set<Key>, next: seq<Key>, t: Loop)
    requires s.Sent() != [] && received == KeySet(got) && next == KidsOf(got)
    requires (forall o | o in got :: o.Verifies()) && forall k | k in s.Sent() :: k in received
    requires s.have + KeySet(got) <= t.have && t.frontier == next + s.Carry() && s.Judged(t.have)
    ensures Round(s, got, t)
  {
    hide KeySet, KidsOf, WantList, SplitWants;
  }

  lemma OwnersInRange(wants: seq<Key>, w: seq<nat>, owner: seq<nat>)
    requires FairDeal(wants, w, owner)
    ensures forall t | 0 <= t < |owner| :: owner[t] < |w|
  {
    forall t | 0 <= t < |owner|
      ensures owner[t] < |w|
    {
      assert GoesToLowest(wants, w, owner, t);
    }
  }

  /** Peers that hold everything wanted answer every shard in full. */
  lemma ServedRound(s: Loop, owner: seq<nat>, peers: seq<Peer>, replies: seq<Reply>, after: seq<Peer>, faults: set<Key>)
    requires Answered(s.Sent(), owner, peers, replies, after)
    requires CanServe(peers, s.Sent()) && faults == {}
    ensures forall i: nat | i < |replies| :: replies[i].end == Ended && peers[i].Honest?
    ensures !BadObject(replies, faults)
    ensures after == peers
  {
    hide Shard, IsAnswer;
    forall i: nat | i < |replies|
      ensures replies[i].end == Ended && after[i] == peers[i]
      ensures forall o | o in replies[i].objects :: o.Verifies()
    {
      SubShard(s.Sent(), owner, i, |s.Sent()|);
      ServedShard(s.Sent(), peers[i], Shard(s.Sent(), owner, i, |s.Sent()|), replies[i], after[i]);
    }
  }

  lemma ServedShard(wants: seq<Key>, peer: Peer, shard: seq<Key>, reply: Reply, after: Peer)
    requires peer.Honest? && (forall k | k in wants :: k in peer.have)
    requires Responds(peer, shard, reply, after) && multiset(shard) <= multiset(wants[..|wants|])
    ensures reply.Pack? && reply.end == Ended && after == peer && forall o | o in reply.objects :: o.Verifies()
  {
    assert wants[..|wants|] == wants;
    forall k | k in shard
      ensures k in peer.have
    {
      assert k in multiset(shard) && k in multiset(wants);
      assert k in wants;
    }
  }

  // ---------- the log of a run ----------

  /** A run, the bytes read per channel by the start of each round, and who owned each want. */
  datatype Log = Log(run: Run, wire: seq<seq<nat>>, owners: seq<seq<nat>>)

  /** A channel's weight is what it moved in the round before. */
  function Deltas(now: seq<nat>, before: seq<nat>): (w: seq<int>)
    requires |now| == |before|
    ensures |w| == |now| && forall i | 0 <= i < |w| :: w[i] + before[i] == now[i]
  {
    seq(|now|, i requires 0 <= i < |now| => Minus(now[i], before[i]))
  }

  function Minus(a: int, b: int): int { a - b }

  function WireBefore(log: Log, n: nat, j: nat): seq<nat>
    requires j < |log.wire|
  {
    if j == 0 then seq(n, _ => 0) else log.wire[j - 1]
  }

  /** The want frames channel `c` is sent in the first `m` rounds: its non-empty shards. */
  function FramesOf(log: Log, c: nat, m: nat): seq<seq<Key>>
    requires m <= |log.owners| && m <= |log.run.states|
    requires forall j | 0 <= j < m :: |log.owners[j]| == |log.run.states[j].Sent()|
  {
    if m == 0 then []
    else
      var sent := log.run.states[m - 1].Sent();
      AddFrame(FramesOf(log, c, m - 1), Shard(sent, log.owners[m - 1], c, |sent|))
  }

  /** Every round dealt its wants fairly by the weights measured in the round before. */
  ghost predicate DealtByThroughput(log: Log, n: nat) {
    && |log.run.states| == |log.run.packs| + 1
    && |log.wire| == |log.run.states| && |log.owners| == |log.run.packs|
    && (forall j | 0 <= j < |log.wire| :: |log.wire[j]| == n)
    && forall j: nat | j < |log.owners| :: RoundDealt(log, n, j)
  }

  ghost predicate RoundDealt(log: Log, n: nat, j: nat)
    requires j < |log.owners| && j < |log.wire| && j < |log.run.states|
    requires forall j | 0 <= j < |log.wire| :: |log.wire[j]| == n
  {
    DealtBy(log.run.states[j].Sent(), Deltas(log.wire[j], WireBefore(log, n, j)), log.owners[j])
    && |log.owners[j]| == |log.run.states[j].Sent()|
  }

  function Extend(log: Log, got: seq<Object>, t: Loop, wire: seq<nat>, owner: seq<nat>): Log {
    Log(Run(log.run.states + [t], log.run.packs + [got]), log.wire + [wire], log.owners + [owner])
  }

  lemma {:induction false} SameCounts(a: Run, b: Run, m: nat)
    requires m <= |a.packs| && m <= |a.states| && m <= |b.packs| && m <= |b.states|
    requires a.states[..m] == b.states[..m] && a.packs[..m] == b.packs[..m]
    ensures a.Requested(m) == b.Requested(m) && ReceivedCount(a, m) == ReceivedCount(b, m)
  {
    hide WantList;
    if m > 0 {
      assert a.states[..m - 1] == a.states[..m][..m - 1] && a.packs[..m - 1] == a.packs[..m][..m - 1];
      assert a.states[m - 1] == a.states[..m][m - 1] && a.packs[m - 1] == a.packs[..m][m - 1];
      SameCounts(a, b, m - 1);
    }
  }

  lemma {:induction false} SameFrames(a: Log, b: Log, c: nat, m: nat)
    requires m <= |a.owners| && m <= |a.run.states| && m <= |b.owners| && m <= |b.run.states|
    requires a.run.states[..m] == b.run.states[..m] && a.owners[..m] == b.owners[..m]
    requires forall j | 0 <= j < m :: |a.owners[j]| == |a.run.states[j].Sent()|
    requires forall j | 0 <= j < m :: |b.owners[j]| == |b.run.states[j].Sent()|
    ensures FramesOf(a, c, m) == FramesOf(b, c, m)
  {
    hide WantList, Shard;
    if m > 0 {
      assert a.run.states[..m - 1] == a.run.states[..m][..m - 1] && a.owners[..m - 1] == a.owners[..m][..m - 1];
      assert a.run.states[m - 1] == a.run.states[..m][m - 1] && a.owners[m - 1] == a.owners[..m][m - 1];
      SameFrames(a, b, c, m - 1);
    }
  }

  lemma ExtendedRun(log: Log, root: Key, have: set<Key>, got: seq<Object>, t: Loop, wire: seq<nat>, owner: seq<nat>)
    requires log.run.Valid(root, have) && Round(log.run.Last(), got, t)
    ensures var more := Extend(log, got, t, wire, owner).run;
            && more.Valid(root, have)
            && (log.run.Honest() && Exact(log.run.Last(), got) ==> more.Honest())
            && (log.run.Alone() && t.Judged(t.have) && t.have == log.run.Last().have + KeySet(got) ==> more.Alone())
            && more.Requested(|more.packs|) == log.run.Requested(|log.run.packs|) + log.run.Last().Sent()
            && ReceivedCount(more, |more.packs|) == ReceivedCount(log.run, |log.run.packs|) + |KeySet(got)|
  {
    hide Round, Exact, KeySet, WantList, Complete;
    var more := Extend(log, got, t, wire, owner).run;
    var n := |log.run.packs|;
    RunGrows(log.run, root, have, got, t);
    assert more.states[..n] == log.run.states[..n] && more.packs[..n] == log.run.packs[..n];
    SameCounts(log.run, more, n);
  }

  lemma ExtendedDeal(log: Log, n: nat, got: seq<Object>, t: Loop, wire: seq<nat>, owner: seq<nat>, weights: seq<int>)
    requires DealtByThroughput(log, n) && |wire| == n
    requires weights == Deltas(log.wire[|log.wire| - 1], WireBefore(log, n, |log.wire| - 1))
    requires DealtBy(log.run.Last().Sent(), weights, owner) && |owner| == |log.run.Last().Sent()|
    ensures DealtByThroughput(Extend(log, got, t, wire, owner), n)
  {
    var more := Extend(log, got, t, wire, owner);
    forall j: nat | j < |more.owners|
      ensures RoundDealt(more, n, j)
    {
      assert more.run.states[j] == log.run.states[j] && more.wire[j] == log.wire[j];
      assert WireBefore(more, n, j) == WireBefore(log, n, j);
      if j < |log.owners| {
        assert RoundDealt(log, n, j);
      }
    }
  }

  lemma DealtSizes(log: Log, n: nat)
    requires DealtByThroughput(log, n)
    ensures forall j | 0 <= j < |log.owners| :: |log.owners[j]| == |log.run.states[j].Sent()|
  {
    forall j: nat | j < |log.owners|
      ensures |log.owners[j]| == |log.run.states[j].Sent()|
    {
      assert RoundDealt(log, n, j);
    }
  }

  /** What each channel has been sent, as the log explains it. */
  ghost predicate FramesMatch(log: Log, n: nat, frames: seq<seq<seq<Key>>>) {
    && DealtByThroughput(log, n)
    && |frames| == n
    && (forall j | 0 <= j < |log.owners| :: |log.owners[j]| == |log.run.states[j].Sent()|)
    && forall c: nat | c < n :: frames[c] == FramesOf(log, c, |log.owners|)
  }

  lemma ExtendedFrames(log: Log, n: nat, frames: seq<seq<seq<Key>>>, more: Log, frames': seq<seq<seq<Key>>>)
    requires FramesMatch(log, n, frames) && DealtByThroughput(more, n) && |frames'| == n
    requires log.run.states <= more.run.states && log.owners <= more.owners && |more.owners| == |log.owners| + 1
    requires var sent, owner := log.run.Last().Sent(), more.owners[|log.owners|];
             |owner| == |sent|
             && forall c: nat | c < n :: frames'[c] == AddFrame(frames[c], Shard(sent, owner, c, |sent|))
    ensures FramesMatch(more, n, frames')
  {
    DealtSizes(more, n);
    assert more.run.states[|log.owners|] == log.run.Last();
    forall c: nat | c < n
      ensures frames'[c] == FramesOf(more, c, |more.owners|)
    {
      assert more.run.states[..|log.owners|] == log.run.states[..|log.owners|];
      assert more.owners[..|log.owners|] == log.owners[..|log.owners|];
      SameFrames(log, more, c, |log.owners|);
    }
  }

  // ---------- the program ----------

  /** Peers that hold the whole tree. */
  ghost predicate HoldTree(peers: seq<Peer>, root: Key) {
    forall i | 0 <= i < |peers| :: peers[i].Honest? && Complete(peers[i].have, root)
  }

  ghost predicate FirstNotWritable(peers: seq<Peer>, c: nat) {
    c < |peers| && NotWritable(peers[c]) && forall j | 0 <= j < c :: !NotWritable(peers[j])
  }

  /** Ends every channel's sender with an empty want frame. */
  method Finish(peers: seq<Peer>, frames: seq<seq<seq<Key>>>) returns (frames': seq<seq<seq<Key>>>, e: Option<Error>)
    requires |peers| == |frames|
    ensures |frames'| == |frames|
    ensures e.None? ==> forall c | 0 <= c < |frames| :: frames'[c] == frames[c] + [[]]
    ensures e.None? ==> forall c | 0 <= c < |peers| :: !NotWritable(peers[c])
    ensures e.Some? ==> exists c: nat :: FirstNotWritable(peers, c) && e == Some(CannotSend(c))
  {
    frames' := frames;
    for c := 0 to |peers|
      invariant |frames'| == |frames|
      invariant forall j | 0 <= j < c :: frames'[j] == frames[j] + [[]]
      invariant forall j | c <= j < |frames| :: frames'[j] == frames[j]
      invariant forall j | 0 <= j < c :: !NotWritable(peers[j])
    {
      if NotWritable(peers[c]) {
        assert FirstNotWritable(peers, c);
        e := Some(CannotSend(c));
        return;
      }
      frames' := frames'[c := frames'[c] + [[]]];
    }
    e := None;
  }

  /** Bytes arrive on the channels: how many is up to the peers and the network. */
  method ReadBytes(before: seq<nat>) returns (now: seq<nat>)
    ensures |now| == |before| && forall i | 0 <= i < |now| :: before[i] <= now[i]
  {
    now := before;
    for i := 0 to |before|
      invariant |now| == |before|
      invariant forall j | 0 <= j < |now| :: before[j] <= now[j]
    {
      var more: nat :| more >= 0;
      now := now[i := now[i] + more];
    }
  }

  lemma StartLog(root: Key, have: set<Key>, n: nat, zeros: seq<nat>)
    requires |zeros| == n
    ensures var log := Log(Run([Fresh(have, [root])], []), [zeros], []);
            && log.run.Valid(root, have) && log.run.Honest() && log.run.Alone()
            && FramesMatch(log, n, seq(n, _ => []))
  {
    hide Complete, Incomplete;
    FreshIsJudged(have, [root]);
  }

  lemma ServedFrontier(log: Log, root: Key, have: set<Key>, peers: seq<Peer>)
    requires log.run.Valid(root, have) && log.run.Honest() && HoldTree(peers, root)
    ensures CanServe(peers, log.run.Last().Sent())
    ensures forall f, x | f in log.run.Last().frontier && Reaches(f, x) :: Reaches(root, x)
  {
    var s, n := log.run.Last(), |log.run.packs|;
    RequestedReachable(log.run, root, have, n);
    WantListMembers(s.frontier, s.wanted);
    forall i, k | 0 <= i < |peers| && k in s.Sent()
      ensures k in peers[i].have
    {
      assert k in s.Sent() + s.Carry();
      CompleteIffNothingMissing(peers[i].have, root);
    }
    forall f, x | f in s.frontier && Reaches(f, x)
      ensures Reaches(root, x)
    {
      ReachesTransitive(root, f, x);
    }
  }

  /** A round without arbitrary peers shrinks the unrolled frontier. */
  lemma FrontierShrinks(s: Loop, got: seq<Object>, t: Loop)
    requires Round(s, got, t)
    ensures Exact(s, got) ==> |PathsAll(t.frontier)| < |PathsAll(s.frontier)|
  {
    if Exact(s, got) {
      ExactRoundPaths(s, got, t);
      SmallerMultiset(PathsAll(t.frontier) + multiset(s.Sent()), PathsAll(s.frontier));
      assert |multiset(s.Sent())| == |s.Sent()|;
    }
  }

  /** The program's variables agree with the log at the start of a round. */
  ghost predicate Tracks(log: Log, root: Key, have: set<Key>, n: nat, now: Loop,
                         frames: seq<seq<seq<Key>>>, bytes: seq<nat>, prev: seq<nat>, stats: Stats) {
    && log.run.Valid(root, have) && log.run.Last() == now
    && FramesMatch(log, n, frames)
    && |bytes| == |prev| == n
    && bytes == log.wire[|log.wire| - 1] && prev == WireBefore(log, n, |log.wire| - 1)
    && stats.rounds == |log.run.packs|
    && stats.requested == |log.run.Requested(|log.run.packs|)|
    && stats.received == ReceivedCount(log.run, |log.run.packs|)
  }

  lemma TracksMeaning(log: Log, root: Key, have: set<Key>, n: nat, now: Loop,
                      frames: seq<seq<seq<Key>>>, bytes: seq<nat>, prev: seq<nat>, stats: Stats)
    requires Tracks(log, root, have, n, now, frames, bytes, prev, stats)
    ensures log.run.Valid(root, have) && log.run.Last() == now
    ensures FramesMatch(log, n, frames) && |frames| == n
    ensures |bytes| == |prev| == n && log.wire != [] && bytes == log.wire[|log.wire| - 1]
    ensures stats.rounds == |log.run.packs|
    ensures stats.requested == |log.run.Requested(|log.run.packs|)|
    ensures stats.received == ReceivedCount(log.run, |log.run.packs|)
  {
    hide Round, DealtByThroughput;
    TracksDeal(log, n, frames);
  }

  /** What the loop has achieved once nothing is wanted any more. */
  lemma NothingWanted(run: Run, root: Key, have: set<Key>, now: set<Key>)
    requires run.Valid(root, have) && run.Ends(now)
    ensures Complete(now, root)
    ensures run.Honest() ==> have + Below(root) <= now
    ensures run.Honest() && run.Alone() && now == run.Last().have ==> now == have + Below(root)
    ensures run.Honest() ==> |run.packs| <= Levels(root) + run.CappedRounds(|run.packs|)
    ensures run.Honest() ==> ReceivedCount(run, |run.packs|) == |run.Requested(|run.packs|)|
    ensures run.Honest() && run.Alone() && now == run.Last().have && have == {} && NoSharing(root) ==>
              |run.Requested(|run.packs|)| == |Below(root)|
  {
    hide Round, Exact, Complete, Below, WantList, Levels, Reaches, ReceivedCount, NoSharing;
    RunSafety(run, root, have, now);
    if run.Honest() {
      FinishedRunStore(run, root, have, now);
      RoundsBound(run, root, have);
      ReceivedIsRequested(run, root, have, |run.packs|);
      if run.Alone() && now == run.Last().have && have == {} && NoSharing(root) {
        FreshSyncRequestsEachOnce(run, root);
      }
    }
  }

  lemma TracksStart(root: Key, have: set<Key>, n: nat, zeros: seq<nat>)
    requires zeros == seq(n, _ => 0)
    ensures var log := Log(Run([Fresh(have, [root])], []), [zeros], []);
            && Tracks(log, root, have, n, Fresh(have, [root]), seq(n, _ => []), zeros, zeros, Stats(0, 0, 0, 0))
            && log.run.Honest() && log.run.Alone()
  {
    StartLog(root, have, n, zeros);
  }

  /** The log once the keys of the round under way have been judged. */
  function Decided(log: Log, wanted: set<Key>): Log
    requires log.run.states != []
  {
    var last := |log.run.states| - 1;
    log.(run := Run(log.run.states[..last] + [log.run.states[last].(wanted := wanted)], log.run.packs))
  }

  lemma DecidedRun(run: Run, root: Key, have: set<Key>, decided: Run, wanted: set<Key>)
    requires run.Valid(root, have) && decided.packs == run.packs
    requires decided.states == run.states[..|run.packs|] + [run.Last().(wanted := wanted)]
    ensures decided.Valid(root, have) && (run.Honest() ==> decided.Honest())
    ensures run.Alone() && decided.Last().Judged(decided.Last().have) ==> decided.Alone()
  {
    hide Exact, Complete, WantList, KeySet, KidsOf;
    forall i | 0 <= i < |run.packs|
      ensures Round(decided.states[i], decided.packs[i], decided.states[i + 1])
      ensures run.Honest() ==> Exact(decided.states[i], decided.packs[i])
    {
      assert Round(run.states[i], run.packs[i], run.states[i + 1]);
      assert run.Honest() ==> Exact(run.states[i], run.packs[i]);
    }
    if run.Alone() && decided.Last().Judged(decided.Last().have) {
      DecidedAlone(run, decided, wanted);
    }
  }

  lemma DecidedAlone(run: Run, decided: Run, wanted: set<Key>)
    requires |run.states| == |run.packs| + 1 && decided.packs == run.packs && run.Alone()
    requires decided.states == run.states[..|run.packs|] + [run.Last().(wanted := wanted)]
    requires decided.Last().Judged(decided.Last().have)
    ensures decided.Alone()
  {
    hide Complete, KeySet;
    forall i | 0 <= i < |decided.states|
      ensures decided.states[i].Judged(decided.states[i].have)
      ensures decided.states[i].have == run.states[i].have
    {
      assert i < |run.packs| ==> decided.states[i] == run.states[i];
    }
  }

  lemma TracksDecided(log: Log, root: Key, have: set<Key>, n: nat, s: Loop, frames: seq<seq<seq<Key>>>,
                      bytes: seq<nat>, prev: seq<nat>, stats: Stats, wanted: set<Key>)
    requires Tracks(log, root, have, n, s, frames, bytes, prev, stats)
    ensures var more := Decided(log, wanted);
            && Tracks(more, root, have, n, s.(wanted := wanted), frames, bytes, prev, stats)
            && (log.run.Honest() ==> more.run.Honest())
            && (log.run.Alone() && s.(wanted := wanted).Judged(s.have) ==> more.run.Alone())
  {
    hide Round, Exact, Complete, WantList, DealtBy, Shard, ReceivedCount, KeySet, FramesMatch;
    var more, m := Decided(log, wanted), |log.run.packs|;
    TracksDeal(log, n, frames);
    DecidedRun(log.run, root, have, more.run, wanted);
    assert more.run.states[..m] == log.run.states[..m];
    SameCounts(log.run, more.run, m);
    DecidedFrames(log, n, frames, more);
  }

  /** The deals and frames of the rounds so far are not touched by judging the next. */
  lemma DecidedFrames(log: Log, n: nat, frames: seq<seq<seq<Key>>>, more: Log)
    requires FramesMatch(log, n, frames)
    requires |more.run.states| == |log.run.states| && more.run.packs == log.run.packs
    requires more.run.states[..|log.run.packs|] == log.run.states[..|log.run.packs|]
    requires more.wire == log.wire && more.owners == log.owners
    ensures FramesMatch(more, n, frames)
  {
    hide DealtBy, Shard, WantList;
    TracksDeal(log, n, frames);
    var m := |log.run.packs|;
    forall j: nat | j < m
      ensures RoundDealt(more, n, j) && more.run.states[j] == log.run.states[j]
    {
      assert RoundDealt(log, n, j);
      assert more.run.states[j] == more.run.states[..m][j];
      assert WireBefore(more, n, j) == WireBefore(log, n, j);
    }
    forall c: nat | c < n
      ensures FramesOf(more, c, m) == FramesOf(log, c, m)
    {
      SameFrames(log, more, c, m);
    }
  }

  lemma TracksDeal(log: Log, n: nat, frames: seq<seq<seq<Key>>>)
    requires FramesMatch(log, n, frames)
    ensures DealtByThroughput(log, n) && |log.run.states| == |log.run.packs| + 1
    ensures |log.wire| == |log.run.states| && |log.owners| == |log.run.packs|
    ensures forall j | 0 <= j < |log.wire| :: |log.wire[j]| == n
  {
  }

  lemma TracksStep(log: Log, root: Key, have: set<Key>, n: nat, s: Loop, frames: seq<seq<seq<Key>>>, bytes: seq<nat>,
                   prev: seq<nat>, stats: Stats, got: seq<Object>, t: Loop, owner: seq<nat>,
                   frames': seq<seq<seq<Key>>>, bytes': seq<nat>, stats': Stats)
    requires Tracks(log, root, have, n, s, frames, bytes, prev, stats) && |bytes'| == n && |frames'| == n
    requires Round(s, got, t) && DealtBy(s.Sent(), Deltas(bytes, prev), owner) && |owner| == |s.Sent()|
    requires forall c: nat | c < n :: frames'[c] == AddFrame(frames[c], Shard(s.Sent(), owner, c, |s.Sent()|))
    requires stats'.rounds == stats.rounds + 1 && stats'.requested == stats.requested + |s.Sent()|
    requires stats'.received == stats.received + |KeySet(got)|
    ensures Tracks(Extend(log, got, t, bytes', owner), root, have, n, t, frames', bytes', bytes, stats')
    ensures log.run.Honest() && Exact(s, got) ==> Extend(log, got, t, bytes', owner).run.Honest()
    ensures log.run.Alone() && t.Judged(t.have) && t.have == s.have + KeySet(got) ==>
              Extend(log, got, t, bytes', owner).run.Alone()
  {
    hide Round, Exact, DealtBy, KeySet, DealtByThroughput, Shard, ReceivedCount, FramesMatch, AddFrame, WantList,
      Complete, Run.Valid, Run.Honest, Run.Alone, Run.Requested, Loop.Judged, Deltas;
    TracksDeal(log, n, frames);
    var more := Extend(log, got, t, bytes', owner);
    ExtendedRun(log, root, have, got, t, bytes', owner);
    ExtendedDeal(log, n, got, t, bytes', owner, Deltas(bytes, prev));
    ExtendedFrames(log, n, frames, more, frames');
  }

  /** What holds of the log as well: with good peers it is honest, and without other writers alone. */
  ghost predicate InLoop(log: Log, root: Key, have: set<Key>, n: nat, s: Loop, frames: seq<seq<seq<Key>>>,
                         bytes: seq<nat>, prev: seq<nat>, stats: Stats, served: bool, shared: bool) {
    && Tracks(log, root, have, n, s, frames, bytes, prev, stats)
    && (served ==> log.run.Honest())
    && (!shared ==> log.run.Alone())
  }

  lemma InLoopStart(root: Key, have: set<Key>, n: nat, zeros: seq<nat>, served: bool, shared: bool)
    requires zeros == seq(n, _ => 0)
    ensures InLoop(Log(Run([Fresh(have, [root])], []), [zeros], []), root, have, n, Fresh(have, [root]),
                   seq(n, _ => []), zeros, zeros, Stats(0, 0, 0, 0), served, shared)
  {
    hide Tracks, Complete, Incomplete;
    TracksStart(root, have, n, zeros);
  }

  lemma InLoopMeaning(log: Log, root: Key, have: set<Key>, n: nat, s: Loop, frames: seq<seq<seq<Key>>>,
                      bytes: seq<nat>, prev: seq<nat>, stats: Stats, served: bool, shared: bool)
    requires InLoop(log, root, have, n, s, frames, bytes, prev, stats, served, shared)
    ensures log.run.Valid(root, have) && |log.run.states| == |log.run.packs| + 1
    ensures log.run.Last() == s && |frames| == |bytes| == |prev| == n
    ensures (served ==> log.run.Honest()) && (!shared ==> log.run.Alone())
  {
    hide Tracks, FramesMatch;
    TracksMeaning(log, root, have, n, s, frames, bytes, prev, stats);
  }

  lemma InLoopDecided(log: Log, root: Key, have: set<Key>, n: nat, s: Loop, frames: seq<seq<seq<Key>>>,
                      bytes: seq<nat>, prev: seq<nat>, stats: Stats, served: bool, shared: bool, now: set<Key>)
    requires InLoop(log, root, have, n, Fresh(s.have, s.frontier), frames, bytes, prev, stats, served, shared)
    requires s.Judged(now) && (!shared ==> now == s.have)
    ensures log.run.states != []
    ensures InLoop(Decided(log, s.wanted), root, have, n, s, frames, bytes, prev, stats, served, shared)
  {
    hide Tracks, Complete, Incomplete;
    var start := Fresh(s.have, s.frontier);
    TracksMeaning(log, root, have, n, start, frames, bytes, prev, stats);
    TracksDecided(log, root, have, n, start, frames, bytes, prev, stats, s.wanted);
  }

  lemma InLoopStep(log: Log, root: Key, have: set<Key>, n: nat, s: Loop, frames: seq<seq<seq<Key>>>, bytes: seq<nat>,
                   prev: seq<nat>, stats: Stats, served: bool, shared: bool, got: seq<Object>, t: Loop, owner: seq<nat>,
                   frames': seq<seq<seq<Key>>>, bytes': seq<nat>, stats': Stats)
    requires InLoop(log, root, have, n, s, frames, bytes, prev, stats, served, shared)
    requires |bytes'| == |frames'| == |bytes| == |prev| == n
    requires Round(s, got, t) && DealtBy(s.Sent(), Deltas(bytes, prev), owner) && |owner| == |s.Sent()|
    requires forall c: nat | c < n :: frames'[c] == AddFrame(frames[c], Shard(s.Sent(), owner, c, |s.Sent()|))
    requires |frames| == n
    requires stats'.rounds == stats.rounds + 1 && stats'.requested == stats.requested + |s.Sent()|
    requires stats'.received == stats.received + |KeySet(got)|
    requires served ==> Exact(s, got)
    requires !shared ==> t.Judged(t.have) && t.have == s.have + KeySet(got)
    ensures InLoop(Extend(log, got, t, bytes', owner), root, have, n, t, frames', bytes', bytes, stats', served, shared)
  {
    hide Tracks, Round, Exact, DealtBy, KeySet, AddFrame, Shard, Complete, WantList;
    TracksMeaning(log, root, have, n, s, frames, bytes, prev, stats);
    TracksStep(log, root, have, n, s, frames, bytes, prev, stats, got, t, owner, frames', bytes', stats');
  }

  /** What the loop has achieved when it ends, as its caller sees it. */
  lemma InLoopEnds(log: Log, root: Key, have: set<Key>, n: nat, s: Loop, frames: seq<seq<seq<Key>>>, bytes: seq<nat>,
                   prev: seq<nat>, stats: Stats, served: bool, shared: bool, now: set<Key>)
    requires InLoop(log, root, have, n, s, frames, bytes, prev, stats, served, shared)
    requires s.Wants() == [] && s.Judged(now) && s.have <= now && (!shared ==> now == s.have)
    ensures log.run.Valid(root, have) && log.run.Ends(now) && Complete(now, root)
    ensures FramesMatch(log, n, frames) && |frames| == n
    ensures log.wire != [] && bytes == log.wire[|log.wire| - 1]
    ensures stats.rounds == |log.run.packs|
    ensures stats.requested == |log.run.Requested(|log.run.packs|)|
    ensures stats.received == ReceivedCount(log.run, |log.run.packs|)
    ensures served ==> log.run.Honest() && have + Below(root) <= now && stats.received == stats.requested
    ensures served ==> stats.rounds <= Levels(root) + log.run.CappedRounds(|log.run.packs|)
    ensures served && !shared ==> now == have + Below(root)
    ensures served && !shared && have == {} && NoSharing(root) ==> stats.requested == |Below(root)|
    ensures !shared ==> log.run.Alone() && now == log.run.Last().have
  {
    hide Tracks, Complete, Below, Levels, NoSharing, FramesMatch, WantList, ReceivedCount;
    TracksMeaning(log, root, have, n, s, frames, bytes, prev, stats);
    NothingWanted(log.run, root, have, now);
  }

  // ---------- what was said on the channels ----------

  /** What each channel's peer was at the start of each round, and what it replied in each that succeeded. */
  datatype Talk = Talk(peers: seq<seq<Peer>>, replies: seq<seq<Reply>>)

  function Next(talk: Talk, replies: seq<Reply>, after: seq<Peer>): Talk {
    Talk(talk.peers + [after], talk.replies + [replies])
  }

  /** Every round so far succeeded with what the talk says came back. */
  ghost predicate TalkedAs(log: Log, talk: Talk, faults: set<Key>) {
    && |log.run.states| == |log.run.packs| + 1 == |talk.peers|
    && |talk.replies| == |log.owners| == |log.run.packs|
    && forall j: nat | j < |log.run.packs| :: RoundTalkedAs(log, talk, faults, j)
  }

  ghost predicate RoundTalkedAs(log: Log, talk: Talk, faults: set<Key>, j: nat)
    requires j < |log.run.packs| && j < |log.run.states| && j < |log.owners|
    requires j < |talk.replies| && j + 1 < |talk.peers|
  {
    RoundSucceeded(log.run.states[j].Sent(), log.owners[j], talk.peers[j], talk.replies[j], talk.peers[j + 1], faults,
                   log.run.packs[j])
  }

  lemma TalkDecided(log: Log, talk: Talk, faults: set<Key>, wanted: set<Key>)
    requires TalkedAs(log, talk, faults)
    ensures TalkedAs(Decided(log, wanted), talk, faults)
  {
    hide RoundSucceeded, WantList;
    var more := Decided(log, wanted);
    forall j: nat | j < |more.run.packs|
      ensures RoundTalkedAs(more, talk, faults, j)
    {
      assert RoundTalkedAs(log, talk, faults, j);
      assert more.run.states[j] == log.run.states[j];
    }
  }

  lemma TalkNext(log: Log, talk: Talk, faults: set<Key>, got: seq<Object>, t: Loop, wire: seq<nat>, owner: seq<nat>,
                 replies: seq<Reply>, after: seq<Peer>)
    requires TalkedAs(log, talk, faults)
    requires RoundSucceeded(log.run.Last().Sent(), owner, talk.peers[|talk.peers| - 1], replies, after, faults, got)
    ensures TalkedAs(Extend(log, got, t, wire, owner), Next(talk, replies, after), faults)
  {
    hide RoundSucceeded, WantList;
    var more, said, n := Extend(log, got, t, wire, owner), Next(talk, replies, after), |log.run.packs|;
    forall j: nat | j < |more.run.packs|
      ensures RoundTalkedAs(more, said, faults, j)
    {
      assert j < n ==> RoundTalkedAs(log, talk, faults, j);
      assert more.run.states[j] == log.run.states[j];
    }
  }

  /** Why the loop failed, from its last round. */
  ghost predicate LoopFailed(log: Log, talk: Talk, faults: set<Key>, shared: bool, now: set<Key>, e: Error) {
    && log.run.states != [] && talk.peers != []
    && var (s, peers) := (log.run.Last(), talk.peers[|talk.peers| - 1]);
       || (exists f, x :: f in s.frontier && FoundFault(faults, now, f, x) && e == StoreFault(x)
                       && (shared || x == f || f in s.have))
       || (s.Wants() == [] && exists c: nat :: FirstNotWritable(peers, c) && e == CannotSend(c))
       || (s.Wants() != [] &&
           exists owner, replies, after :: RoundFailed(s.Sent(), owner, peers, replies, after, faults, e))
  }

  lemma LoopFailedLater(log: Log, talk: Talk, faults: set<Key>, shared: bool, earlier: set<Key>, now: set<Key>,
                        e: Error)
    requires LoopFailed(log, talk, faults, shared, earlier, e) && earlier <= now
    ensures LoopFailed(log, talk, faults, shared, now, e)
  {
    hide RoundFailed, WantList, Reaches;
    var s := log.run.Last();
    forall f, x | FoundFault(faults, earlier, f, x)
      ensures FoundFault(faults, now, f, x)
    {
    }
  }

  lemma FailedInRound(log: Log, talk: Talk, st: Store, owner: seq<nat>, replies: seq<Reply>, after: seq<Peer>, e: Error)
    requires log.run.states != [] && talk.peers != [] && log.run.Last().Wants() != []
    requires RoundFailed(log.run.Last().Sent(), owner, talk.peers[|talk.peers| - 1], replies, after, st.faults, e)
    ensures LoopFailed(log, talk, st.faults, st.shared, st.objects, e)
  {
    hide RoundFailed, WantList, FoundFault;
  }

  lemma FailedJudging(log: Log, talk: Talk, st: Store, f: Key, x: Key)
    requires log.run.states != [] && talk.peers != []
    requires f in log.run.Last().frontier && FoundFault(st.faults, st.objects, f, x)
    requires st.shared || st.objects == log.run.Last().have
    ensures LoopFailed(log, talk, st.faults, st.shared, st.objects, StoreFault(x))
  {
    hide RoundFailed, WantList, Reaches;
  }

  lemma FailedEnding(log: Log, talk: Talk, st: Store, c: nat)
    requires log.run.states != [] && talk.peers != [] && log.run.Last().Wants() == []
    requires FirstNotWritable(talk.peers[|talk.peers| - 1], c)
    ensures LoopFailed(log, talk, st.faults, st.shared, st.objects, CannotSend(c))
  {
    hide RoundFailed, WantList, FoundFault, FirstNotWritable;
  }

  /**
   The receiving loop. The store may be shared: whenever the loop looks at it or writes to
   it, others may have stored more.
   */
  method Receive(peers0: seq<Peer>, st: Store, root: Key)
    returns (r: Result<Stats, Error>, frames: seq<seq<seq<Key>>>, ghost log: Log, ghost talk: Talk)
    requires |peers0| >= 1
    modifies st
    ensures log.run.Valid(root, old(st.objects)) && old(st.objects) <= st.objects
    // success means the whole tree, whatever the peers and the other writers did
    ensures r.Ok? ==> log.run.Ends(st.objects) && Complete(st.objects, root)
    ensures r.Ok? ==> r.value.rounds == |log.run.packs| + 1
    ensures r.Ok? ==> r.value.requested == |log.run.Requested(|log.run.packs|)|
    ensures r.Ok? ==> r.value.received == ReceivedCount(log.run, |log.run.packs|)
    ensures r.Ok? ==> log.wire != [] && r.value.bytes == Sum(log.wire[|log.wire| - 1])
    // every round took in all that the peers sent, and a failure is explained by what happened in the last one
    ensures TalkedAs(log, talk, st.faults) && talk.peers[0] == peers0
    ensures r.Err? ==> LoopFailed(log, talk, st.faults, st.shared, st.objects, r.error)
    // each channel got its non-empty shards, dealt by throughput, then the one empty frame
    ensures r.Ok? ==> |frames| == |peers0| && FramesMatch(log, |peers0|, WithoutLast(frames))
    ensures r.Ok? ==> forall c | 0 <= c < |frames| :: frames[c] != [] && frames[c][|frames[c]| - 1] == []
    // without other writers the store holds what it held and what arrived
    ensures !st.shared ==> log.run.Alone()
    ensures !st.shared && r.Ok? ==> st.objects == log.run.Last().have
    // peers that hold the tree always bring the loop to success
    ensures Supplied(peers0, st, root) ==> r.Ok? && log.run.Honest()
    ensures Supplied(peers0, st, root) ==> old(st.objects) + Below(root) <= st.objects
    ensures Supplied(peers0, st, root) ==> r.value.received == r.value.requested
    ensures Supplied(peers0, st, root) ==>
              r.value.rounds <= Levels(root) + 1 + log.run.CappedRounds(|log.run.packs|)
    ensures Supplied(peers0, st, root) && !st.shared ==> st.objects == old(st.objects) + Below(root)
    ensures Supplied(peers0, st, root) && !st.shared && old(st.objects) == {} && NoSharing(root) ==>
              r.value.received == r.value.requested == |Below(root)|
  {
    hide InLoop, Round, Exact, DealtBy, Shard, AddFrame, FramesMatch, Supplied, CanServe, Complete, KeySet, Reaches,
      ScriptsLeft, Below, ReceivedCount, WantList, Sum, Levels, PathsAll, Incomplete, NoSharing, HoldTree, Decided,
      Extend, WithoutLast, Run.Valid, Run.Honest, Run.Alone, Run.Requested, Run.CappedRounds, Loop.Judged, Deltas,
      Floored, TalkedAs, LoopFailed, RoundSucceeded, RoundFailed, FoundFault, FirstNotWritable,
      SplitWants;
    var n := |peers0|;
    var peers, frontier := peers0, [root];
    var bytes: seq<nat> := seq(n, _ => 0);
    var prev, stats := bytes, Stats(0, 0, 0, 0);
    ghost var have, served, shared := st.objects, Supplied(peers0, st, root), st.shared;
    frames := seq(n, _ => []);
    log := Log(Run([Fresh(have, frontier)], []), [bytes], []);
    InLoopStart(root, have, n, bytes, served, shared);
    talk := Talk([peers0], []);
    TalkStart(log, talk, st.faults);
    while true
      invariant talk.peers != [] && talk.peers[0] == peers0 && talk.peers[|talk.peers| - 1] == peers
      invariant TalkedAs(log, talk, st.faults)
      invariant |peers| == n && have <= st.objects && (served ==> peers == peers0)
      invariant InLoop(log, root, have, n, Fresh(st.objects, frontier), frames, bytes, prev, stats, served, shared)
      decreases ScriptsLeft(peers), |PathsAll(frontier)|
    {
      ghost var start, frames0, stats0 := st.objects, frames, stats;
      InLoopMeaning(log, root, have, n, Fresh(start, frontier), frames, bytes, prev, stats, served, shared);
      var all;
      ghost var wanted;
      all, wanted := Wants(st, frontier);
      if all.Err? {
        SuppliedMeaning(peers0, st, root);
        ghost var f, x :| f in frontier && FoundFault(st.faults, st.objects, f, x) && all == Err(StoreFault(x));
        FaultIsFault(st, f, x);
        NobodyElse(st, start);
        FailedJudging(log, talk, st, f, x);
        return Err(all.error), frames, log, talk;
      }
      ghost var s := Loop(start, frontier, wanted);
      NobodyElse(st, start);
      InLoopDecided(log, root, have, n, s, frames, bytes, prev, stats, served, shared, st.objects);
      TalkDecided(log, talk, st.faults, wanted);
      log := Decided(log, wanted);
      InLoopMeaning(log, root, have, n, s, frames, bytes, prev, stats, served, shared);
      if served {
        SuppliedMeaning(peers0, st, root);
        ServedFrontier(log, root, have, peers);
      }
      var (wants, carry) := SplitWants(all.value, MAX_WANTS_PER_ROUND);
      stats := stats.(rounds := stats.rounds + 1, requested := stats.requested + |wants|);
      if wants == [] {
        var e;
        frames, e := Finish(peers, frames);
        if e.Some? {
          ghost var c: nat :| FirstNotWritable(peers, c) && e == Some(CannotSend(c));
          WritableWhenHonest(peers, c);
          FailedEnding(log, talk, st, c);
          SuppliedMeaning(peers0, st, root);
          return Err(e.value), frames, log, talk;
        }
        InLoopEnds(log, root, have, n, s, frames0, bytes, prev, stats0, served, shared, st.objects);
        assert WithoutLast(frames) == frames0;
        return Ok(stats.(bytes := Sum(bytes))), frames, log, talk;
      }
      var round, received;
      ghost var got, owner, replies;
      round, peers, frames, received, got, owner, replies :=
        OneRound(st, peers, frames, Deltas(bytes, prev), s, wants, carry);
      if round.Err? {
        FailedInRound(log, talk, st, owner, replies, peers, round.error);
        return Err(round.error), frames, log, talk;
      }
      stats := stats.(received := stats.received + |received|);
      var bytes' := ReadBytes(bytes);
      ghost var t := Fresh(st.objects, round.value);
      FreshIsJudged(st.objects, round.value);
      FrontierShrinks(s, got, t);
      InLoopStep(log, root, have, n, s, frames0, bytes, prev, stats0, served, shared, got, t, owner, frames, bytes',
                 stats);
      TalkNext(log, talk, st.faults, got, t, bytes', owner, replies, peers);
      log, talk := Extend(log, got, t, bytes', owner), Next(talk, replies, peers);
      frontier, bytes, prev := round.value, bytes', bytes;
    }
  }

  lemma TalkStart(log: Log, talk: Talk, faults: set<Key>)
    requires |log.run.states| == 1 && log.run.packs == [] && log.owners == []
    requires |talk.peers| == 1 && talk.replies == []
    ensures TalkedAs(log, talk, faults)
  {
  }

  lemma FaultIsFault(st: Store, f: Key, x: Key)
    requires FoundFault(st.faults, st.objects, f, x)
    ensures x in st.faults
  {
  }

  lemma WritableWhenHonest(peers: seq<Peer>, c: nat)
    requires FirstNotWritable(peers, c)
    ensures c < |peers| && peers[c].Script?
  {
  }

  lemma NobodyElse(st: Store, before: set<Key>)
    requires st.Since(before, {})
    ensures before <= st.objects && (!st.shared ==> st.objects == before)
  {
    assert before + {} == before;
  }

  lemma SuppliedMeaning(peers: seq<Peer>, st: Store, root: Key)
    ensures Supplied(peers, st, root) <==> HoldTree(peers, root) && st.faults == {}
  {
  }

  /** Every channel's peer has the whole tree and this side's store works. */
  ghost predicate Supplied(peers: seq<Peer>, st: Store, root: Key) { HoldTree(peers, root) && st.faults == {} }

  /**
   A sender that lacks the object it is first asked for: its error frame is reported as
   its own.
   */
  method LackingSender(st: Store, root: Key) returns (r: Result<Stats, Error>)
    requires !st.shared && root !in st.objects && root !in st.faults
    modifies st
    ensures r == Err(Remote(0))
  {
    hide FramesMatch, Complete, TalkedAs, LoopFailed, Run.Alone, Run.Ends, Run.Valid, Supplied, NoSharing, Below,
      Levels;
    ghost var have := st.objects;
    var frames;
    ghost var log, talk;
    r, frames, log, talk := Receive([Script([Pack([], ErrorFrame)])], st, root);
    FirstRoundLacks(log, talk, st, root, have);
    if r.Ok? {
      AsksForRoot(log.run, root, have);
      EndsWantsNothing(log.run, st.objects);
    } else {
      LackingReported(log, talk, st, root, have, r.error);
    }
  }

  lemma EndsWantsNothing(run: Run, now: set<Key>)
    requires run.states != [] && run.Ends(now)
    ensures run.Last().Wants() == []
  {
  }

  /** What such a sender replies when it is asked for the root alone. */
  lemma LackingReply(sent: seq<Key>, root: Key, owner: seq<nat>, peers: seq<Peer>, replies: seq<Reply>,
                     after: seq<Peer>)
    requires sent == [root] && peers == [Script([Pack([], ErrorFrame)])]
    requires Answered(sent, owner, peers, replies, after)
    ensures replies == [Pack([], ErrorFrame)]
  {
    assert owner[0] == 0;
    assert Shard(sent, owner, 0, 1) == Shard(sent, owner, 0, 0) + [root];
    assert Responds(peers[0], Shard(sent, owner, 0, 1), replies[0], after[0]);
  }

  /** A round that begins with the absent root at its frontier asks for it. */
  lemma RootIsAsked(s: Loop, root: Key)
    requires s.frontier == [root] && s.Wants() != []
    ensures s.Sent() == [root]
  {
    WantListMembers(s.frontier, s.wanted);
    assert s.frontier[..0] == [] && WantList(s.frontier[..0], s.wanted) == [];
    assert s.Wants() == [root];
  }

  lemma FirstRoundLacks(log: Log, talk: Talk, st: Store, root: Key, have: set<Key>)
    requires log.run.Valid(root, have) && TalkedAs(log, talk, st.faults)
    requires talk.peers[0] == [Script([Pack([], ErrorFrame)])]
    ensures |log.run.packs| == 0 && |log.run.states| == 1
  {
    hide Shard, Responds, Flatten, WantList, Complete, BadObject;
    if |log.run.packs| > 0 {
      var s := log.run.states[0];
      assert RoundTalkedAs(log, talk, st.faults, 0);
      assert Round(s, log.run.packs[0], log.run.states[1]);
      SentIsWanted(s);
      RootIsAsked(s, root);
      LackingReply(s.Sent(), root, log.owners[0], talk.peers[0], talk.replies[0], talk.peers[1]);
      NotAllEnded(talk.replies[0]);
    }
  }

  lemma NotAllEnded(replies: seq<Reply>)
    requires replies == [Pack([], ErrorFrame)]
    ensures AllPacks(replies) && !AllEnded(replies)
  {
    assert replies[0].end != Ended;
  }

  lemma SentIsWanted(s: Loop)
    ensures s.Sent() != [] ==> s.Wants() != []
  {
    hide WantList;
  }

  lemma AsksForRoot(run: Run, root: Key, have: set<Key>)
    requires run.Valid(root, have) && run.Alone() && |run.packs| == 0 && root !in have
    ensures run.Last().frontier == [root] && run.Last().have == have && run.Last().Wants() != []
  {
    var s := run.states[0];
    assert s.Judged(s.have);
    WantListMembers(s.frontier, s.wanted);
    assert root in s.frontier && !Complete(have, root);
    assert root in s.Wants();
  }

  lemma LackingReported(log: Log, talk: Talk, st: Store, root: Key, have: set<Key>, e: Error)
    requires log.run.Valid(root, have) && log.run.Alone() && |log.run.packs| == 0 && root !in have
    requires !st.shared && root !in st.faults
    requires TalkedAs(log, talk, st.faults) && talk.peers[0] == [Script([Pack([], ErrorFrame)])]
    requires LoopFailed(log, talk, st.faults, st.shared, st.objects, e)
    ensures e == Remote(0)
  {
    hide Shard, Responds, Flatten, WantList, Complete;
    AsksForRoot(log.run, root, have);
    var s := log.run.Last();
    RootIsAsked(s, root);
    assert forall f | f in s.frontier :: f == root;
    var owner, replies, after :| RoundFailed(s.Sent(), owner, talk.peers[0], replies, after, st.faults, e);
    LackingError(owner, root, replies, after, st.faults, e);
  }

  lemma LackingError(owner: seq<nat>, root: Key, replies: seq<Reply>, after: seq<Peer>, faults: set<Key>, e: Error)
    requires RoundFailed([root], owner, [Script([Pack([], ErrorFrame)])], replies, after, faults, e)
    ensures e == Remote(0)
  {
    hide Shard, Responds, Answered;
    var peers := [Script([Pack([], ErrorFrame)])];
    assert NoneBlocked([root], owner, peers);
    LackingReply([root], root, owner, peers, replies, after);
    assert replies[0].end == ErrorFrame;
    var c: nat :| FirstErrorFrame(Ends(replies), c) && e == Remote(c);
  }

  // ---------- what the sending loops make of it ----------

  function WantFramesOf(frames: seq<seq<Key>>): (rs: seq<Request>)
    ensures |rs| == |frames| && forall i | 0 <= i < |frames| :: rs[i] == WantFrame(frames[i])
  {
    seq(|frames|, i requires 0 <= i < |frames| => WantFrame(frames[i]))
  }

  lemma {:induction false} FramesBelowRoot(log: Log, root: Key, have: set<Key>, c: nat, m: nat)
    requires log.run.Valid(root, have) && log.run.Honest() && m <= |log.owners| == |log.run.packs|
    requires forall j | 0 <= j < |log.owners| :: |log.owners[j]| == |log.run.states[j].Sent()|
    ensures forall f | f in FramesOf(log, c, m) :: f != [] && forall k | k in f :: Reaches(root, k)
  {
    hide Reaches, Round, Exact, Shard, WantList;
    if m > 0 {
      var sent := log.run.states[m - 1].Sent();
      FramesBelowRoot(log, root, have, c, m - 1);
      RequestedReachable(log.run, root, have, m);
      ShardMembers(sent, log.owners[m - 1], c);
    }
  }

  lemma ShardMembers(wants: seq<Key>, owner: seq<nat>, i: nat)
    requires |wants| == |owner|
    ensures forall k | k in Shard(wants, owner, i, |wants|) :: k in wants
  {
    SubShard(wants, owner, i, |wants|);
    assert wants[..|wants|] == wants;
    forall k | k in Shard(wants, owner, i, |wants|)
      ensures k in wants
    {
      assert k in multiset(Shard(wants, owner, i, |wants|));
    }
  }

  /**
   The other end of a successful loop: a sender that has the tree, and whose packs can be
   written, answers all of the channel's frames but the last with complete packs, ends on
   the last, and reports no error.
   */
  lemma SenderEndsWell(log: Log, n: nat, frames: seq<seq<seq<Key>>>, root: Key, have: set<Key>, c: nat,
                       objects: set<Key>, packs: seq<Reply>, r: Result<(), Error>)
    requires log.run.Valid(root, have) && log.run.Honest()
    requires |frames| == n && FramesMatch(log, n, WithoutLast(frames)) && c < n
    requires frames[c] != [] && frames[c][|frames[c]| - 1] == []
    requires Complete(objects, root)
    requires Serves(objects, WantFramesOf(frames[c]), packs, r) && r != Err(LocalWrite)
    ensures r == Ok(()) && |packs| == |frames[c]| - 1
    ensures forall i | 0 <= i < |packs| :: packs[i].Pack? && packs[i].end == Ended
  {
    hide Reaches, Complete, Round, Exact, Shard, IsAnswer, DealtByThroughput, FramesOf;
    TracksDeal(log, n, WithoutLast(frames));
    FramesBelowRoot(log, root, have, c, |log.owners|);
    CompleteIffNothingMissing(objects, root);
    var requests, last := frames[c], |frames[c]| - 1;
    assert WithoutLast(frames)[c] == requests[..last];
    forall i | 0 <= i < last
      ensures requests[i] != [] && forall k | k in requests[i] :: k in objects
    {
      assert requests[i] == requests[..last][i] && requests[..last][i] in requests[..last];
    }
    forall i | 0 <= i < |packs|
      ensures packs[i].Pack? && packs[i].end == Ended
    {
      AnsweredInFull(objects, requests[i], packs[i]);
    }
  }

  lemma AnsweredInFull(have: set<Key>, keys: seq<Key>, reply: Reply)
    requires forall k | k in keys :: k in have
    ensures IsAnswer(have, keys, reply) ==> reply.Pack? && reply.end == Ended
  {
  }

  /** The frames of every channel but its last one. */
  function WithoutLast(frames: seq<seq<seq<Key>>>): (r: seq<seq<seq<Key>>>)
    ensures |r| == |frames|
    ensures forall c | 0 <= c < |frames| && frames[c] != [] :: r[c] == frames[c][..|frames[c]| - 1]
  {
    seq(|frames|, c requires 0 <= c < |frames| => if frames[c] == [] then [] else frames[c][..|frames[c]| - 1])
  }
}

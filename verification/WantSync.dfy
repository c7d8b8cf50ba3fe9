/**
 The programs of an object transfer. The receiving side asks for keys that are not whole
 below a root and stores the objects that come back; the sending side reads the keys it is
 asked for and sends their objects. How rounds make up a transfer is in module Receiving.
 */
module WantSync {
  import opened Basics
  import opened Dag
  import opened Rounds
  import opened HonestRuns

  datatype Error =
    | StoreFault(key: Key)            // the store failed, as opposed to not having the object
    | NotVerified(object: Object)     // bytes that do not hash to the claimed key
    | CannotSend(channel: nat)        // writing a frame failed
    | Remote(channel: nat)            // the peer sent an error frame inside its pack
    | Undecodable(channels: set<nat>, remote: bool) // packs that did not decode, or reported an error after their end
    | Omitted(missing: nat, wanted: nat, example: Key)
    | LocalRead                       // the sender could not read a requested object
    | LocalWrite                      // the sender could not write its pack
    | RemoteFailure | UnexpectedFrame | BadKey | Disconnected

  // ---------- the store ----------

  /** What the completeness walk below a key found. */
  datatype Walk = Whole | Missing(key: Key) | Faulty(key: Key)

  class Store {
    var objects: set<Key>
    /** Keys whose record cannot be read or written. */
    const faults: set<Key>
    /** Whether others write to this store at the same time. Nobody ever removes anything. */
    const shared: bool

    constructor (objects: set<Key>, faults: set<Key>, shared: bool)
      ensures this.objects == objects && this.faults == faults && this.shared == shared
    {
      this.objects, this.faults, this.shared := objects, faults, shared;
    }

    /** Nothing that was there is gone, and nothing came unless it was stored by `mine` or by others. */
    predicate Since(before: set<Key>, mine: set<Key>)
      reads this
    {
      before + mine <= objects && (!shared ==> objects == before + mine)
    }

    /** What others stored in the meantime. */
    method Others()
      modifies this
      ensures Since(old(objects), {})
    {
      if shared {
        var more: set<Key> := *;
        objects := objects + more;
      }
    }

    method Has(k: Key) returns (r: Result<bool, Error>)
      modifies this
      ensures Since(old(objects), {})
      ensures r == if k in faults then Err(StoreFault(k)) else Ok(k in objects)
    {
      Others();
      r := if k in faults then Err(StoreFault(k)) else Ok(k in objects);
    }

    /**
     The walk stops at the first object it cannot find or cannot read. What it finds whole
     is whole at its end; what it misses was missing when it began.
     */
    method CheckComplete(k: Key) returns (r: Walk)
      modifies this
      ensures Since(old(objects), {})
      ensures r.Whole? ==> Complete(objects, k)
      ensures r.Whole? ==> !FaultBelow(faults, k)
      ensures r.Missing? ==> Reaches(k, r.key) && r.key !in old(objects) && r.key !in faults
      ensures r.Faulty? ==> Reaches(k, r.key) && r.key in faults && (r.key == k || k in objects)
      decreases k
    {
      Others();
      if k in faults {
        return Faulty(k);
      }
      if k !in objects {
        return Missing(k);
      }
      for i := 0 to |k.kids|
        invariant Since(old(objects), {}) && k in objects
        invariant forall j | 0 <= j < i :: Complete(objects, k.kids[j]) && !FaultBelow(faults, k.kids[j])
      {
        ghost var before := objects;
        r := CheckComplete(k.kids[i]);
        if !r.Whole? {
          return;
        }
        StillComplete(before, objects);
      }
      r := Whole;
    }

    /** Verifies an object against its key and stores it. */
    method Put(o: Object) returns (e: Option<Error>)
      modifies this
      ensures e.None? <==> o.Verifies() && o.key !in faults
      ensures e.Some? ==> e.value == if !o.Verifies() then NotVerified(o) else StoreFault(o.key)
      ensures Since(old(objects), if e.None? then {o.key} else {})
    {
      Others();
      if !o.Verifies() {
        e := Some(NotVerified(o));
      } else if o.key in faults {
        e := Some(StoreFault(o.key));
      } else {
        objects := objects + {o.key};
        e := None;
      }
    }
  }

  /** Some key at or below `k` cannot be read. */
  ghost predicate FaultBelow(faults: set<Key>, k: Key) { exists x :: Reaches(k, x) && x in faults }

  lemma StillComplete(have: set<Key>, more: set<Key>)
    requires have <= more
    ensures forall k | Complete(have, k) :: Complete(more, k)
  {
    forall k | Complete(have, k)
      ensures Complete(more, k)
    {
      CompleteMonotone(have, more, k);
    }
  }

  // ---------- the sending half ----------

  /** How the frames of one pack end. */
  datatype PackEnd =
    | Ended
    | ErrorFrame   // an error frame where more of the pack was expected
    | LateError    // an error frame after the pack's own end marker, found while draining
    | BrokenOff

  /** What comes back on a channel for one want frame, if the frame could be written at all. */
  datatype Reply = Unwritable | Pack(objects: seq<Object>, end: PackEnd)

  /** Repeats dropped, first use kept. */
  function Dedupe(keys: seq<Key>): seq<Key> {
    if keys == [] then []
    else
      var n := |keys| - 1;
      if keys[n] in keys[..n] then Dedupe(keys[..n]) else Dedupe(keys[..n]) + [keys[n]]
  }

  lemma {:induction false} DedupeMeaning(keys: seq<Key>)
    ensures forall k :: k in Dedupe(keys) <==> k in keys
    ensures InOrderOfFirstUse(Dedupe(keys), keys)
  {
    if keys != [] {
      var n := |keys| - 1;
      var before := Dedupe(keys[..n]);
      DedupeMeaning(keys[..n]);
      assert keys == keys[..n] + [keys[n]];
      if keys[n] !in keys[..n] {
        FirstIndexUnique(keys, n);
      }
      forall i, j | 0 <= i < j < |Dedupe(keys)|
        ensures FirstIndex(keys, Dedupe(keys)[i]) < FirstIndex(keys, Dedupe(keys)[j])
      {
        assert before[i] == Dedupe(keys)[i] && before[i] in before;
        FirstIndexPrefix(keys, n, before[i]);
        if j < |before| {
          assert before[j] == Dedupe(keys)[j] && before[j] in before;
          FirstIndexPrefix(keys, n, before[j]);
        } else {
          assert Dedupe(keys)[j] == keys[n];
        }
      }
    }
  }

  lemma {:induction false} DedupeDistinct(keys: seq<Key>)
    requires forall k :: multiset(keys)[k] <= 1
    ensures Dedupe(keys) == keys
  {
    if keys != [] {
      var n := |keys| - 1;
      assert keys == keys[..n] + [keys[n]];
      forall k
        ensures multiset(keys[..n])[k] <= 1
      {
        assert multiset(keys)[k] <= 1;
      }
      DedupeDistinct(keys[..n]);
      assert multiset(keys)[keys[n]] <= 1;
      assert keys[n] !in multiset(keys[..n]);
    }
  }

  /** Drops repeats in place; the first `n` elements are what is left. */
  method DedupeKeys(keys: array<Key>) returns (n: nat)
    modifies keys
    ensures n <= keys.Length && keys[..n] == Dedupe(old(keys[..]))
  {
    hide Dedupe;
    var seen := {};
    n := 0;
    ghost var all := keys[..];
    DedupeNothing(all);
    for i := 0 to keys.Length
      invariant n <= i
      invariant seen == Elements(all[..i])
      invariant keys[..n] == Dedupe(all[..i])
      invariant keys[i..] == all[i..]
    {
      var k := keys[i];
      assert k == all[i..][0] == all[i];
      DedupeNext(all, i);
      assert keys[i + 1..] == all[i..][1..];
      if k !in seen {
        seen := seen + {k};
        keys[n] := k;
        n := n + 1;
      }
    }
    assert all[..keys.Length] == all;
  }

  lemma DedupeNothing(all: seq<Key>)
    ensures Dedupe(all[..0]) == []
  {
  }

  lemma DedupeNext(all: seq<Key>, i: nat)
    requires i < |all|
    ensures all[i..][1..] == all[i + 1..]
    ensures Elements(all[..i + 1]) == Elements(all[..i]) + {all[i]}
    ensures Dedupe(all[..i + 1]) == if all[i] in all[..i] then Dedupe(all[..i]) else Dedupe(all[..i]) + [all[i]]
  {
    var more := all[..i + 1];
    assert more[..i] == all[..i];
    assert more == all[..i] + [all[i]];
    assert Dedupe(more) == if more[i] in more[..i] then Dedupe(more[..i]) else Dedupe(more[..i]) + [more[i]];
  }

  /** Exactly the requested objects, once each, or an error frame when one cannot be read. */
  ghost predicate IsAnswer(have: set<Key>, keys: seq<Key>, reply: Reply) {
    && reply.Pack?
    && (forall o | o in reply.objects :: o.Verifies() && o.key in keys && o.key in have)
    && reply.end == (if forall k | k in keys :: k in have then Ended else ErrorFrame)
    && (reply.end == Ended ==> multiset(Keys(reply.objects)) == multiset(Dedupe(keys)))
  }

  method Answer(have: set<Key>, wanted: seq<Key>) returns (reply: Reply)
    ensures IsAnswer(have, wanted, reply)
  {
    var keys := new Key[|wanted|](i requires 0 <= i < |wanted| => wanted[i]);
    assert keys[..] == wanted;
    var n := DedupeKeys(keys);
    DedupeMeaning(wanted);
    var order := SortByLocation(keys[..n]);
    SameElements(order, Dedupe(wanted));
    reply := ReadObjects(have, order);
  }

  /** The order in which records lie on disk is not the caller's: any arrangement may come back. */
  method SortByLocation(keys: seq<Key>) returns (order: seq<Key>)
    ensures multiset(order) == multiset(keys)
  {
    assert multiset(keys) == multiset(keys); // the order they are in is one
    order :| multiset(order) == multiset(keys);
  }

  method ReadObjects(have: set<Key>, order: seq<Key>) returns (reply: Reply)
    ensures reply.Pack? && Keys(reply.objects) <= order
    ensures forall o | o in reply.objects :: o.Verifies() && o.key in order && o.key in have
    ensures reply.end == (if forall k | k in order :: k in have then Ended else ErrorFrame)
    ensures reply.end == Ended ==> Keys(reply.objects) == order
  {
    var objects := [];
    for i := 0 to |order|
      invariant objects == ObjectsOf(order[..i])
      invariant forall j | 0 <= j < i :: order[j] in have
    {
      if order[i] !in have {
        return Pack(objects, ErrorFrame);
      }
      objects := objects + [ObjectOf(order[i])];
    }
    reply := Pack(objects, Ended);
  }

  lemma SameElements(a: seq<Key>, b: seq<Key>)
    requires multiset(a) == multiset(b)
    ensures forall k :: k in a <==> k in b
  {
    forall k
      ensures k in a <==> k in b
    {
      assert k in a <==> k in multiset(a);
      assert k in b <==> k in multiset(b);
    }
  }

  /** A frame as the sender reads it. */
  datatype Request = WantFrame(keys: seq<Key>) | MalformedKeys | ErrorReport | OtherFrame

  /** How the loop ends on a frame it does not answer. */
  function Verdict(request: Request): Result<(), Error>
  {
    match request
    case WantFrame(_) => Ok(())
    case MalformedKeys => Err(BadKey)
    case ErrorReport => Err(RemoteFailure)
    case OtherFrame => Err(UnexpectedFrame)
  }

  /** A pack whose frames could not all be written: some of an answer, and no end. */
  ghost predicate IsCutAnswer(have: set<Key>, keys: seq<Key>, reply: Reply) {
    && reply.Pack? && reply.end == BrokenOff
    && forall o | o in reply.objects :: o.Verifies() && o.key in keys && o.key in have
  }

  /** One answer for each non-empty want frame, up to the first frame or answer that ends the loop. */
  ghost predicate Serves(have: set<Key>, requests: seq<Request>, packs: seq<Reply>, r: Result<(), Error>) {
    && |packs| <= |requests|
    && (forall i | 0 <= i < |packs| :: requests[i].WantFrame? && requests[i].keys != [] && packs[i].Pack?)
    && (forall i | 0 <= i < |packs| ::
          if r == Err(LocalWrite) && i == |packs| - 1 then IsCutAnswer(have, requests[i].keys, packs[i])
          else IsAnswer(have, requests[i].keys, packs[i]))
    && (forall i | 0 <= i < |packs| - 1 :: packs[i].end == Ended)
    && if packs != [] && packs[|packs| - 1].end == BrokenOff then r == Err(LocalWrite)
       else if packs != [] && packs[|packs| - 1].end != Ended then r == Err(LocalRead)
       else if |packs| == |requests| then r == Err(Disconnected)
       else
         match requests[|packs|]
         case WantFrame(keys) => keys == [] && r == Ok(())
         case MalformedKeys => r == Err(BadKey)
         case ErrorReport => r == Err(RemoteFailure)
         case OtherFrame => r == Err(UnexpectedFrame)
  }

  /** The loop ends without an error exactly on an empty want frame it got to, all before it answered in full. */
  lemma EndsWellIff(have: set<Key>, requests: seq<Request>, packs: seq<Reply>, r: Result<(), Error>)
    requires Serves(have, requests, packs, r)
    ensures r == Ok(()) <==>
              && |packs| < |requests| && requests[|packs|] == WantFrame([])
              && (packs == [] || packs[|packs| - 1].end == Ended)
    ensures r.Err? ==> r.error in {LocalRead, LocalWrite, Disconnected, BadKey, RemoteFailure, UnexpectedFrame}
  {
    hide IsAnswer, IsCutAnswer;
  }

  /**
   Answers non-empty want frames, one pack each, until an empty one ends the loop, a frame
   is out of place, an object cannot be read, a frame cannot be written, or the stream ends.
   */
  method Send(have: set<Key>, requests: seq<Request>) returns (packs: seq<Reply>, r: Result<(), Error>)
    ensures Serves(have, requests, packs, r)
  {
    hide IsAnswer, IsCutAnswer;
    packs := [];
    for i := 0 to |requests|
      invariant |packs| == i
      invariant forall j | 0 <= j < i :: requests[j].WantFrame? && requests[j].keys != []
      invariant forall j | 0 <= j < i ::
                  packs[j].Pack? && packs[j].end == Ended && IsAnswer(have, requests[j].keys, packs[j])
    {
      if !requests[i].WantFrame? || requests[i].keys == [] {
        r := Verdict(requests[i]);
        return;
      }
      var reply := Answer(have, requests[i].keys);
      AnswerShape(have, requests[i].keys, reply);
      if * {
        // the stream took only the beginning of the pack
        var n: nat :| n <= |reply.objects|;
        packs := packs + [Pack(reply.objects[..n], BrokenOff)];
        r := Err(LocalWrite);
        return;
      }
      packs := packs + [reply];
      if reply.end != Ended {
        r := Err(LocalRead);
        return;
      }
    }
    r := Err(Disconnected);
  }

  lemma AnswerShape(have: set<Key>, keys: seq<Key>, reply: Reply)
    requires IsAnswer(have, keys, reply)
    ensures reply.Pack? && reply.end in {Ended, ErrorFrame}
    ensures forall n: nat | n <= |reply.objects| :: IsCutAnswer(have, keys, Pack(reply.objects[..n], BrokenOff))
  {
  }

  // ---------- the receiving half ----------

  /** The first `n` frontier keys have been judged, from when the store was `start` to when it is `now`. */
  ghost predicate JudgedFirst(frontier: seq<Key>, n: nat, wanted: set<Key>, start: set<Key>, now: set<Key>) {
    && n <= |frontier|
    && (forall k | k in wanted :: k in frontier[..n] && !Complete(start, k))
    && forall k | k in frontier[..n] && k !in wanted :: Complete(now, k)
  }

  lemma JudgedNext(frontier: seq<Key>, n: nat, wanted: set<Key>, start: set<Key>, before: set<Key>, now: set<Key>,
                   want: bool)
    requires JudgedFirst(frontier, n, wanted, start, before) && n < |frontier| && before <= now
    requires if want then !Complete(start, frontier[n]) else Complete(now, frontier[n])
    requires frontier[n] !in frontier[..n]
    ensures var more := if want then wanted + {frontier[n]} else wanted;
            && JudgedFirst(frontier, n + 1, more, start, now)
            && WantList(frontier[..n + 1], more) == WantList(frontier[..n], wanted) + if want then [frontier[n]] else []
  {
    hide Complete;
    StillComplete(before, now);
    var more := if want then wanted + {frontier[n]} else wanted;
    assert frontier[..n + 1] == frontier[..n] + [frontier[n]];
    assert frontier[..n + 1][..n] == frontier[..n];
    WantListLocal(frontier[..n], wanted, more);
  }

  lemma JudgedRepeat(frontier: seq<Key>, n: nat, wanted: set<Key>, start: set<Key>, now: set<Key>)
    requires JudgedFirst(frontier, n, wanted, start, now) && n < |frontier| && frontier[n] in frontier[..n]
    ensures JudgedFirst(frontier, n + 1, wanted, start, now)
    ensures WantList(frontier[..n + 1], wanted) == WantList(frontier[..n], wanted)
  {
    hide Complete;
    assert frontier[..n + 1] == frontier[..n] + [frontier[n]];
    assert frontier[..n + 1][..n] == frontier[..n];
  }

  lemma {:induction false} WantListLocal(frontier: seq<Key>, wanted: set<Key>, more: set<Key>)
    requires forall k | k in frontier :: k in wanted <==> k in more
    ensures WantList(frontier, wanted) == WantList(frontier, more)
  {
    if frontier != [] {
      WantListLocal(frontier[..|frontier| - 1], wanted, more);
    }
  }

  lemma NothingWanted(frontier: seq<Key>)
    ensures WantList(frontier[..0], {}) == [] && Elements(frontier[..0]) == {}
  {
  }

  lemma SeenNext(frontier: seq<Key>, i: nat)
    requires i < |frontier|
    ensures Elements(frontier[..i + 1]) == Elements(frontier[..i]) + {frontier[i]}
  {
    assert frontier[..i + 1] == frontier[..i] + [frontier[i]];
  }

  lemma ReachesSelf(k: Key)
    ensures Reaches(k, k)
  {
  }

  lemma MissingMeansIncomplete(have: set<Key>, k: Key, x: Key)
    requires Reaches(k, x) && x !in have
    ensures !Complete(have, k)
  {
    CompleteIffNothingMissing(have, k);
  }

  /** A frontier key that cannot be read, or that is there with one below it that cannot. */
  ghost predicate FoundFault(faults: set<Key>, now: set<Key>, f: Key, x: Key) {
    Reaches(f, x) && x in faults && (x == f || f in now)
  }

  /** No frontier key was unreadable, nor anything below one that was found whole. */
  ghost predicate NoFaults(faults: set<Key>, frontier: seq<Key>, wanted: set<Key>) {
    forall k | k in frontier :: if k in wanted then k !in faults else !FaultBelow(faults, k)
  }

  /** Judges the frontier's keys one after the other, while others may go on storing. */
  method Wants(st: Store, frontier: seq<Key>) returns (r: Result<seq<Key>, Error>, ghost wanted: set<Key>)
    modifies st
    ensures st.Since(old(st.objects), {})
    ensures r.Ok? ==> r.value == WantList(frontier, wanted)
    ensures r.Ok? ==> Loop(old(st.objects), frontier, wanted).Judged(st.objects)
    ensures r.Ok? ==> NoFaults(st.faults, frontier, wanted)
    ensures r.Err? ==> exists f, x ::
              f in frontier && FoundFault(st.faults, st.objects, f, x) && r == Err(StoreFault(x))
  {
    hide WantList, Complete;
    var wants: seq<Key> := [];
    var seen := {};
    wanted := {};
    NothingWanted(frontier);
    ghost var start := st.objects;
    for i := 0 to |frontier|
      invariant st.Since(start, {})
      invariant seen == Elements(frontier[..i])
      invariant wants == WantList(frontier[..i], wanted)
      invariant JudgedFirst(frontier, i, wanted, start, st.objects)
      invariant NoFaults(st.faults, frontier[..i], wanted)
    {
      var k := frontier[i];
      SeenNext(frontier, i);
      if k in seen {
        JudgedRepeat(frontier, i, wanted, start, st.objects);
        continue;
      }
      seen := seen + {k};
      ghost var before := st.objects;
      var ok := st.Has(k);
      if ok.Err? {
        ReachesSelf(k);
        assert FoundFault(st.faults, st.objects, k, k);
        return Err(ok.error), wanted;
      }
      var walk := Missing(k);
      if ok.value {
        walk := st.CheckComplete(k);
        if walk.Faulty? {
          assert FoundFault(st.faults, st.objects, k, walk.key);
          return Err(StoreFault(walk.key)), wanted;
        }
      }
      var want := walk.Missing?;
      if want {
        ReachesSelf(k);
        MissingMeansIncomplete(start, k, walk.key);
        wants := wants + [k];
      }
      JudgedNext(frontier, i, wanted, start, before, st.objects, want);
      wanted := if want then wanted + {k} else wanted;
    }
    assert frontier[..|frontier|] == frontier;
    r := Ok(wants);
  }

  /** The places in `wants` whose key did not arrive. */
  function MissingPlaces(received: set<Key>, wants: seq<Key>): set<nat> {
    set i: nat | i < |wants| && wants[i] !in received
  }

  lemma {:induction false} UndeliveredCount(received: set<Key>, wants: seq<Key>)
    ensures Undelivered(received, wants) == |MissingPlaces(received, wants)|
  {
    if wants != [] {
      var n := |wants| - 1;
      UndeliveredCount(received, wants[..n]);
      var before, all := MissingPlaces(received, wants[..n]), MissingPlaces(received, wants);
      if wants[n] in received {
        assert all == before;
      } else {
        assert all == before + {n};
      }
    }
  }

  /** How many of `wants` did not arrive. */
  function Undelivered(received: set<Key>, wants: seq<Key>): nat {
    if wants == [] then 0
    else Undelivered(received, wants[..|wants| - 1]) + if wants[|wants| - 1] in received then 0 else 1
  }

  lemma {:induction false} UndeliveredNone(received: set<Key>, wants: seq<Key>)
    ensures Undelivered(received, wants) == 0 <==> forall k | k in wants :: k in received
  {
    if wants != [] {
      var n := |wants| - 1;
      UndeliveredNone(received, wants[..n]);
      assert wants == wants[..n] + [wants[n]];
    }
  }

  method CheckDelivered(received: set<Key>, wants: seq<Key>) returns (e: Option<Error>)
    ensures e.None? <==> forall k | k in wants :: k in received
    ensures e.Some? ==> exists i :: 0 <= i < |wants| && wants[i] !in received
                                 && (forall j | 0 <= j < i :: wants[j] in received)
                                 && e.value == Omitted(Undelivered(received, wants), |wants|, wants[i])
  {
    var missing, first := 0, 0;
    for i := 0 to |wants|
      invariant missing == Undelivered(received, wants[..i])
      invariant missing == 0 ==> forall j | 0 <= j < i :: wants[j] in received
      invariant missing > 0 ==> 0 <= first < i && wants[first] !in received
      invariant missing > 0 ==> forall j | 0 <= j < first :: wants[j] in received
    {
      assert wants[..i + 1][..i] == wants[..i];
      if wants[i] !in received {
        if missing == 0 {
          first := i;
        }
        missing := missing + 1;
      }
    }
    assert wants[..|wants|] == wants;
    e := if missing > 0 then Some(Omitted(missing, |wants|, wants[first])) else None;
  }

  /** What a channel's peer does: answer as Send does from its store, or anything at all. */
  datatype Peer = Honest(have: set<Key>) | Script(replies: seq<Reply>)

  /** How much of the arbitrary peers' behaviour is still to come. */
  function ScriptsLeft(peers: seq<Peer>): nat {
    if peers == [] then 0
    else ScriptsLeft(peers[..|peers| - 1]) + if peers[|peers| - 1].Script? then |peers[|peers| - 1].replies| else 0
  }

  lemma {:induction false} ScriptsLeftUpdate(peers: seq<Peer>, i: nat, p: Peer)
    requires i < |peers| && peers[i].Script? && p.Script? && |p.replies| + 1 == |peers[i].replies|
    ensures ScriptsLeft(peers[i := p]) + 1 == ScriptsLeft(peers)
  {
    var n := |peers| - 1;
    if i == n {
      assert peers[i := p][..n] == peers[..n];
    } else {
      assert peers[i := p][..n] == peers[..n][i := p];
      ScriptsLeftUpdate(peers[..n], i, p);
    }
  }

  const NO_FRAME: Reply := Pack([], Ended)

  /** The channel is asked for something and its want frame cannot be written. */
  predicate Blocked(p: Peer, shard: seq<Key>) { shard != [] && NotWritable(p) }

  /** The channel takes no more frames. */
  predicate NotWritable(p: Peer) { p.Script? && p.replies != [] && p.replies[0].Unwritable? }

  /** What the peer of one channel did with its shard of the wants. */
  ghost predicate Responds(before: Peer, shard: seq<Key>, reply: Reply, after: Peer) {
    if shard == [] then reply == NO_FRAME && after == before
    else
      match before
      case Honest(have) => IsAnswer(have, shard, reply) && after == before
      case Script(replies) =>
        if replies == [] then reply == Pack([], BrokenOff) && after == before
        else reply == replies[0] && after == Script(replies[1..])
  }

  /** The frames sent so far on one channel, after this round's shard. */
  function AddFrame(frames: seq<seq<Key>>, shard: seq<Key>): seq<seq<Key>> {
    if shard == [] then frames else frames + [shard]
  }

  /** Channels 0 to n - 1 have been written to, the others are as they were. */
  ghost predicate SentTo(n: nat, peers: seq<Peer>, shards: seq<seq<Key>>, frames: seq<seq<seq<Key>>>,
                         peers': seq<Peer>, replies: seq<Reply>, frames': seq<seq<seq<Key>>>) {
    && n <= |peers'| == |replies| == |frames'| == |peers| == |shards| == |frames|
    && (forall j: nat | j < n ::
          replies[j].Pack? && Responds(peers[j], shards[j], replies[j], peers'[j])
          && frames'[j] == AddFrame(frames[j], shards[j]))
    && forall j: nat | n <= j < |peers| :: replies[j] == NO_FRAME && peers'[j] == peers[j] && frames'[j] == frames[j]
  }

  /** No script among the first `n` channels gave a reply. */
  ghost predicate NoScriptAnswered(n: nat, peers: seq<Peer>, shards: seq<seq<Key>>, replies: seq<Reply>) {
    && n <= |peers| == |shards| == |replies|
    && forall j: nat | j < n && shards[j] != [] :: peers[j].Honest? || (replies[j].Pack? && replies[j].end == BrokenOff)
  }

  lemma SentToNext(n: nat, peers: seq<Peer>, shards: seq<seq<Key>>, frames: seq<seq<seq<Key>>>,
                   peers': seq<Peer>, replies: seq<Reply>, frames': seq<seq<seq<Key>>>, reply: Reply, p: Peer)
    requires SentTo(n, peers, shards, frames, peers', replies, frames') && n < |peers|
    requires shards[n] != [] && reply.Pack? && Responds(peers[n], shards[n], reply, p)
    ensures SentTo(n + 1, peers, shards, frames, peers'[n := p], replies[n := reply],
                   frames'[n := frames'[n] + [shards[n]]])
  {
    hide Responds;
  }

  /** An answer uses up a script, or leaves every peer as it was. */
  lemma ScriptsLeftNext(peers: seq<Peer>, i: nat, shard: seq<Key>, reply: Reply, p: Peer)
    requires i < |peers| && shard != [] && Responds(peers[i], shard, reply, p)
    ensures ScriptsLeft(peers[i := p]) <= ScriptsLeft(peers)
    ensures peers[i].Script? && peers[i].replies != [] ==> ScriptsLeft(peers[i := p]) < ScriptsLeft(peers)
  {
    if peers[i].Script? && peers[i].replies != [] {
      ScriptsLeftUpdate(peers, i, p);
    } else {
      assert peers[i := p] == peers;
    }
  }

  lemma NoScriptNext(n: nat, peers: seq<Peer>, shards: seq<seq<Key>>, replies: seq<Reply>, reply: Reply, p: Peer)
    requires NoScriptAnswered(n, peers, shards, replies) && n < |peers| && Responds(peers[n], shards[n], reply, p)
    requires shards[n] == [] || !peers[n].Script? || peers[n].replies == []
    ensures NoScriptAnswered(n + 1, peers, shards, replies[n := reply])
  {
  }

  lemma SentToNobody(peers: seq<Peer>, shards: seq<seq<Key>>, frames: seq<seq<seq<Key>>>, replies: seq<Reply>)
    requires |peers| == |shards| == |frames| && replies == seq(|peers|, _ => NO_FRAME)
    ensures SentTo(0, peers, shards, frames, peers, replies, frames)
    ensures NoScriptAnswered(0, peers, shards, replies)
  {
  }

  lemma SkipChannel(n: nat, peers: seq<Peer>, shards: seq<seq<Key>>, frames: seq<seq<seq<Key>>>,
                    peers': seq<Peer>, replies: seq<Reply>, frames': seq<seq<seq<Key>>>)
    requires SentTo(n, peers, shards, frames, peers', replies, frames') && n < |peers| && shards[n] == []
    ensures SentTo(n + 1, peers, shards, frames, peers', replies, frames')
    ensures NoScriptAnswered(n, peers, shards, replies) ==> NoScriptAnswered(n + 1, peers, shards, replies)
  {
    hide Responds, ScriptsLeft;
    NothingAsked(peers[n]);
  }

  lemma NothingAsked(p: Peer)
    ensures Responds(p, [], NO_FRAME, p)
  {
  }

  lemma NextChannel(n: nat, peers: seq<Peer>, shards: seq<seq<Key>>, frames: seq<seq<seq<Key>>>,
                    peers': seq<Peer>, replies: seq<Reply>, frames': seq<seq<seq<Key>>>, reply: Reply, p: Peer)
    requires |peers| == |shards| == |frames| == |peers'| == |replies| == |frames'| && n < |peers|
    requires SentTo(n, peers, shards, frames, peers', replies, frames')
    requires shards[n] != [] && reply.Pack? && Responds(peers[n], shards[n], reply, p) && peers'[n] == peers[n]
    ensures SentTo(n + 1, peers, shards, frames, peers'[n := p], replies[n := reply],
                   frames'[n := frames'[n] + [shards[n]]])
    ensures ScriptsLeft(peers'[n := p]) <= ScriptsLeft(peers')
    ensures NoScriptAnswered(n, peers, shards, replies) && ScriptsLeft(peers'[n := p]) == ScriptsLeft(peers') ==>
              NoScriptAnswered(n + 1, peers, shards, replies[n := reply])
  {
    hide ScriptsLeft, Responds, SentTo, NoScriptAnswered;
    SentToNext(n, peers, shards, frames, peers', replies, frames', reply, p);
    ScriptsLeftNext(peers', n, shards[n], reply, p);
    if NoScriptAnswered(n, peers, shards, replies) && ScriptsLeft(peers'[n := p]) == ScriptsLeft(peers') {
      NoScriptNext(n, peers, shards, replies, reply, p);
    }
  }

  /** Writes each channel's shard to it, skipping channels that got none. */
  method SendShards(peers: seq<Peer>, shards: seq<seq<Key>>, frames: seq<seq<seq<Key>>>)
    returns (peers': seq<Peer>, replies: seq<Reply>, frames': seq<seq<seq<Key>>>, e: Option<Error>)
    requires |peers| == |shards| == |frames|
    ensures e.None? ==> SentTo(|peers|, peers, shards, frames, peers', replies, frames')
    ensures e.None? ==> ScriptsLeft(peers') <= ScriptsLeft(peers)
    ensures e.None? && ScriptsLeft(peers') == ScriptsLeft(peers) ==> NoScriptAnswered(|peers|, peers, shards, replies)
    ensures e.None? ==> forall i | 0 <= i < |peers| :: !Blocked(peers[i], shards[i])
    ensures e.Some? ==> exists i :: 0 <= i < |peers| && Blocked(peers[i], shards[i]) && e == Some(CannotSend(i))
                                 && forall j | 0 <= j < i :: !Blocked(peers[j], shards[j])
  {
    hide Responds, SentTo, NoScriptAnswered, ScriptsLeft;
    peers', frames' := peers, frames;
    replies := seq(|peers|, _ => NO_FRAME);
    SentToNobody(peers, shards, frames, replies);
    for i := 0 to |peers|
      invariant |peers'| == |replies| == |frames'| == |peers| && forall j | i <= j < |peers| :: peers'[j] == peers[j]
      invariant SentTo(i, peers, shards, frames, peers', replies, frames')
      invariant forall j | 0 <= j < i :: !Blocked(peers[j], shards[j])
      invariant ScriptsLeft(peers') <= ScriptsLeft(peers)
      invariant ScriptsLeft(peers') == ScriptsLeft(peers) ==> NoScriptAnswered(i, peers, shards, replies)
    {
      if shards[i] == [] {
        SkipChannel(i, peers, shards, frames, peers', replies, frames');
        continue;
      }
      var reply, p := Exchange(peers[i], shards[i]);
      if reply.Unwritable? {
        e := Some(CannotSend(i));
        return;
      }
      NextChannel(i, peers, shards, frames, peers', replies, frames', reply, p);
      replies, peers', frames' := replies[i := reply], peers'[i := p], frames'[i := frames'[i] + [shards[i]]];
    }
    e := None;
  }

  method Exchange(p: Peer, shard: seq<Key>) returns (reply: Reply, p': Peer)
    requires shard != []
    ensures Responds(p, shard, reply, p')
    ensures reply.Unwritable? <==> Blocked(p, shard)
  {
    match p
    case Honest(have) =>
      reply := Answer(have, shard);
      p' := p;
    case Script(replies) =>
      if replies == [] {
        reply, p' := Pack([], BrokenOff), p;
      } else {
        reply, p' := replies[0], Script(replies[1..]);
      }
  }

  // ---------- merging the packs of one round ----------

  function Packs(replies: seq<Reply>): (packs: seq<seq<Object>>)
    ensures |packs| == |replies|
    ensures forall i | 0 <= i < |replies| && replies[i].Pack? :: packs[i] == replies[i].objects
  {
    seq(|replies|, i requires 0 <= i < |replies| => if replies[i].Pack? then replies[i].objects else [])
  }

  function Flatten(packs: seq<seq<Object>>): seq<Object> {
    if packs == [] then [] else Flatten(packs[..|packs| - 1]) + packs[|packs| - 1]
  }

  lemma {:induction false} FlattenTake(packs: seq<seq<Object>>, i: nat)
    requires i < |packs| && packs[i] != []
    ensures multiset(Flatten(packs)) == multiset(Flatten(packs[i := packs[i][1..]])) + multiset{packs[i][0]}
  {
    var n := |packs| - 1;
    var less := packs[i := packs[i][1..]];
    if i == n {
      assert less[..n] == packs[..n];
      FirstOfLast(Flatten(less[..n]), packs[n]);
    } else {
      assert less[..n] == packs[..n][i := packs[i][1..]];
      FlattenTake(packs[..n], i);
      FirstOfEarlier(Flatten(packs[..n]), Flatten(less[..n]), packs[n], packs[i][0]);
    }
  }

  lemma FirstOfLast(a: seq<Object>, b: seq<Object>)
    requires b != []
    ensures multiset(a + b) == multiset(a + b[1..]) + multiset{b[0]}
  {
    assert b == [b[0]] + b[1..];
  }

  lemma FirstOfEarlier(a: seq<Object>, less: seq<Object>, b: seq<Object>, o: Object)
    requires multiset(a) == multiset(less) + multiset{o}
    ensures multiset(a + b) == multiset(less + b) + multiset{o}
  {
  }

  lemma {:induction false} FlattenEmpty(packs: seq<seq<Object>>)
    requires forall i | 0 <= i < |packs| :: packs[i] == []
    ensures Flatten(packs) == []
  {
    if packs != [] {
      FlattenEmpty(packs[..|packs| - 1]);
    }
  }

  /** No write has failed yet: what was merged so far and what the decoders still hold. */
  ghost predicate Merging(replies: seq<Reply>, left: seq<seq<Object>>, live: set<nat>, ends: seq<PackEnd>,
                          received: set<Key>, next: seq<Key>, got: seq<Object>) {
    && |left| == |ends| == |replies|
    && received == KeySet(got)
    && next == KidsOf(got)
    && multiset(got) + multiset(Flatten(left)) == multiset(Flatten(Packs(replies)))
    && forall i: nat | i < |replies| && i !in live :: replies[i].Pack? && left[i] == [] && ends[i] == replies[i].end
  }

  lemma MergeTake(replies: seq<Reply>, left: seq<seq<Object>>, live: set<nat>, ends: seq<PackEnd>,
                  received: set<Key>, next: seq<Key>, got: seq<Object>, i: nat)
    requires Merging(replies, left, live, ends, received, next, got)
    requires i < |left| && left[i] != [] && i in live
    ensures var o := left[i][0];
            Merging(replies, left[i := left[i][1..]], live, ends, received + {o.key}, next + o.kids, got + [o])
    ensures KeySet(got + [left[i][0]]) == KeySet(got) + {left[i][0].key}
  {
    hide Flatten, KidsOf, KeySet;
    var o := left[i][0];
    FlattenTake(left, i);
    OneMore(got, o);
    MoveOne(multiset(got), multiset(Flatten(left)), multiset(Flatten(left[i := left[i][1..]])), o);
  }

  lemma OneMore(got: seq<Object>, o: Object)
    ensures KeySet(got + [o]) == KeySet(got) + {o.key}
    ensures KidsOf(got + [o]) == KidsOf(got) + o.kids
    ensures multiset(got + [o]) == multiset(got) + multiset{o}
  {
    assert (got + [o])[..|got|] == got;
  }

  lemma MoveOne(a: multiset<Object>, b: multiset<Object>, c: multiset<Object>, o: Object)
    requires b == c + multiset{o}
    ensures (a + multiset{o}) + c == a + b
  {
  }

  lemma MergeEnd(replies: seq<Reply>, left: seq<seq<Object>>, live: set<nat>, ends: seq<PackEnd>,
                 received: set<Key>, next: seq<Key>, got: seq<Object>, i: nat)
    requires Merging(replies, left, live, ends, received, next, got)
    requires i < |left| && left[i] == [] && replies[i].Pack?
    ensures Merging(replies, left, live - {i}, ends[i := replies[i].end], received, next, got)
  {
  }

  lemma MergeDone(replies: seq<Reply>, left: seq<seq<Object>>, ends: seq<PackEnd>,
                  received: set<Key>, next: seq<Key>, got: seq<Object>)
    requires Merging(replies, left, {}, ends, received, next, got)
    ensures received == KeySet(got) && next == KidsOf(got)
    ensures multiset(got) == multiset(Flatten(Packs(replies)))
    ensures |ends| == |replies| && forall i: nat | i < |replies| :: replies[i].Pack? && ends[i] == replies[i].end
  {
    hide KidsOf, KeySet;
    FlattenEmpty(left);
  }

  lemma MergeStart(replies: seq<Reply>, live: set<nat>, ends: seq<PackEnd>)
    requires |ends| == |replies| && forall i: nat | i < |replies| :: i in live && replies[i].Pack?
    ensures Merging(replies, Packs(replies), live, ends, {}, [], [])
    ensures FromPacks(replies, Packs(replies)) && KeySet([]) == {}
  {
  }

  /** Every object still held came in one of the packs. */
  ghost predicate FromPacks(replies: seq<Reply>, left: seq<seq<Object>>) {
    && |left| == |replies|
    && forall i: nat | i < |left| :: replies[i].Pack? && forall o | o in left[i] :: o in replies[i].objects
  }

  lemma FromPacksTake(replies: seq<Reply>, left: seq<seq<Object>>, i: nat)
    requires FromPacks(replies, left) && i < |left| && left[i] != []
    ensures FromPacks(replies, left[i := left[i][1..]])
    ensures replies[i].Pack? && left[i][0] in replies[i].objects
  {
    assert left[i][0] in left[i];
    assert forall o | o in left[i][1..] :: o in left[i];
  }

  lemma NothingLeft(replies: seq<Reply>, left: seq<seq<Object>>, i: nat)
    requires FromPacks(replies, left) && i < |left|
    ensures replies[i].Pack? && (replies[i].objects == [] ==> left[i] == [])
  {
    if left[i] != [] {
      assert left[i][0] in left[i];
    }
  }

  /** Each decoder saw its pack's end, or was stopped at one of its objects, which is no failure of its own. */
  ghost predicate SeenEnds(replies: seq<Reply>, ends: seq<PackEnd>) {
    && |ends| == |replies|
    && forall i | 0 <= i < |ends| ::
         replies[i].Pack? && (ends[i] == replies[i].end || (ends[i] == Ended && replies[i].objects != []))
  }

  /** The same of the decoders that are gone; those still live have seen no end. */
  ghost predicate SeenBy(replies: seq<Reply>, live: set<nat>, ends: seq<PackEnd>) {
    && |ends| == |replies|
    && forall i: nat | i < |ends| ::
         replies[i].Pack? && if i in live then ends[i] == Ended
                             else ends[i] == replies[i].end || (ends[i] == Ended && replies[i].objects != [])
  }

  lemma NothingStored(st: Store)
    ensures Stored(st, st.objects, [])
  {
    assert st.objects + KeySet([]) == st.objects;
  }

  /** Some pack held an object that does not verify or cannot be written. */
  ghost predicate BadObject(replies: seq<Reply>, faults: set<Key>) {
    exists i: nat, o :: i < |replies| && replies[i].Pack? && o in replies[i].objects && Unstorable(o, faults)
  }

  predicate Unstorable(o: Object, faults: set<Key>) { !o.Verifies() || o.key in faults }

  /** Why an object in one of the packs could not be stored. */
  ghost predicate StoringFailed(replies: seq<Reply>, faults: set<Key>, e: Error) {
    exists i: nat, o :: i < |replies| && replies[i].Pack? && o in replies[i].objects && Unstorable(o, faults)
                     && e == if !o.Verifies() then NotVerified(o) else StoreFault(o.key)
  }

  /** The objects so far were verified and stored, and whatever else came is others'. */
  ghost predicate Stored(st: Store, start: set<Key>, got: seq<Object>)
    reads st
  {
    st.Since(start, KeySet(got)) && forall o | o in got :: !Unstorable(o, st.faults)
  }

  lemma StoredMeaning(st: Store, start: set<Key>, got: seq<Object>)
    requires Stored(st, start, got)
    ensures st.Since(start, KeySet(got)) && forall o | o in got :: !Unstorable(o, st.faults) && o.Verifies()
  {
  }

  lemma {:induction false} FlattenMember(packs: seq<seq<Object>>, i: nat, o: Object)
    requires i < |packs| && o in packs[i]
    ensures o in Flatten(packs)
  {
    if i < |packs| - 1 {
      FlattenMember(packs[..|packs| - 1], i, o);
    }
  }

  /** When everything in the packs was stored, there was nothing that could not be. */
  lemma AllStored(replies: seq<Reply>, got: seq<Object>, faults: set<Key>)
    requires multiset(got) == multiset(Flatten(Packs(replies)))
    requires forall o | o in got :: !Unstorable(o, faults)
    ensures !BadObject(replies, faults)
  {
    hide Flatten;
    forall i: nat, o | i < |replies| && replies[i].Pack? && o in replies[i].objects
      ensures !Unstorable(o, faults)
    {
      FlattenMember(Packs(replies), i, o);
      assert o in multiset(Flatten(Packs(replies)));
      assert o in multiset(got);
    }
  }

  lemma BadOne(replies: seq<Reply>, faults: set<Key>, i: nat, o: Object)
    requires i < |replies| && replies[i].Pack? && o in replies[i].objects && Unstorable(o, faults)
    ensures BadObject(replies, faults)
    ensures StoringFailed(replies, faults, if !o.Verifies() then NotVerified(o) else StoreFault(o.key))
  {
  }

  method StoreNext(st: Store, o: Object, ghost got: seq<Object>, ghost start: set<Key>)
    returns (e: Option<Error>, ghost got': seq<Object>)
    requires Stored(st, start, got)
    modifies st
    ensures e.None? <==> !Unstorable(o, st.faults)
    ensures e.Some? ==> e.value == if !o.Verifies() then NotVerified(o) else StoreFault(o.key)
    ensures got' == if e.None? then got + [o] else got
    ensures Stored(st, start, got')
  {
    e := st.Put(o);
    got' := if e.None? then got + [o] else got;
    assert KeySet(got + [o]) == KeySet(got) + {o.key};
  }

  /**
   Decodes all packs at once: any decoder may be next to hand over an object, each object
   is recorded, then verified and stored. After a failed write the consumer takes nothing
   more, and the decoders run dry or stop early.
   */
  method Collect(st: Store, replies: seq<Reply>)
    returns (received: set<Key>, next: seq<Key>, ends: seq<PackEnd>, e: Option<Error>, ghost got: seq<Object>)
    requires forall i | 0 <= i < |replies| :: replies[i].Pack?
    modifies st
    ensures |ends| == |replies|
    ensures st.Since(old(st.objects), KeySet(got))
    ensures forall o | o in got :: o.Verifies()
    ensures e.None? ==> received == KeySet(got) && next == KidsOf(got)
    ensures e.None? ==> multiset(got) == multiset(Flatten(Packs(replies)))
    ensures if e.Some? then SeenEnds(replies, ends) else forall i | 0 <= i < |replies| :: ends[i] == replies[i].end
    ensures e.Some? <==> BadObject(replies, st.faults)
    ensures e.Some? ==> StoringFailed(replies, st.faults, e.value)
  {
    hide StoringFailed, Merging, FromPacks, Stored, BadObject, Flatten, KidsOf, KeySet, Unstorable;
    var left := Packs(replies);
    var live: set<nat> := set i: nat | i < |replies| && replies[i].Pack?;
    received, next, e, got := {}, [], None, [];
    ghost var start := st.objects;
    ends := seq(|replies|, _ => Ended);
    MergeStart(replies, live, ends);
    NothingStored(st);
    while live != {} && e.None?
      invariant |ends| == |left| == |replies| && FromPacks(replies, left)
      invariant forall i | i in live :: i < |replies|
      invariant Stored(st, start, got)
      invariant e.None? ==> Merging(replies, left, live, ends, received, next, got)
      invariant e.Some? ==> BadObject(replies, st.faults) && StoringFailed(replies, st.faults, e.value)
      invariant SeenBy(replies, live, ends)
      decreases e.None?, |multiset(Flatten(left))|, live
    {
      var i :| i in live;
      if left[i] == [] {
        MergeEnd(replies, left, live, ends, received, next, got, i);
        ends := ends[i := replies[i].end];
        live := live - {i};
      } else {
        var o := left[i][0];
        FlattenTake(left, i);
        FromPacksTake(replies, left, i);
        MergeTake(replies, left, live, ends, received, next, got, i);
        left := left[i := left[i][1..]];
        received := received + {o.key};
        next := next + o.kids;
        e, got := StoreNext(st, o, got, start);
        if e.Some? {
          BadOne(replies, st.faults, i, o);
        }
      }
    }
    StoredMeaning(st, start, got);
    if e.None? {
      MergeDone(replies, left, ends, received, next, got);
      AllStored(replies, got, st.faults);
    }
    while live != {}
      invariant |ends| == |replies| && (e.None? ==> live == {})
      invariant st.Since(start, KeySet(got))
      invariant forall i | i in live :: i < |replies|
      invariant SeenBy(replies, live, ends) && FromPacks(replies, left)
      invariant e.None? ==> forall i | 0 <= i < |replies| :: ends[i] == replies[i].end
      decreases live
    {
      // the consumer is gone: a decoder still runs to its end, or stops at its next object
      var i :| i in live;
      NothingLeft(replies, left, i);
      var stops: bool := *;
      if left[i] == [] || !stops {
        ends := ends[i := replies[i].end];
      }
      live := live - {i};
    }
  }
}

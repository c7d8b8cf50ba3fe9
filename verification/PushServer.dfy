/**
 One handler of the server as a program: a push from its first check to its reply, and a
 pull. What other handlers commit while a push transfers its tree is a parameter.
 */
module PushServer {
  import opened Basics
  import opened Dag
  import opened WantSync
  import opened Rounds
  import opened HonestRuns
  import opened Receiving
  import Commits

  type Name = Commits.Name

  /** Why a handler answers with an error frame; errors the peer reported are not echoed. */
  datatype Refusal = BadRequest | CasMismatch(current: Option<Key>) | UnknownRef | Internal

  datatype Reply = Tok(key: Key) | Refuse(why: Refusal) | NoReply

  /** A push request as it arrives: the root may not parse, the name may not be valid. */
  datatype PushMsg = PushMsg(name: Name, validName: bool, root: Option<Key>, cas: bool, expectedOld: Option<Key>)

  class Mutex {
    ghost var held: bool

    constructor ()
      ensures !held
    {
      held := false;
    }

    /** Waits until nobody holds it. What others do until then is their own. */
    method Lock()
      modifies this
      ensures held
    {
      held := true;
    }

    method Unlock()
      requires held
      modifies this
      ensures !held
    {
      held := false;
    }
  }

  /** The collector's barrier around a reference write: whatever is prepared is committed or aborted. */
  class Guard {
    var open: multiset<Key>
    var committed: seq<Key>
    var aborted: seq<Key>
    const refused: set<Key>

    constructor (refused: set<Key>)
      ensures open == multiset{} && committed == [] && aborted == [] && this.refused == refused
    {
      open, committed, aborted, this.refused := multiset{}, [], [], refused;
    }

    method Prepare(root: Key) returns (ok: bool)
      modifies this`open
      ensures ok <==> root !in refused
      ensures open == if ok then old(open) + multiset{root} else old(open)
    {
      ok := root !in refused;
      if ok {
        open := open + multiset{root};
      }
    }

    method Commit(root: Key)
      requires root in open
      modifies this`open, this`committed
      ensures open == old(open) - multiset{root} && committed == old(committed) + [root]
    {
      open, committed := open - multiset{root}, committed + [root];
    }

    method Abort(root: Key)
      requires root in open
      modifies this`open, this`aborted
      ensures open == old(open) - multiset{root} && aborted == old(aborted) + [root]
    {
      open, aborted := open - multiset{root}, aborted + [root];
    }
  }

  predicate FromPeer(e: Error) { e.Remote? || e.RemoteFailure? || (e.Undecodable? && e.remote) }

  /** Errors that came from the peer itself are not sent back to it. */
  function FailLocal(e: Error): (r: Reply)
    ensures e.Remote? || e.RemoteFailure? || (e.Undecodable? && e.remote) ==> r == NoReply
    ensures e.Undecodable? && !e.remote ==> r == Refuse(Internal)
    ensures e.StoreFault? || e.NotVerified? || e.CannotSend? || e.Omitted? ==> r == Refuse(Internal)
    ensures e.LocalRead? || e.LocalWrite? || e.UnexpectedFrame? ==> r == Refuse(Internal)
    ensures e.BadKey? || e.Disconnected? ==> r == Refuse(Internal)
  {
    if FromPeer(e) then NoReply else Refuse(Internal)
  }

  /** Some channel failed here, and none failed with an error of the peer's. */
  ghost predicate OwnFault(results: seq<Result<(), Error>>) {
    (exists r :: r in results && r.Err?) && Err(RemoteFailure) !in results
  }

  /** Of the errors a sending loop ends with, the peer's own report is the only one that is the peer's. */
  lemma SendErrorFromPeer(have: set<Key>, requests: seq<WantSync.Request>, packs: seq<WantSync.Reply>,
                          r: Result<(), Error>)
    requires Serves(have, requests, packs, r) && r.Err?
    ensures FromPeer(r.error) <==> r == Err(RemoteFailure)
  {
    hide Serves;
    EndsWellIff(have, requests, packs, r);
  }

  /** References that point at whole trees still do in a larger store. */
  lemma WholeGrows(refs: map<Name, Key>, have: set<Key>, more: set<Key>)
    requires have <= more
    ensures forall n | n in refs && Complete(have, refs[n]) :: Complete(more, refs[n])
  {
    forall n | n in refs && Complete(have, refs[n])
      ensures Complete(more, refs[n])
    {
      CompleteMonotone(have, more, refs[n]);
    }
  }

  /** A transfer that was begun: how it ended, and what happened in it. */
  datatype Attempt = Attempt(e: Option<Error>, log: Log, talk: Talk)

  class Server {
    var refs: map<Name, Key>
    var refLocks: map<Name, Mutex>
    const store: Store
    const guard: Option<Guard>
    /** The names whose access was reported to the collector. */
    var accessed: seq<Name>
    /** Names whose record cannot be read, and names whose record cannot be written. */
    const unreadable: set<Name>
    const unwritable: set<Name>

    constructor (store: Store, guard: Option<Guard>, refs: map<Name, Key>, unreadable: set<Name>, unwritable: set<Name>)
      ensures this.store == store && this.guard == guard && this.refs == refs && refLocks == map[] && accessed == []
      ensures this.unreadable == unreadable && this.unwritable == unwritable
    {
      this.store, this.guard, this.refs, refLocks, accessed := store, guard, refs, map[], [];
      this.unreadable, this.unwritable := unreadable, unwritable;
    }

    /** Nothing but the precondition can keep this reference from being written. */
    predicate CanWrite(name: Name, root: Key) {
      name !in unwritable && (guard.Some? ==> root !in guard.value.refused)
    }

    /** The precondition of a push, which a push without one need not even be able to read. */
    predicate Meets(now: map<Name, Key>, m: PushMsg) {
      m.cas ==> m.name !in unreadable && Get(now, m.name) == m.expectedOld
    }

    predicate Parsed(m: PushMsg) { m.validName && m.root.Some? }

    /** The reference can be read and does not hold what the push expects. */
    predicate Stale(now: map<Name, Key>, m: PushMsg) {
      m.cas && m.name !in unreadable && Get(now, m.name) != m.expectedOld
    }

    /** Names have mutexes of their own, whoever may be holding them. */
    ghost predicate LocksApart()
      reads this
    {
      forall m, n | m in refLocks && n in refLocks && refLocks[m] == refLocks[n] :: m == n
    }

    /** Every reference points at a whole tree. */
    ghost predicate Whole()
      reads this, store
    {
      forall n | n in refs :: Complete(store.objects, refs[n])
    }

    /** A well-formed request whose client has the tree, with nothing broken on this side. */
    ghost predicate Sound(m: PushMsg, peers: seq<Peer>) {
      && m.validName && m.root.Some? && CanWrite(m.name, m.root.value)
      && HoldTree(peers, m.root.value) && store.faults == {}
    }

    /** None when the precondition holds; otherwise the frame that says why not. */
    method CheckCAS(m: PushMsg) returns (r: Option<Reply>)
      requires m.cas
      ensures r.None? <==> Meets(refs, m)
      ensures r.Some? ==> r.value == Refuse(if m.name in unreadable then Internal else CasMismatch(Get(refs, m.name)))
    {
      if m.name in unreadable {
        return Some(Refuse(Internal));
      }
      var current := if m.name in refs then Some(refs[m.name]) else None;
      r := if current == m.expectedOld then None else Some(Refuse(CasMismatch(current)));
    }

    /** Takes the mutex of `name`, created at its first use and kept for ever. */
    method LockRef(name: Name) returns (l: Mutex)
      requires LocksApart()
      modifies this`refLocks, if name in refLocks then {refLocks[name]} else {}
      ensures LocksApart()
      ensures name in refLocks && refLocks == old(refLocks)[name := l] && l.held
      ensures if name in old(refLocks) then l == old(refLocks)[name] else fresh(l)
    {
      if name in refLocks {
        l := refLocks[name];
      } else {
        l := new Mutex();
        refLocks := refLocks[name := l];
      }
      l.Lock();
    }

    /**
     A push, from its request to its reply. `meanwhile` is what others commit, with their
     trees in `grown`, until this handler has the lock; the object store is shared all the
     time. Frames to the client can be written only if `canReply`.
     */
    method HandlePush(m: PushMsg, peers: seq<Peer>, meanwhile: map<Name, Key>, grown: set<Key>, canReply: bool)
      returns (reply: Reply, committed: bool, ghost tried: Option<Attempt>)
      requires |peers| >= 1 && LocksApart() && Whole()
      requires forall n | n in meanwhile :: Complete(grown, meanwhile[n])
      modifies this, store, GuardSet(), set l | l in refLocks.Values
      ensures LocksApart() && Whole() && old(store.objects) <= store.objects
      // committed: the precondition held early and at the write, the tree is whole, the reference written
      ensures committed ==> m.validName && m.root.Some? && Complete(store.objects, m.root.value)
      ensures committed ==> refs == (old(refs) + meanwhile)[m.name := m.root.value]
      ensures committed ==> Meets(old(refs), m) && Meets(old(refs) + meanwhile, m)
      ensures committed ==> reply == if canReply then Tok(m.root.value) else NoReply
      // otherwise this handler wrote nothing, and does not claim it did
      ensures !committed ==> refs == old(refs) || refs == old(refs) + meanwhile
      ensures !committed ==> !reply.Tok?
      ensures reply.Refuse? && reply.why.CasMismatch? ==>
                m.cas && reply.why.current == Get(refs, m.name) != m.expectedOld
      // a push that is refused at the door transfers nothing
      ensures tried.Some? <==> m.validName && m.root.Some? && Meets(old(refs), m)
      ensures tried.None? ==> !committed && refs == old(refs) && store.objects == old(store.objects)
      ensures canReply && (!m.validName || m.root.None?) ==> reply == Refuse(BadRequest)
      ensures canReply && Parsed(m) && m.cas && m.name in unreadable ==> reply == Refuse(Internal)
      ensures canReply && Parsed(m) && Stale(old(refs), m) ==> reply == Refuse(CasMismatch(Get(old(refs), m.name)))
      // a failed transfer is reported for what it was, unless the peer reported it
      ensures tried.Some? && !committed ==> refs == old(refs) + meanwhile
      ensures tried.Some? && tried.value.e.Some? ==>
                && LoopFailed(tried.value.log, tried.value.talk, store.faults, store.shared, store.objects,
                              tried.value.e.value)
                && !committed && reply == Say(canReply, FailLocal(tried.value.e.value))
      // and under the lock the precondition is looked at again, over what others committed meanwhile
      ensures tried.Some? && tried.value.e.None? ==>
                (committed <==> Meets(old(refs) + meanwhile, m) && CanWrite(m.name, m.root.value))
      ensures tried.Some? && tried.value.e.None? && canReply && Stale(old(refs) + meanwhile, m) ==>
                reply == Refuse(CasMismatch(Get(old(refs) + meanwhile, m.name)))
      ensures tried.Some? && tried.value.e.None? && canReply && !CanWrite(m.name, m.root.value) ==>
                reply == Refuse(Internal) || Stale(old(refs) + meanwhile, m)
      // the collector hears of the write, and only of that
      ensures accessed == old(accessed) + if committed then [m.name] else []
      ensures guard.Some? ==> guard.value.open == old(guard.value.open)
      ensures guard.Some? ==>
                guard.value.committed == old(guard.value.committed) + if committed then [m.root.value] else []
      // and a push that nothing is wrong with is committed
      ensures Sound(m, peers) && Meets(old(refs), m) && Meets(old(refs) + meanwhile, m) ==> committed
    {
      hide Complete, HoldTree, LoopFailed, TalkedAs, FromPeer;
      tried := None;
      if !m.validName || m.root.None? {
        return Say(canReply, Refuse(BadRequest)), false, tried;
      }
      if m.cas {
        var bad := CheckCAS(m);
        if bad.Some? {
          return Say(canReply, bad.value), false, tried;
        }
      }
      var e;
      ghost var log, talk;
      e, log, talk := Transfer(peers, m.root.value, meanwhile, grown);
      tried := Some(Attempt(e, log, talk));
      if e.Some? {
        return Say(canReply, FailLocal(e.value)), false, tried;
      }
      var result := Commit(m, m.root.value);
      reply, committed := Say(canReply, result), result.Tok?;
    }

    /** A reply that cannot be written is no reply. */
    function Say(canReply: bool, r: Reply): Reply { if canReply then r else NoReply }

    ghost function GuardSet(): set<object> { if guard.Some? then {guard.value} else {} }

    /** The object transfer, with what others commit until it is through. */
    method Transfer(peers: seq<Peer>, root: Key, meanwhile: map<Name, Key>, grown: set<Key>)
      returns (e: Option<Error>, ghost log: Log, ghost talk: Talk)
      requires |peers| >= 1 && Whole()
      requires forall n | n in meanwhile :: Complete(grown, meanwhile[n])
      modifies this`refs, store
      ensures Whole() && old(store.objects) <= store.objects && refs == old(refs) + meanwhile
      ensures e.None? ==> Complete(store.objects, root)
      ensures e.Some? ==> LoopFailed(log, talk, store.faults, store.shared, store.objects, e.value)
      ensures TalkedAs(log, talk, store.faults) && talk.peers[0] == peers
      ensures HoldTree(peers, root) && store.faults == {} ==> e.None?
    {
      hide Complete, HoldTree, Reaches, FramesMatch, WithoutLast, ReceivedCount, Levels, Below, Supplied, NoSharing,
        LoopFailed, TalkedAs, Run.Ends, Run.Alone;
      ghost var before := store.objects;
      SuppliedMeaning(peers, store, root);
      var r, frames;
      r, frames, log, talk := Receive(peers, store, root);
      ghost var received := store.objects;
      StillWhole(before);
      Others(meanwhile, grown);
      TreeGrows(root, received, store.objects);
      if r.Err? {
        LoopFailedLater(log, talk, store.faults, store.shared, received, store.objects, r.error);
      }
      e := if r.Ok? then None else Some(r.error);
    }

    lemma WholeTree(name: Name)
      requires Whole() && name in refs
      ensures Complete(store.objects, refs[name])
    {
    }

    lemma TreeGrows(root: Key, have: set<Key>, more: set<Key>)
      requires have <= more
      ensures Complete(have, root) ==> Complete(more, root)
    {
      if Complete(have, root) {
        CompleteMonotone(have, more, root);
      }
    }

    lemma StillWhole(before: set<Key>)
      requires before <= store.objects && forall n | n in refs :: Complete(before, refs[n])
      ensures Whole()
    {
      WholeGrows(refs, before, store.objects);
    }

    /** Checks again and writes the reference, all under the mutex of its name. */
    method Commit(m: PushMsg, root: Key) returns (reply: Reply)
      requires LocksApart() && Whole() && Complete(store.objects, root)
      modifies this, GuardSet(), set l | l in refLocks.Values
      ensures LocksApart() && Whole() && m.name in refLocks && !refLocks[m.name].held
      ensures forall n | n in refLocks && n != m.name :: n in old(refLocks) && refLocks[n] == old(refLocks)[n]
      ensures Written(m, root, reply, old(refs), old(accessed))
      ensures guard.Some? ==>
                Balanced(m, root, reply, old(refs), old(guard.value.open), old(guard.value.committed),
                         old(guard.value.aborted))
    {
      hide Complete, Balanced, Meets, CanWrite;
      var l := LockRef(m.name);
      reply := CheckAndWrite(m, root);
      l.Unlock();
    }

    /** What a commit does, from the references and accesses before it. */
    ghost predicate Written(m: PushMsg, root: Key, reply: Reply, before: map<Name, Key>, heard: seq<Name>)
      reads this
    {
      && (reply.Tok? <==> Meets(before, m) && CanWrite(m.name, root))
      && refs == (if reply.Tok? then before[m.name := root] else before)
      && accessed == heard + (if reply.Tok? then [m.name] else [])
      && reply == (if reply.Tok? then Tok(root)
                   else if m.name in unreadable || Meets(before, m) then Refuse(Internal)
                   else Refuse(CasMismatch(Get(before, m.name))))
    }

    /** What the guard hears of it: a prepared root is committed or aborted before the handler goes on. */
    ghost predicate Balanced(m: PushMsg, root: Key, reply: Reply, before: map<Name, Key>,
                             open: multiset<Key>, committed: seq<Key>, aborted: seq<Key>)
      requires guard.Some?
      reads guard.value
    {
      && guard.value.open == open
      && guard.value.committed == committed + (if reply.Tok? then [root] else [])
      && guard.value.aborted
         == aborted + (if Meets(before, m) && root !in guard.value.refused && m.name in unwritable then [root] else [])
    }

    method CheckAndWrite(m: PushMsg, root: Key) returns (reply: Reply)
      modifies this`refs, this`accessed, GuardSet()
      ensures Written(m, root, reply, old(refs), old(accessed))
      ensures guard.Some? ==>
                Balanced(m, root, reply, old(refs), old(guard.value.open), old(guard.value.committed),
                         old(guard.value.aborted))
    {
      if m.cas {
        var bad := CheckCAS(m);
        if bad.Some? {
          return bad.value;
        }
      }
      var ok := Publish(m.name, root);
      if !ok {
        return Refuse(Internal);
      }
      accessed := accessed + [m.name];
      reply := Tok(root);
    }

    /** Writes the reference, between the guard's Prepare and its Commit or Abort. */
    method Publish(name: Name, root: Key) returns (ok: bool)
      modifies this`refs, GuardSet()
      ensures ok <==> CanWrite(name, root)
      ensures refs == if ok then old(refs)[name := root] else old(refs)
      ensures guard.Some? ==>
                && guard.value.open == old(guard.value.open)
                && guard.value.committed == old(guard.value.committed) + (if ok then [root] else [])
                && (var fails := root !in guard.value.refused && name in unwritable;
                    guard.value.aborted == old(guard.value.aborted) + if fails then [root] else [])
    {
      if guard.Some? {
        var prepared := guard.value.Prepare(root);
        if !prepared {
          return false;
        }
      }
      ok := name !in unwritable;
      if ok {
        refs := refs[name := root];
      }
      if guard.Some? {
        if ok {
          guard.value.Commit(root);
        } else {
          guard.value.Abort(root);
        }
      }
    }

    /** Other handlers commit whole trees while this one transfers. */
    method Others(meanwhile: map<Name, Key>, grown: set<Key>)
      requires forall n | n in meanwhile :: Complete(grown, meanwhile[n])
      requires Whole()
      modifies this`refs, store
      ensures refs == old(refs) + meanwhile && store.objects == old(store.objects) + grown && Whole()
    {
      WholeGrows(refs, store.objects, store.objects + grown);
      WholeGrows(meanwhile, grown, store.objects + grown);
      store.objects := store.objects + grown;
      refs := refs + meanwhile;
    }

    /** Serves a reference's record, then answers the client's want frames on every channel. */
    method HandlePull(name: Name, channels: seq<seq<WantSync.Request>>, canReply: bool)
      returns (first: Served, packs: seq<seq<WantSync.Reply>>, results: seq<Result<(), Error>>, last: Reply)
      requires |channels| >= 1
      modifies this`accessed
      ensures first == if !canReply then Unsent
                       else if name in unreadable then Refused(Internal)
                       else if name !in refs then Refused(UnknownRef)
                       else Record(refs[name])
      ensures accessed == old(accessed) + if name !in unreadable && name in refs then [name] else []
      ensures !first.Record? ==> packs == [] && results == []
      ensures first.Record? ==> |packs| == |results| == |channels|
      ensures first.Record? ==>
                forall i | 0 <= i < |channels| :: Serves(store.objects, channels[i], packs[i], results[i])
      ensures first.Record? ==> last == if OwnFault(results) then Refuse(Internal) else NoReply
      // a client that asks for what lies below the record's root is always answered in full
      ensures first.Record? && Whole() ==>
                forall i | 0 <= i < |channels| && AsksBelow(channels[i], first.root) :: results[i] != Err(LocalRead)
    {
      hide Serves, Complete, Reaches, AsksBelow, Whole, FromPeer;
      packs, results, last := [], [], NoReply;
      if name in unreadable {
        return if canReply then Refused(Internal) else Unsent, packs, results, last;
      }
      if name !in refs {
        return if canReply then Refused(UnknownRef) else Unsent, packs, results, last;
      }
      accessed := accessed + [name];
      if !canReply {
        return Unsent, packs, results, last;
      }
      first := Record(refs[name]);
      var failed, byPeer := false, false;
      for i := 0 to |channels|
        invariant |packs| == |results| == i && name in refs && first == Record(refs[name])
        invariant accessed == old(accessed) + [name]
        invariant forall j | 0 <= j < i :: Serves(store.objects, channels[j], packs[j], results[j])
        invariant Whole() ==>
                    forall j | 0 <= j < i && AsksBelow(channels[j], first.root) :: results[j] != Err(LocalRead)
        invariant failed <==> exists r :: r in results && r.Err?
        invariant byPeer <==> Err(RemoteFailure) in results
      {
        var p, r := Send(store.objects, channels[i]);
        if Whole() && AsksBelow(channels[i], first.root) {
          WholeTree(name);
          AskedIsPresent(store.objects, first.root, channels[i], p, r);
        }
        packs, results := packs + [p], results + [r];
        assert r in results;
        if r.Err? {
          SendErrorFromPeer(store.objects, channels[i], p, r);
        }
        failed := failed || r.Err?;
        byPeer := byPeer || (r.Err? && FromPeer(r.error));
      }
      if failed && !byPeer {
        last := Refuse(Internal);
      }
    }
  }

  /** The first frame of a pull's answer, if it could be written. */
  datatype Served = Record(root: Key) | Refused(why: Refusal) | Unsent

  /** Only keys at or below `root` are asked for. */
  ghost predicate AsksBelow(requests: seq<WantSync.Request>, root: Key) {
    forall i, k | 0 <= i < |requests| && requests[i].WantFrame? && k in requests[i].keys :: Reaches(root, k)
  }

  lemma AskedIsPresent(have: set<Key>, root: Key, requests: seq<WantSync.Request>, packs: seq<WantSync.Reply>,
                       r: Result<(), Error>)
    requires Complete(have, root) && AsksBelow(requests, root) && Serves(have, requests, packs, r)
    ensures r != Err(LocalRead)
  {
    CompleteIffNothingMissing(have, root);
    if packs != [] {
      var n := |packs| - 1;
      assert r != Err(LocalWrite) ==> IsAnswer(have, requests[n].keys, packs[n]);
      assert forall k | k in requests[n].keys :: k in have;
    }
  }
}

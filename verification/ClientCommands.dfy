/**
 The client's push and pull commands as programs: what they read and write in the local
 reference store, in which order, around the object transfer. What the server sends is a
 parameter.
 */
module ClientCommands {
  import opened Basics
  import opened Dag
  import opened Rounds
  import opened WantSync
  import opened HonestRuns
  import opened Receiving
  import opened Cluster
  import opened Cbor
  import opened Messages
  import opened Frames
  import PushServer

  datatype Failure =
    | ReservedName | InvalidName | NoSuchRef | BadRecord | NotWritten
    | NoConnection | Refused | UnexpectedReply
    | TransferFailed(e: Error)
    | TrackingNotWritten          // the command did its work, only the tracking reference is stale

  /** The server's answer to a pull: a record, whose root may not decode, or something else. */
  datatype PullAnswer = RefFrame(root: Option<Key>) | ErrFrame | OtherFrame | NoFrame

  /** The server's last word on a push. */
  datatype PushAnswer = OkFrame | ErrorFrame | WrongFrame | NoAnswer

  /** How a key reads its bytes, if they are a key. */
  type Parser = seq<byte> -> Option<Key>

  /** All keys of a want frame, or nothing when one is none. */
  function KeysOf(keys: seq<Option<seq<byte>>>, parse: Parser): Option<seq<Key>> {
    if keys == [] then Some([])
    else
      var first := if keys[0].Some? then parse(keys[0].value) else None;
      var more := KeysOf(keys[1..], parse);
      if first.None? || more.None? then None else Some([first.value] + more.value)
  }

  /** How a plain sending loop reads a frame of the server's. */
  function AsRequest(m: Msg, parse: Parser): Request {
    if m.typ == T_ERR then ErrorReport
    else if m.typ != T_WANTS then Request.OtherFrame
    else match KeysOf(m.keys, parse)
         case Some(keys) => WantFrame(keys)
         case None => MalformedKeys
  }

  function AsRequests(ms: seq<Msg>, parse: Parser): (rs: seq<Request>)
    ensures |rs| == |ms| && forall i | 0 <= i < |ms| :: rs[i] == AsRequest(ms[i], parse)
  {
    seq(|ms|, i requires 0 <= i < |ms| => AsRequest(ms[i], parse))
  }

  /** One answered stream per channel, each served as the sending loop serves. */
  ghost predicate AllServed(have: set<Key>, channels: seq<seq<Request>>, packs: seq<seq<Reply>>,
                            results: seq<Result<(), Error>>) {
    && |packs| == |results| == |channels|
    && forall i | 0 <= i < |channels| :: Serves(have, channels[i], packs[i], results[i])
  }

  /** The stream opens with a want frame that, written again, is over the frame limit. */
  predicate TooLarge(control: seq<Msg>) {
    control != [] && control[0].typ == T_WANTS && !Writable(control[0])
  }

  /** A want frame as this program's own receiving loop writes it never is. */
  lemma OwnFrameIsReplayed(control: seq<Msg>, keys: seq<seq<byte>>)
    requires control != [] && control[0] == WantsMsg(keys)
    requires |keys| <= 32 * 1024 && forall k | k in keys :: |k| <= 254
    ensures !TooLarge(control)
  {
    OwnFrameReplays(keys, []);
  }

  method SendAll(have: set<Key>, channels: seq<seq<Request>>)
    returns (packs: seq<seq<Reply>>, results: seq<Result<(), Error>>)
    ensures AllServed(have, channels, packs, results)
  {
    hide Serves;
    packs, results := [], [];
    for i := 0 to |channels|
      invariant |packs| == |results| == i
      invariant forall j | 0 <= j < i :: Serves(have, channels[j], packs[j], results[j])
    {
      var p, r := Send(have, channels[i]);
      packs, results := packs + [p], results + [r];
    }
  }

  /**
   The sending side of a push. With one connection it is the plain loop; with more, the
   first frame decides. Only a server that accepts the extra channels gets them used: with
   any other the outcome is that of the plain loop on the whole control stream, unless the
   want frame it opened with is too large to be put back.
   */
  method RunSenders(have: set<Key>, control: seq<Msg>, extras: seq<seq<Request>>, conns: nat, parse: Parser)
    returns (packs: seq<seq<Reply>>, results: seq<Result<(), Error>>)
    ensures if conns > 1 && control != [] && control[0].typ == T_ACCEPT
            then AllServed(have, [AsRequests(control[1..], parse)] + extras, packs, results)
            else if conns > 1 && TooLarge(control) then packs == [[]] && results == [Err(LocalWrite)]
            else AllServed(have, [AsRequests(control, parse)], packs, results)
  {
    hide Writable;
    if conns <= 1 {
      packs, results := SendAll(have, [AsRequests(control, parse)]);
      return;
    }
    if control == [] {
      return [[]], [Err(Disconnected)];
    }
    var first, rest := control[0], control[1..];
    if first.typ == T_ERR {
      packs, results := [[]], [Err(RemoteFailure)];
    } else if first.typ == T_WANTS {
      // an old server that opened with wants: its frame is put back in front of the stream
      if |Marshal(first)| > MAX_FRAME {
        WritableMeaning(first);
        return [[]], [Err(LocalWrite)];
      }
      WritableMeaning(first);
      var replayed := [first] + rest;
      assert replayed == control;
      packs, results := SendAll(have, [AsRequests(replayed, parse)]);
    } else if first.typ == T_ACCEPT {
      packs, results := SendAll(have, [AsRequests(rest, parse)] + extras);
    } else {
      packs, results := [[]], [Err(UnexpectedFrame)];
    }
  }

  lemma WritableMeaning(m: Msg)
    ensures Writable(m) <==> |Marshal(m)| <= MAX_FRAME
  {
  }

  ghost predicate AllOk(results: seq<Result<(), Error>>) { forall i | 0 <= i < |results| :: results[i].Ok? }

  class Client {
    const server: Name
    var refs: map<Name, Key>
    const store: Store
    const unreadable: set<Name>
    const unwritable: set<Name>

    constructor (server: Name, refs: map<Name, Key>, store: Store, unreadable: set<Name>, unwritable: set<Name>)
      ensures this.server == server && this.refs == refs && this.store == store
      ensures this.unreadable == unreadable && this.unwritable == unwritable
    {
      this.server, this.refs, this.store := server, refs, store;
      this.unreadable, this.unwritable := unreadable, unwritable;
    }

    /** The server has the reference, and every channel's sender has its tree. */
    ghost predicate ServesTree(answer: PullAnswer, peers: seq<Peer>) {
      answer.RefFrame? && answer.root.Some? && HoldTree(peers, answer.root.value)
    }

    method Put(name: Name, root: Key) returns (ok: bool)
      modifies this`refs
      ensures ok <==> name !in unwritable
      ensures refs == if ok then old(refs)[name := root] else old(refs)
    {
      ok := name !in unwritable;
      if ok {
        refs := refs[name := root];
      }
    }

    /** Transfer first, then the local name, then the tracking name: a failure leaves a beginning of these. */
    method Pull(name: Name, valid: bool, answer: PullAnswer, peers: seq<Peer>)
      returns (e: Option<Failure>, ghost log: Log, ghost talk: Talk)
      requires |peers| >= 1
      modifies this`refs, store
      ensures old(store.objects) <= store.objects
      ensures e.None? ==>
                && answer.RefFrame? && answer.root.Some? && Complete(store.objects, answer.root.value)
                && refs == old(refs)[name := answer.root.value][TrackingRef(server, name) := answer.root.value]
      ensures e == Some(TrackingNotWritten) ==>
                && answer.RefFrame? && answer.root.Some? && Complete(store.objects, answer.root.value)
                && refs == old(refs)[name := answer.root.value]
      ensures e.Some? && e != Some(TrackingNotWritten) ==> refs == old(refs)
      ensures !valid || Reserved(name) || !answer.RefFrame? || answer.root.None? ==>
                refs == old(refs) && store.objects == old(store.objects)
      ensures !valid ==> e == Some(InvalidName)
      ensures valid && Reserved(name) ==> e == Some(ReservedName)
      ensures valid && !Reserved(name) && answer.ErrFrame? ==> e == Some(Failure.Refused)
      ensures valid && !Reserved(name) && answer.OtherFrame? ==> e == Some(UnexpectedReply)
      ensures valid && !Reserved(name) && answer.NoFrame? ==> e == Some(NoConnection)
      ensures valid && !Reserved(name) && answer.RefFrame? && answer.root.None? ==> e == Some(BadRecord)
      ensures e == Some(NotWritten) ==> name in unwritable
      ensures e == Some(TrackingNotWritten) ==> name !in unwritable && TrackingRef(server, name) in unwritable
      ensures e.Some? && e.value.TransferFailed? ==>
                LoopFailed(log, talk, store.faults, store.shared, store.objects, e.value.e)
      ensures valid && !Reserved(name) && ServesTree(answer, peers) && store.faults == {} && unwritable == {} ==>
                e.None?
    {
      hide Complete, HoldTree, Reserved, TrackingRef, FramesMatch, WithoutLast, ReceivedCount, Levels, Below, Reaches,
        Supplied, NoSharing, LoopFailed, TalkedAs;
      log, talk := Log(Run([], []), [], []), Talk([], []);
      if !valid {
        return Some(InvalidName), log, talk;
      }
      if Reserved(name) {
        return Some(ReservedName), log, talk;
      }
      match answer {
        case ErrFrame => return Some(Failure.Refused), log, talk;
        case OtherFrame => return Some(UnexpectedReply), log, talk;
        case NoFrame => return Some(NoConnection), log, talk;
        case RefFrame(root) =>
          if root.None? {
            return Some(BadRecord), log, talk;
          }
          SuppliedMeaning(peers, store, root.value);
          var r, frames;
          r, frames, log, talk := Receive(peers, store, root.value);
          if r.Err? {
            return Some(TransferFailed(r.error)), log, talk;
          }
          var ok := Put(name, root.value);
          if !ok {
            return Some(NotWritten), log, talk;
          }
          ok := Put(TrackingRef(server, name), root.value);
          e := if ok then None else Some(TrackingNotWritten);
      }
    }

    /** Both references a push reads are readable, if they are there. */
    predicate CanRead(name: Name) { unreadable !! {Resolved(name), TrackingRef(server, name)} }

    /**
     What a push asks of the server: the root of the local reference, over the value last
     seen there unless forced. A tracking reference that cannot be read is an error, not
     an absent expectation.
     */
    function RequestOf(now: map<Name, Key>, name: Name, force: bool): Commits.Request
      requires Resolved(name) in now
    {
      Commits.Request(name, now[Resolved(name)], !force, Get(now, TrackingRef(server, name)))
    }

    method Prepare(name: Name, valid: bool, force: bool) returns (r: Result<Commits.Request, Failure>)
      ensures r.Ok? ==>
                && valid && !Reserved(name) && Resolved(name) in refs
                && r.value.name == name && r.value.root == refs[Resolved(name)]
                && (r.value.cas <==> !force)
                && (TrackingRef(server, name) in refs ==> r.value.expected == Some(refs[TrackingRef(server, name)]))
                && (TrackingRef(server, name) !in refs ==> r.value.expected == None)
                && r.value == RequestOf(refs, name, force)
      ensures r.Ok? <==> valid && !Reserved(name) && Resolved(name) in refs && CanRead(name)
      ensures Reserved(name) ==> r == Err(ReservedName)
      ensures r.Err? ==> r.error in {ReservedName, InvalidName, NoSuchRef, BadRecord}
    {
      hide Reserved, TrackingRef, Resolved;
      if Reserved(name) {
        return Err(ReservedName);
      }
      if !valid {
        return Err(InvalidName);
      }
      var local, tracking := Resolved(name), TrackingRef(server, name);
      if local in unreadable {
        return Err(BadRecord);
      }
      if local !in refs {
        return Err(NoSuchRef);
      }
      if tracking in unreadable {
        return Err(BadRecord);
      }
      r := Ok(Commits.Request(name, refs[local], !force, if tracking in refs then Some(refs[tracking]) else None));
    }

    /** Only an acknowledged push moves the tracking reference, and to nothing but what it pushed. */
    method Push(name: Name, valid: bool, force: bool, conns: nat, control: seq<Msg>,
                extras: seq<seq<Request>>, parse: Parser, answer: PushAnswer)
      returns (sent: Option<Commits.Request>, e: Option<Failure>, ghost results: seq<Result<(), Error>>)
      modifies this`refs
      ensures sent.Some? ==> !Reserved(name) && Resolved(name) in old(refs)
      ensures sent.Some? ==> sent.value == RequestOf(old(refs), name, force)
      ensures e.None? ==> sent.Some? && answer.OkFrame?
      ensures e.None? ==> refs == old(refs)[TrackingRef(server, name) := sent.value.root]
      ensures e.Some? ==> refs == old(refs)
      ensures e == Some(TrackingNotWritten) ==> sent.Some? && answer.OkFrame?
      // what can be asked is asked, a failing channel is reported, and otherwise the server's last word decides
      ensures sent.Some? <==> valid && !Reserved(name) && Resolved(name) in old(refs) && CanRead(name)
      ensures sent.None? ==> results == []
      ensures sent.Some? && AllOk(results) ==>
                e == match answer
                     case NoAnswer => Some(NoConnection)
                     case ErrorFrame => Some(Failure.Refused)
                     case WrongFrame => Some(UnexpectedReply)
                     case OkFrame => if TrackingRef(server, name) in unwritable then Some(TrackingNotWritten) else None
      ensures sent.Some? && !AllOk(results) ==>
                exists i :: 0 <= i < |results| && results[i].Err? && AllOk(results[..i])
                         && e == Some(TransferFailed(results[i].error))
    {
      hide Reserved, TrackingRef, Resolved, Serves, AllServed;
      results := [];
      var prepared := Prepare(name, valid, force);
      if prepared.Err? {
        return None, Some(prepared.error), results;
      }
      var req := prepared.value;
      var packs, ends := RunSenders(store.objects, control, extras, conns, parse);
      results := ends;
      for i := 0 to |ends|
        invariant refs == old(refs) && AllOk(ends[..i])
      {
        if ends[i].Err? {
          assert !AllOk(ends);
          return Some(req), Some(TransferFailed(ends[i].error)), results;
        }
        assert ends[..i + 1] == ends[..i] + [ends[i]];
      }
      assert ends[..|ends|] == ends;
      match answer {
        case NoAnswer => return Some(req), Some(NoConnection), results;
        case ErrorFrame => return Some(req), Some(Failure.Refused), results;
        case WrongFrame => return Some(req), Some(UnexpectedReply), results;
        case OkFrame =>
          var ok := Put(TrackingRef(server, name), req.root);
          sent, e := Some(req), if ok then None else Some(TrackingNotWritten);
      }
    }
  }

  // ---------- both halves of a pull ----------

  /** A peer per channel, each the server's sending loop on the server's store. */
  function ServedBy(objects: set<Key>, n: nat): (peers: seq<Peer>)
    ensures |peers| == n && forall i | 0 <= i < n :: peers[i] == Honest(objects)
  {
    seq(n, _ => Honest(objects))
  }

  /**
   A pull from a server all of whose references point at whole trees, over any number of
   channels: whatever reference it is of, the client ends with the whole tree and with
   both of its names on it.
   */
  method PullSession(s: PushServer.Server, c: Client, name: Name, n: nat) returns (e: Option<Failure>)
    requires s.Whole() && name in s.refs && !Reserved(name) && n >= 1
    requires c.store != s.store && c.store.faults == {} && c.unwritable == {}
    modifies c`refs, c.store
    ensures e.None? && Complete(c.store.objects, s.refs[name])
    ensures c.refs == old(c.refs)[name := s.refs[name]][TrackingRef(c.server, name) := s.refs[name]]
  {
    hide Complete, Reserved, TrackingRef;
    s.WholeTree(name);
    var peers := ServedBy(s.store.objects, n);
    ghost var log, talk;
    e, log, talk := c.Pull(name, true, RefFrame(Some(s.refs[name])), peers);
  }

  /** The requests on every channel, as the server's sending loops read them. */
  function ChannelRequests(frames: seq<seq<seq<Key>>>): (channels: seq<seq<Request>>)
    ensures |channels| == |frames|
    ensures forall c | 0 <= c < |frames| :: channels[c] == WantFramesOf(frames[c])
  {
    seq(|frames|, c requires 0 <= c < |frames| => WantFramesOf(frames[c]))
  }

  /**
   The two ends of the transfer of a pull put together: what the receiving loop sent on
   its channels is what the handler's sending loops answer, and unless a pack cannot be
   written every one of them answers all of it and ends without an error.
   */
  method TransferBothEnds(s: PushServer.Server, st: Store, name: Name, n: nat)
    returns (r: Result<Stats, Error>, first: PushServer.Served, packs: seq<seq<Reply>>, results: seq<Result<(), Error>>)
    requires s.Whole() && name in s.refs && name !in s.unreadable && n >= 1
    requires st != s.store && st.faults == {}
    modifies s`accessed, st
    ensures r.Ok? && first == PushServer.Record(s.refs[name]) && Complete(st.objects, s.refs[name])
    ensures |packs| == |results| == n
    ensures forall c | 0 <= c < n && results[c] != Err(LocalWrite) ::
              results[c] == Ok(()) && forall i | 0 <= i < |packs[c]| :: packs[c][i].Pack? && packs[c][i].end == Ended
  {
    hide Complete, FramesMatch, WithoutLast, Serves, Levels, Below, NoSharing, HoldTree, Supplied, ReceivedCount,
      Run.Valid, Run.Ends;
    ghost var have := st.objects;
    var root := s.refs[name];
    s.WholeTree(name);
    var peers := ServedBy(s.store.objects, n);
    ServedByHolds(s.store.objects, n, root);
    SuppliedMeaning(peers, st, root);
    var frames;
    ghost var log, talk;
    r, frames, log, talk := Receive(peers, st, root);
    var last;
    first, packs, results, last := s.HandlePull(name, ChannelRequests(frames), true);
    RunShape(log.run, root, have);
    forall c: nat | c < n && results[c] != Err(LocalWrite)
      ensures results[c] == Ok(()) && forall i | 0 <= i < |packs[c]| :: packs[c][i].Pack? && packs[c][i].end == Ended
    {
      SenderEndsWell(log, n, frames, root, have, c, s.store.objects, packs[c], results[c]);
    }
  }

  lemma ServedByHolds(objects: set<Key>, n: nat, root: Key)
    requires Complete(objects, root)
    ensures HoldTree(ServedBy(objects, n), root)
  {
  }

  lemma RunShape(run: Run, root: Key, have: set<Key>)
    requires run.Valid(root, have)
    ensures |run.states| == |run.packs| + 1
  {
  }
}

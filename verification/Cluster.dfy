/**
 Many clients and one server: what a client's remote-tracking references mean.

 A client's own store keeps, under a reserved name, the value it last saw on the server.
 It is the expectation of the client's next push. Commands of any number of clients
 interleave with the server's handlers; a command can die between any two of its steps, a
 reply can get lost, and other programs may push to the same server.
 */
module Cluster {
  import opened Basics
  import opened Dag
  import Commits

  type Name = Commits.Name

  const PREFIX: Name := "remotes/"

  /** The local name under which the last value seen on `server` of `name` is kept. */
  function TrackingRef(server: Name, name: Name): Name { PREFIX + server + "/" + name }

  /** Commands that set references refuse these names. */
  predicate Reserved(name: Name) { PREFIX <= name }

  lemma TrackingIsReserved(server: Name, name: Name)
    ensures Reserved(TrackingRef(server, name))
  {
    assert TrackingRef(server, name) == PREFIX + (server + "/" + name);
  }

  /** The local reference a push of `name` takes its root from: a specification ends at an @. */
  function Resolved(name: Name): (r: Name)
    ensures r <= name && '@' !in r
    ensures |r| < |name| ==> name[|r|] == '@'
  {
    if name == [] || name[0] == '@' then [] else [name[0]] + Resolved(name[1..])
  }

  /** Server identities contain no slash, so a tracking name says which server and which name it is for. */
  lemma TrackingInjective(s: Name, m: Name, t: Name, n: Name)
    requires '/' !in s && '/' !in t && TrackingRef(s, m) == TrackingRef(t, n)
    ensures s == t && m == n
  {
    var a, b := s + "/" + m, t + "/" + n;
    assert TrackingRef(s, m) == PREFIX + a && TrackingRef(t, n) == PREFIX + b;
    assert a == TrackingRef(s, m)[|PREFIX|..] == TrackingRef(t, n)[|PREFIX|..] == b;
    SlashSplit(s, m, t, n);
  }

  lemma SlashSplit(s: Name, m: Name, t: Name, n: Name)
    requires '/' !in s && '/' !in t && s + "/" + m == t + "/" + n
    ensures s == t && m == n
  {
    var a, b := s + "/" + m, t + "/" + n;
    assert a[|s|] == '/' && b[|t|] == '/';
    NoSlashWithin(s, m);
    NoSlashWithin(t, n);
    assert |s| == |t|;
    assert s == a[..|s|] && t == b[..|t|] && m == a[|s| + 1..] && n == b[|t| + 1..];
  }

  lemma NoSlashWithin(s: Name, m: Name)
    requires '/' !in s
    ensures forall i: nat | i < |s| :: (s + "/" + m)[i] != '/'
  {
    forall i: nat | i < |s|
      ensures (s + "/" + m)[i] != '/'
    {
      assert (s + "/" + m)[i] == s[i];
    }
  }

  /** With a slash allowed, two servers could share a tracking name. */
  lemma SlashesWouldCollide()
    ensures TrackingRef("a", "b/c") == TrackingRef("a/b", "c")
  {
    assert TrackingRef("a", "b/c") == PREFIX + "a/b/c" == TrackingRef("a/b", "c");
  }

  // ---------- clients ----------

  /** Commands in progress. A push reads its root and its expectation before it dials. */
  datatype Op =
    | Prepared(client: nat, name: Name, req: Commits.Request)
    | Pushing(client: nat, name: Name, req: Commits.Request)
    | Acknowledged(client: nat, name: Name, root: Key)
    | Pulling(client: nat, name: Name)
    | Fetched(client: nat, name: Name, root: Key)      // the server's record has arrived
    | Pulled(client: nat, name: Name, root: Key)       // and its tree
    | HalfStored(client: nat, name: Name, root: Key)   // the local name is written, the tracking name is not
    | Over

  /** A value a client got from the server: by a pull's record, or by an acknowledged push. */
  datatype Sight = Sight(client: nat, name: Name, value: Key)

  /** Whose request a push was, and what that client had seen when it went out. */
  datatype Sent = Sent(client: nat, known: set<Sight>)

  /** `seen` and `sent` are history: no program keeps them. */
  datatype State = State(server: Commits.State, stores: map<nat, map<Name, Key>>, ops: map<nat, Op>,
                         seen: set<Sight>, sent: map<nat, Sent>)

  datatype Step =
    | Server(step: Commits.Step)
    | StartPush(op: nat, client: nat, name: Name, force: bool)
    | SendPush(op: nat)
    | SeeAcknowledged(op: nat)
    | RecordPush(op: nat)
    | StartPull(op: nat, client: nat, name: Name)
    | ReceiveRecord(op: nat)
    | ReceiveTree(op: nat)
    | StoreLocal(op: nat)
    | StoreTracking(op: nat)
    | Stop(op: nat)                                       // an error, a lost reply, a crash
    | SetLocal(client: nat, name: Name, value: Key)       // any command that sets a reference
    | Remove(client: nat, name: Name)                     // any reference at all may be removed
    | OtherServer(client: nat, other: Name, name: Name, value: Key)

  function StoreOf(s: State, client: nat): map<Name, Key> {
    if client in s.stores then s.stores[client] else map[]
  }

  function Write(s: State, client: nat, name: Name, value: Key): State {
    s.(stores := s.stores[client := StoreOf(s, client)[name := value]])
  }

  function Become(s: State, id: nat, op: Op): State { s.(ops := s.ops[id := op]) }

  /** The server's handler of push `id` is handler `id`; it sent TOK when its result says so. */
  predicate ToldOk(server: Commits.State, id: nat) {
    id in server.handlers && Commits.ResultOf(server.handlers[id].phase) == Some(Commits.Outcome.Acknowledged)
  }

  ghost predicate Enabled(sid: Name, s: State, step: Step) {
    match step
    case Server(step) => Commits.Enabled(s.server, step) && (step.Arrive? ==> step.id !in s.ops)
    case StartPush(id, client, name, _) =>
      id !in s.ops && id !in s.server.handlers && !Reserved(name) && Resolved(name) in StoreOf(s, client)
    case SendPush(id) => id in s.ops && s.ops[id].Prepared? && id !in s.server.handlers
    case SeeAcknowledged(id) => id in s.ops && s.ops[id].Pushing? && ToldOk(s.server, id)
    case RecordPush(id) => id in s.ops && s.ops[id].Acknowledged?
    case StartPull(id, _, name) => id !in s.ops && id !in s.server.handlers && !Reserved(name)
    case ReceiveRecord(id) => id in s.ops && s.ops[id].Pulling? && s.ops[id].name in s.server.refs
    case ReceiveTree(id) => id in s.ops && s.ops[id].Fetched?
    case StoreLocal(id) => id in s.ops && s.ops[id].Pulled?
    case StoreTracking(id) => id in s.ops && s.ops[id].HalfStored?
    case Stop(id) => id in s.ops
    case SetLocal(_, name, _) => !Reserved(name)
    case Remove(_, _) => true
    case OtherServer(_, other, _, _) => other != sid && '/' !in other
  }

  function Apply(sid: Name, s: State, step: Step): State
    requires Enabled(sid, s, step)
  {
    match step
    case Server(step) => s.(server := Commits.Apply(s.server, step))
    case StartPush(id, client, name, force) =>
      var store := StoreOf(s, client);
      var expected := Get(store, TrackingRef(sid, name));
      Become(s, id, Prepared(client, name, Commits.Request(name, store[Resolved(name)], !force, expected)))
    case SendPush(id) =>
      var op := s.ops[id];
      Become(s, id, Pushing(op.client, op.name, op.req))
        .(server := Commits.Apply(s.server, Commits.Arrive(id, op.req)), sent := s.sent[id := Sent(op.client, s.seen)])
    case SeeAcknowledged(id) =>
      var op := s.ops[id];
      Become(s, id, Acknowledged(op.client, op.name, op.req.root))
        .(seen := s.seen + {Sight(op.client, op.name, op.req.root)})
    case RecordPush(id) =>
      var op := s.ops[id];
      Write(Become(s, id, Over), op.client, TrackingRef(sid, op.name), op.root)
    case StartPull(id, client, name) => Become(s, id, Pulling(client, name))
    case ReceiveRecord(id) =>
      var op := s.ops[id];
      var root := s.server.refs[op.name];
      Become(s, id, Fetched(op.client, op.name, root)).(seen := s.seen + {Sight(op.client, op.name, root)})
    case ReceiveTree(id) => Become(s, id, Pulled(s.ops[id].client, s.ops[id].name, s.ops[id].root))
    case StoreLocal(id) =>
      var op := s.ops[id];
      Write(Become(s, id, HalfStored(op.client, op.name, op.root)), op.client, op.name, op.root)
    case StoreTracking(id) =>
      var op := s.ops[id];
      Write(Become(s, id, Over), op.client, TrackingRef(sid, op.name), op.root)
    case Stop(id) => Become(s, id, Over)
    case SetLocal(client, name, value) => Write(s, client, name, value)
    case Remove(client, name) => s.(stores := s.stores[client := StoreOf(s, client) - {name}])
    case OtherServer(client, other, name, value) => Write(s, client, TrackingRef(other, name), value)
  }

  function Start(refs: map<Name, Key>, objects: set<Key>): State {
    State(Commits.Start(refs, objects), map[], map[], {}, map[])
  }

  ghost predicate Leads(sid: Name, s: State, step: Step, t: State) { Enabled(sid, s, step) && t == Apply(sid, s, step) }

  ghost predicate Runs(sid: Name, refs: map<Name, Key>, objects: set<Key>, steps: seq<Step>, s: State)
    decreases |steps|
  {
    if steps == [] then s == Start(refs, objects)
    else
      var n := |steps| - 1;
      var last := steps[n];
      exists p :: Runs(sid, refs, objects, steps[..n], p) && Leads(sid, p, last, s)
  }

  // ---------- what every step keeps ----------

  /** `value` is in the server's history of `name`: its first value, or one a commit wrote. */
  ghost predicate InHistory(refs: map<Name, Key>, server: Commits.State, name: Name, value: Key) {
    || (name in refs && refs[name] == value)
    || exists i :: 0 <= i < |server.log| && server.log[i].req.name == name && server.log[i].req.root == value
  }

  /** The client saw the value a push expects, or had no tracking reference when it started. */
  ghost predicate ExpectsSeen(s: State, client: nat, name: Name, req: Commits.Request) {
    req.name == name && (req.expected.Some? ==> Sight(client, name, req.expected.value) in s.seen)
  }

  ghost predicate OpOk(s: State, id: nat)
    requires id in s.ops
  {
    match s.ops[id]
    case Prepared(client, name, req) => ExpectsSeen(s, client, name, req)
    case Pushing(client, name, req) =>
      ExpectsSeen(s, client, name, req) && id in s.server.handlers && s.server.handlers[id].req == req
    case Acknowledged(client, name, root) => Sight(client, name, root) in s.seen
    case Fetched(client, name, root) => Sight(client, name, root) in s.seen && !Reserved(name)
    case Pulled(client, name, root) => Sight(client, name, root) in s.seen && !Reserved(name)
    case HalfStored(client, name, root) => Sight(client, name, root) in s.seen && !Reserved(name)
    case Pulling(_, name) => !Reserved(name)
    case Over => true
  }

  /** What a push that went out expects was known to its client then. */
  ghost predicate SentOk(s: State, id: nat)
    requires id in s.sent
  {
    && id in s.server.handlers
    && s.sent[id].known <= s.seen
    && var req := s.server.handlers[id].req;
       req.expected.Some? ==> Sight(s.sent[id].client, req.name, req.expected.value) in s.sent[id].known
  }

  /** Tracking references of this server hold values their client has seen. */
  ghost predicate TracksSeen(sid: Name, s: State) {
    forall client, name | client in s.stores && TrackingRef(sid, name) in s.stores[client] ::
      Sight(client, name, s.stores[client][TrackingRef(sid, name)]) in s.seen
  }

  ghost predicate SightsOk(refs: map<Name, Key>, s: State) {
    forall g | g in s.seen :: InHistory(refs, s.server, g.name, g.value)
  }

  ghost predicate OpsOk(s: State) { forall id | id in s.ops :: OpOk(s, id) }

  ghost predicate AllSentOk(s: State) { forall id | id in s.sent :: SentOk(s, id) }

  ghost predicate Inv(sid: Name, refs: map<Name, Key>, s: State) {
    Commits.Inv(refs, s.server) && OpsOk(s) && AllSentOk(s) && TracksSeen(sid, s) && SightsOk(refs, s)
  }

  // ---------- the server, seen from outside ----------

  /** Handlers stay and keep their requests; the log only grows. */
  lemma ServerStep(server: Commits.State, step: Commits.Step)
    requires Commits.Enabled(server, step)
    ensures var t := Commits.Apply(server, step);
            && (forall id | id in server.handlers :: id in t.handlers && t.handlers[id].req == server.handlers[id].req)
            && server.log <= t.log
  {
    hide Complete, Commits.Passes, Commits.RoundDone, Commits.NothingWanting;
  }

  lemma HistoryGrows(refs: map<Name, Key>, a: Commits.State, b: Commits.State, name: Name, value: Key)
    requires a.log <= b.log && InHistory(refs, a, name, value)
    ensures InHistory(refs, b, name, value)
  {
    if !(name in refs && refs[name] == value) {
      var i :| 0 <= i < |a.log| && a.log[i].req.name == name && a.log[i].req.root == value;
      assert b.log[i] == a.log[i];
    }
  }

  /** An acknowledged value, and a value served to a pull, is in the history. */
  lemma AcknowledgedInHistory(refs: map<Name, Key>, server: Commits.State, id: nat)
    requires Commits.LogOk(refs, server) && ToldOk(server, id)
    ensures InHistory(refs, server, server.handlers[id].req.name, server.handlers[id].req.root)
  {
    assert Commits.InLog(server.log, id);
    var i :| 0 <= i < |server.log| && server.log[i].id == id;
    assert server.log[i].req == server.handlers[id].req;
  }

  lemma ServedInHistory(refs: map<Name, Key>, server: Commits.State, name: Name)
    requires Commits.LogOk(refs, server) && name in server.refs
    ensures InHistory(refs, server, name, server.refs[name])
  {
    var n := |server.log|;
    assert Get(server.refs, name) == Commits.ValueAfter(refs, server.log, name);
    assert server.log[..n] == server.log;
    Commits.ValueStanding(refs, server.log, n, name);
    var last := Commits.LastWrite(server.log, n, name);
    assert last.Some? ==> server.log[last.value].req.root == server.refs[name];
  }

  // ---------- every step ----------

  lemma CanArrive(server: Commits.State, id: nat, req: Commits.Request)
    requires id !in server.handlers
    ensures Commits.Enabled(server, Commits.Arrive(id, req))
  {
  }

  lemma StepKeepsServer(sid: Name, refs: map<Name, Key>, s: State, step: Step)
    requires Commits.Inv(refs, s.server) && Enabled(sid, s, step)
    ensures Commits.Inv(refs, Apply(sid, s, step).server)
    ensures s.server.log <= Apply(sid, s, step).server.log
    ensures forall id | id in s.server.handlers ::
              && id in Apply(sid, s, step).server.handlers
              && Apply(sid, s, step).server.handlers[id].req == s.server.handlers[id].req
  {
    hide Commits.Inv, Commits.Apply, Commits.Enabled, TrackingRef, Reserved;
    if step.Server? {
      Commits.StepKeepsInv(refs, s.server, step.step);
      ServerStep(s.server, step.step);
    } else if step.SendPush? {
      var arrive := Commits.Arrive(step.op, s.ops[step.op].req);
      CanArrive(s.server, step.op, s.ops[step.op].req);
      Commits.StepKeepsInv(refs, s.server, arrive);
      ServerStep(s.server, arrive);
    }
  }

  /** Operations that a step leaves alone stay sound. */
  lemma OpStays(s: State, t: State, id: nat)
    requires id in s.ops && id in t.ops && t.ops[id] == s.ops[id] && OpOk(s, id)
    requires s.seen <= t.seen
    requires forall h | h in s.server.handlers ::
               h in t.server.handlers && t.server.handlers[h].req == s.server.handlers[h].req
    ensures OpOk(t, id)
  {
  }

  lemma StepKeepsOps(sid: Name, refs: map<Name, Key>, s: State, step: Step)
    requires Commits.Inv(refs, s.server) && OpsOk(s) && TracksSeen(sid, s) && Enabled(sid, s, step)
    ensures OpsOk(Apply(sid, s, step))
  {
    hide Commits.Inv, TrackingRef, Reserved, OpOk, TracksSeen;
    StepKeepsServer(sid, refs, s, step);
    var t := Apply(sid, s, step);
    forall id | id in t.ops
      ensures OpOk(t, id)
    {
      if id in s.ops && t.ops[id] == s.ops[id] {
        OpStays(s, t, id);
      } else {
        MovedOp(sid, s, step, id);
      }
    }
  }

  lemma MovedOp(sid: Name, s: State, step: Step, id: nat)
    requires OpsOk(s) && TracksSeen(sid, s) && Enabled(sid, s, step)
    requires id in Apply(sid, s, step).ops && !(id in s.ops && Apply(sid, s, step).ops[id] == s.ops[id])
    ensures OpOk(Apply(sid, s, step), id)
  {
    hide TrackingRef, Reserved, Resolved, Commits.Enabled, Commits.Passes;
    assert id in s.ops ==> OpOk(s, id);
  }

  lemma StepKeepsSent(sid: Name, refs: map<Name, Key>, s: State, step: Step)
    requires Commits.Inv(refs, s.server) && OpsOk(s) && AllSentOk(s) && Enabled(sid, s, step)
    ensures AllSentOk(Apply(sid, s, step))
  {
    hide Commits.Inv, TrackingRef, Reserved, Commits.Enabled;
    StepKeepsServer(sid, refs, s, step);
    var t := Apply(sid, s, step);
    assert step.SendPush? ==> OpOk(s, step.op) && t.server.handlers[step.op].req == s.ops[step.op].req;
    forall id | id in t.sent
      ensures SentOk(t, id)
    {
      assert id in s.sent && !(step.SendPush? && step.op == id) ==> SentOk(s, id);
    }
  }

  /** Writing a name that is no tracking name of this server, or a value its client has seen, keeps the books. */
  lemma WriteKeepsTracks(sid: Name, s: State, t: State, client: nat, name: Name, value: Key)
    requires TracksSeen(sid, s) && t.stores == Write(s, client, name, value).stores && s.seen <= t.seen
    requires forall n | TrackingRef(sid, n) == name :: Sight(client, n, value) in t.seen
    ensures TracksSeen(sid, t)
  {
    hide TrackingRef;
  }

  /** Only a command for this very server and name writes a tracking name. */
  lemma OnlyItself(sid: Name, name: Name)
    requires '/' !in sid
    ensures forall n | TrackingRef(sid, n) == TrackingRef(sid, name) :: n == name
  {
    forall n | TrackingRef(sid, n) == TrackingRef(sid, name)
      ensures n == name
    {
      TrackingInjective(sid, n, sid, name);
    }
  }

  lemma StepKeepsTracks(sid: Name, s: State, step: Step)
    requires '/' !in sid && OpsOk(s) && TracksSeen(sid, s) && Enabled(sid, s, step)
    ensures TracksSeen(sid, Apply(sid, s, step))
  {
    hide TrackingRef, Reserved, OpOk, Commits.Apply, Commits.Enabled, TracksSeen;
    var t := Apply(sid, s, step);
    match step
    case RecordPush(id) =>
      OnlyItself(sid, s.ops[id].name);
      SeenOp(s, id);
      WriteKeepsTracks(sid, s, t, s.ops[id].client, TrackingRef(sid, s.ops[id].name), s.ops[id].root);
    case StoreTracking(id) =>
      OnlyItself(sid, s.ops[id].name);
      SeenOp(s, id);
      WriteKeepsTracks(sid, s, t, s.ops[id].client, TrackingRef(sid, s.ops[id].name), s.ops[id].root);
    case StoreLocal(id) =>
      SeenOp(s, id);
      NoTracking(sid, s.ops[id].name);
      WriteKeepsTracks(sid, s, t, s.ops[id].client, s.ops[id].name, s.ops[id].root);
    case SetLocal(client, name, value) =>
      NoTracking(sid, name);
      WriteKeepsTracks(sid, s, t, client, name, value);
    case OtherServer(client, other, name, value) =>
      NotOther(sid, other, name);
      WriteKeepsTracks(sid, s, t, client, TrackingRef(other, name), value);
    case Remove(client, name) => RemoveKeepsTracks(sid, s, t, client, name);
    case _ => SameKeepsTracks(sid, s, t);
  }

  lemma SeenOp(s: State, id: nat)
    requires OpsOk(s) && id in s.ops
    ensures var op := s.ops[id];
            op.Acknowledged? || op.HalfStored? || op.Pulled? ==> Sight(op.client, op.name, op.root) in s.seen
    ensures var op := s.ops[id]; op.Pulled? ==> !Reserved(op.name)
  {
    hide Reserved;
    assert OpOk(s, id);
  }

  lemma NoTracking(sid: Name, name: Name)
    requires !Reserved(name)
    ensures forall n :: TrackingRef(sid, n) != name
  {
    forall n
      ensures TrackingRef(sid, n) != name
    {
      TrackingIsReserved(sid, n);
    }
  }

  lemma NotOther(sid: Name, other: Name, name: Name)
    requires '/' !in sid && '/' !in other && other != sid
    ensures forall n :: TrackingRef(sid, n) != TrackingRef(other, name)
  {
    forall n
      ensures TrackingRef(sid, n) != TrackingRef(other, name)
    {
      if TrackingRef(sid, n) == TrackingRef(other, name) {
        TrackingInjective(sid, n, other, name);
      }
    }
  }

  lemma RemoveKeepsTracks(sid: Name, s: State, t: State, client: nat, name: Name)
    requires TracksSeen(sid, s) && t.seen == s.seen && t.stores == s.stores[client := StoreOf(s, client) - {name}]
    ensures TracksSeen(sid, t)
  {
    hide TrackingRef;
  }

  lemma SameKeepsTracks(sid: Name, s: State, t: State)
    requires TracksSeen(sid, s) && t.stores == s.stores && s.seen <= t.seen
    ensures TracksSeen(sid, t)
  {
    hide TrackingRef;
  }

  lemma StepKeepsSights(sid: Name, refs: map<Name, Key>, s: State, step: Step)
    requires Commits.Inv(refs, s.server) && OpsOk(s) && SightsOk(refs, s) && Enabled(sid, s, step)
    ensures SightsOk(refs, Apply(sid, s, step))
  {
    hide TrackingRef, Reserved, Commits.Enabled, Commits.Inv, InHistory, OpOk;
    StepKeepsServer(sid, refs, s, step);
    var t := Apply(sid, s, step);
    NewSights(sid, refs, s, step);
    forall g | g in t.seen
      ensures InHistory(refs, t.server, g.name, g.value)
    {
      HistoryGrows(refs, s.server, t.server, g.name, g.value);
    }
  }

  /** What a step lets a client see is in the server's history already. */
  lemma NewSights(sid: Name, refs: map<Name, Key>, s: State, step: Step)
    requires Commits.Inv(refs, s.server) && OpsOk(s) && SightsOk(refs, s) && Enabled(sid, s, step)
    ensures forall g | g in Apply(sid, s, step).seen :: InHistory(refs, s.server, g.name, g.value)
  {
    hide TrackingRef, Reserved, Commits.Enabled, Commits.Apply, InHistory, Commits.LogOk, Commits.LocksOk;
    if step.SeeAcknowledged? {
      assert OpOk(s, step.op);
      AcknowledgedInHistory(refs, s.server, step.op);
    } else if step.ReceiveRecord? {
      ServedInHistory(refs, s.server, s.ops[step.op].name);
    }
  }

  lemma StepKeepsInv(sid: Name, refs: map<Name, Key>, s: State, step: Step)
    requires '/' !in sid && Inv(sid, refs, s) && Enabled(sid, s, step)
    ensures Inv(sid, refs, Apply(sid, s, step))
  {
    hide Commits.Inv, Enabled, Apply, OpsOk, AllSentOk, TracksSeen, SightsOk;
    StepKeepsServer(sid, refs, s, step);
    StepKeepsOps(sid, refs, s, step);
    StepKeepsSent(sid, refs, s, step);
    StepKeepsTracks(sid, s, step);
    StepKeepsSights(sid, refs, s, step);
  }

  lemma StartInv(sid: Name, refs: map<Name, Key>, objects: set<Key>)
    requires forall n | n in refs :: Complete(objects, refs[n])
    ensures Inv(sid, refs, Start(refs, objects))
  {
    hide Complete, TrackingRef;
    Commits.StartInv(refs, objects);
  }

  lemma {:induction false} RunsKeepInv(sid: Name, refs: map<Name, Key>, objects: set<Key>, steps: seq<Step>, s: State)
    requires '/' !in sid && (forall n | n in refs :: Complete(objects, refs[n]))
    requires Runs(sid, refs, objects, steps, s)
    ensures Inv(sid, refs, s)
    decreases |steps|
  {
    hide Inv, Enabled, Apply, Complete;
    if steps == [] {
      StartInv(sid, refs, objects);
    } else {
      var n := |steps| - 1;
      var p :| Runs(sid, refs, objects, steps[..n], p) && Leads(sid, p, steps[n], s);
      RunsKeepInv(sid, refs, objects, steps[..n], p);
      StepKeepsInv(sid, refs, p, steps[n]);
    }
  }

  // ---------- what tracking references are good for ----------

  /**
   In every run every tracking reference holds a value its client pulled or pushed, and
   the server's history of that name contains it.
   */
  lemma TrackingIsHistory(sid: Name, refs: map<Name, Key>, objects: set<Key>, steps: seq<Step>, s: State)
    requires '/' !in sid && (forall n | n in refs :: Complete(objects, refs[n]))
    requires Runs(sid, refs, objects, steps, s)
    ensures forall client, name | client in s.stores && TrackingRef(sid, name) in s.stores[client] ::
              var value := s.stores[client][TrackingRef(sid, name)];
              Sight(client, name, value) in s.seen && InHistory(refs, s.server, name, value)
  {
    hide TrackingRef, InHistory;
    RunsKeepInv(sid, refs, objects, steps, s);
    forall client, name | client in s.stores && TrackingRef(sid, name) in s.stores[client]
      ensures var value := s.stores[client][TrackingRef(sid, name)];
              Sight(client, name, value) in s.seen && InHistory(refs, s.server, name, value)
    {
      var g := Sight(client, name, s.stores[client][TrackingRef(sid, name)]);
      assert g in s.seen;
      assert InHistory(refs, s.server, g.name, g.value);
    }
  }

  // ---------- pushes, by the command that started them ----------

  /** What became of a push started with or without force: its request says which it was. */
  ghost predicate PushAs(s: State, id: nat, client: nat, name: Name, force: bool) {
    && id in s.ops && (s.ops[id].Prepared? || s.ops[id].Pushing? || s.ops[id].Acknowledged? || s.ops[id].Over?)
    && (s.ops[id].Prepared? ==>
          s.ops[id].client == client && s.ops[id].req.name == name && s.ops[id].req.cas == !force)
    && (id in s.server.handlers ==>
          && s.server.handlers[id].req.name == name && s.server.handlers[id].req.cas == !force
          && id in s.sent && s.sent[id].client == client)
  }

  lemma StartedAs(sid: Name, s: State, id: nat, client: nat, name: Name, force: bool)
    requires Enabled(sid, s, StartPush(id, client, name, force))
    ensures PushAs(Apply(sid, s, StartPush(id, client, name, force)), id, client, name, force)
  {
    hide TrackingRef, Reserved, Resolved;
  }

  lemma StillAs(sid: Name, s: State, step: Step, id: nat, client: nat, name: Name, force: bool)
    requires PushAs(s, id, client, name, force) && Enabled(sid, s, step)
    ensures PushAs(Apply(sid, s, step), id, client, name, force)
  {
    hide TrackingRef, Reserved, Resolved, Commits.Enabled, Commits.Apply;
    if step.Server? {
      ServerArrivals(s.server, step.step, id);
    } else if step.SendPush? {
      CanArrive(s.server, step.op, s.ops[step.op].req);
      ServerArrivals(s.server, Commits.Arrive(step.op, s.ops[step.op].req), id);
    }
  }

  /** A handler keeps its request, and only an arrival brings a new one. */
  lemma ServerArrivals(server: Commits.State, step: Commits.Step, id: nat)
    requires Commits.Enabled(server, step)
    ensures var t := Commits.Apply(server, step);
            && (id in server.handlers ==> id in t.handlers && t.handlers[id].req == server.handlers[id].req)
            && (id in t.handlers && id !in server.handlers ==> step.Arrive? && step.id == id)
            && (step.Arrive? && step.id == id ==> id in t.handlers && t.handlers[id].req == step.req)
  {
    hide Complete, Commits.Passes, Commits.RoundDone, Commits.NothingWanting;
  }

  lemma {:induction false} PushStaysAs(sid: Name, refs: map<Name, Key>, objects: set<Key>, steps: seq<Step>, s: State,
                                       id: nat, client: nat, name: Name, force: bool)
    requires Runs(sid, refs, objects, steps, s) && StartPush(id, client, name, force) in steps
    ensures PushAs(s, id, client, name, force)
    decreases |steps|
  {
    hide PushAs, Enabled, Apply;
    var n := |steps| - 1;
    var p :| Runs(sid, refs, objects, steps[..n], p) && Leads(sid, p, steps[n], s);
    assert steps == steps[..n] + [steps[n]];
    if StartPush(id, client, name, force) in steps[..n] {
      PushStaysAs(sid, refs, objects, steps[..n], p, id, client, name, force);
      StillAs(sid, p, steps[n], id, client, name, force);
    } else {
      StartedAs(sid, p, id, client, name, force);
    }
  }

  /**
   A push that was started without force only ever replaces absence, or a value its client
   had itself pulled or pushed by the time the request went out: whatever else happened in
   between, whatever replies were lost, and wherever commands died.
   */
  lemma NothingUnseenIsReplaced(sid: Name, refs: map<Name, Key>, objects: set<Key>, steps: seq<Step>, s: State,
                                id: nat, client: nat, name: Name, i: nat)
    requires '/' !in sid && (forall n | n in refs :: Complete(objects, refs[n]))
    requires Runs(sid, refs, objects, steps, s) && StartPush(id, client, name, false) in steps
    requires i < |s.server.log| && s.server.log[i].id == id
    ensures var c := s.server.log[i];
            && c.req.name == name && c.req.cas && id in s.sent && s.sent[id].client == client
            && c.before == Commits.Standing(refs, s.server.log, i, name)
            && (c.before.Some? ==> Sight(client, name, c.before.value) in s.sent[id].known)
            && s.sent[id].known <= s.seen
  {
    hide TrackingRef, InHistory, Commits.LocksOk, Commits.TreesOk, Commits.ValueAfter, Commits.Standing, OpsOk,
      TracksSeen, SightsOk, Runs;
    RunsKeepInv(sid, refs, objects, steps, s);
    PushStaysAs(sid, refs, objects, steps, s, id, client, name, false);
    assert Commits.Chained(refs, s.server.log, i);
    Commits.ValueStanding(refs, s.server.log, i, s.server.log[i].req.name);
    assert SentOk(s, id);
    assert s.server.handlers[id].req == s.server.log[i].req;
  }

  /** One that was started with force has no precondition. */
  lemma ForcedIsUnchecked(sid: Name, refs: map<Name, Key>, objects: set<Key>, steps: seq<Step>, s: State,
                          id: nat, client: nat, name: Name, i: nat)
    requires '/' !in sid && (forall n | n in refs :: Complete(objects, refs[n]))
    requires Runs(sid, refs, objects, steps, s) && StartPush(id, client, name, true) in steps
    requires i < |s.server.log| && s.server.log[i].id == id
    ensures s.server.log[i].req.name == name && !s.server.log[i].req.cas
  {
    hide TrackingRef, InHistory, Commits.LocksOk, Commits.TreesOk, Commits.ValueAfter, OpsOk;
    hide TracksSeen, SightsOk, Runs;
    RunsKeepInv(sid, refs, objects, steps, s);
    PushStaysAs(sid, refs, objects, steps, s, id, client, name, true);
    assert s.server.handlers[id].req == s.server.log[i].req;
  }

  /**
   And it is let through exactly when that is what the server holds: a push without force
   that arrives meets its precondition if and only if the tracking reference it started
   from agrees with the server, absence included.
   */
  lemma AcceptedIffUpToDate(sid: Name, s: State, id: nat, client: nat, name: Name)
    requires Enabled(sid, s, StartPush(id, client, name, false))
    ensures var t := Apply(sid, s, StartPush(id, client, name, false));
            && Enabled(sid, t, SendPush(id))
            && var u := Apply(sid, t, SendPush(id));
               && id in u.server.handlers && u.server.refs == s.server.refs
               && u.server.handlers[id].req.root == StoreOf(s, client)[Resolved(name)]
               && (Commits.Passes(u.server.refs, u.server.handlers[id].req) <==>
                     Get(StoreOf(s, client), TrackingRef(sid, name)) == Get(s.server.refs, name))
  {
    hide TrackingRef, Reserved, Resolved;
  }

  /** So a client whose last push was acknowledged and recorded can push again, until somebody else does. */
  lemma PushAfterPush(sid: Name, s: State, id: nat)
    requires Enabled(sid, s, RecordPush(id))
    ensures var (op, t) := (s.ops[id], Apply(sid, s, RecordPush(id)));
            Get(StoreOf(t, op.client), TrackingRef(sid, op.name)) == Some(op.root)
  {
    hide TrackingRef;
  }

  /** And so can one that has just pulled, of what it pulled. */
  lemma PushAfterPull(sid: Name, s: State, id: nat)
    requires Enabled(sid, s, StoreTracking(id))
    ensures var (op, t) := (s.ops[id], Apply(sid, s, StoreTracking(id)));
            Get(StoreOf(t, op.client), TrackingRef(sid, op.name)) == Some(op.root)
  {
    hide TrackingRef;
  }

  /** A pull's local name holds what was pulled, and the name is not a tracking name. */
  lemma PulledIsStored(sid: Name, s: State, id: nat)
    requires Enabled(sid, s, StoreLocal(id)) && OpsOk(s)
    ensures var (op, t) := (s.ops[id], Apply(sid, s, StoreLocal(id)));
            && Get(StoreOf(t, op.client), op.name) == Some(op.root)
            && forall n ::
                 Get(StoreOf(t, op.client), TrackingRef(sid, n)) == Get(StoreOf(s, op.client), TrackingRef(sid, n))
  {
    hide TrackingRef, Reserved;
    SeenOp(s, id);
    NoTracking(sid, s.ops[id].name);
  }
}

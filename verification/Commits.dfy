/**
 Concurrent pushes on one server: every handler checks its precondition, transfers the
 tree, takes the lock of its reference name, checks again, writes the reference and
 replies. The steps of any number of handlers interleave freely.
 */
module Commits {
  import opened Basics
  import opened Dag
  import opened Rounds

  type Name = string

  /** A push of `root`; with `cas` only over `expected`, None being an absent reference. */
  datatype Request = Request(name: Name, root: Key, cas: bool, expected: Option<Key>)

  /** `Silent`: committed, but the reply could not be sent. */
  datatype Outcome = Acknowledged | Silent | Mismatch(current: Option<Key>) | Failed

  /**
   Where a handler is; `loop` is how the round of its transfer under way began, and `lock`
   the mutex it found under its name.
   */
  datatype Phase =
    | Arrived
    | Receiving(loop: Loop)
    | Received
    | Waiting(lock: nat)
    | Holding(lock: nat)
    | Cleared(lock: nat)
    | Written(lock: nat)
    | Leaving(lock: nat, result: Outcome)
    | Done(result: Outcome)

  datatype Handler = Handler(req: Request, phase: Phase)

  /** A reference write, by handler `id`, over the value `before`. */
  datatype Commit = Commit(id: nat, req: Request, before: Option<Key>)

  /** `locks` maps a name to its mutex, created at first use; `owner` says who holds a mutex. */
  datatype State = State(refs: map<Name, Key>, objects: set<Key>, locks: map<Name, nat>, created: nat,
                         owner: map<nat, nat>, handlers: map<nat, Handler>, log: seq<Commit>)

  datatype Step =
    | Arrive(id: nat, req: Request)
    | EarlyCheck(id: nat)
    | Grow(more: set<Key>)                                   // some transfer stores verified objects
    | NextRound(id: nat, wanted: set<Key>, got: seq<Object>) // a round of its transfer succeeded
    | Transferred(id: nat, wanted: set<Key>)                 // it found nothing wanting
    | FindLock(id: nat)           // look the mutex up, create it when absent
    | Acquire(id: nat)
    | Recheck(id: nat)
    | Put(id: nat)
    | Reply(id: nat, sent: bool)
    | Unlock(id: nat)
    | Fail(id: nat)               // any fault before the reference is written

  function Start(refs: map<Name, Key>, objects: set<Key>): State {
    State(refs, objects, map[], 0, map[], map[], [])
  }

  /** The handler's precondition against the current references. */
  predicate Passes(refs: map<Name, Key>, req: Request) {
    req.cas ==> Get(refs, req.name) == req.expected
  }

  /** The round under way, with the keys its walks found wanting. */
  function RoundOf(h: Handler, wanted: set<Key>): Loop
    requires h.phase.Receiving?
  {
    h.phase.loop.(wanted := wanted)
  }

  /** How the round after it begins: with whatever the shared store holds by then. */
  function RoundAfter(s: State, r: Loop, got: seq<Object>): Loop {
    Loop(s.objects, KidsOf(got) + r.Carry(), {})
  }

  predicate InTransfer(s: State, id: nat) { id in s.handlers && s.handlers[id].phase.Receiving? }

  ghost predicate RoundDone(s: State, id: nat, wanted: set<Key>, got: seq<Object>)
    requires InTransfer(s, id)
  {
    var r := RoundOf(s.handlers[id], wanted);
    Round(r, got, RoundAfter(s, r, got))
  }

  /** Nothing below the frontier is wanting. That the tree is whole is a consequence. */
  ghost predicate NothingWanting(s: State, id: nat, wanted: set<Key>)
    requires InTransfer(s, id)
  {
    var r := RoundOf(s.handlers[id], wanted);
    r.Judged(s.objects) && r.Wants() == []
  }

  ghost predicate Enabled(s: State, step: Step) {
    match step
    case Arrive(id, _) => id !in s.handlers
    case EarlyCheck(id) => id in s.handlers && s.handlers[id].phase.Arrived?
    case Grow(_) => true
    case NextRound(id, wanted, got) => InTransfer(s, id) && RoundDone(s, id, wanted, got)
    case Transferred(id, wanted) => InTransfer(s, id) && NothingWanting(s, id, wanted)
    case FindLock(id) => id in s.handlers && s.handlers[id].phase.Received?
    case Acquire(id) => id in s.handlers && s.handlers[id].phase.Waiting? && s.handlers[id].phase.lock !in s.owner
    case Recheck(id) => id in s.handlers && s.handlers[id].phase.Holding?
    case Put(id) => id in s.handlers && s.handlers[id].phase.Cleared?
    case Reply(id, _) => id in s.handlers && s.handlers[id].phase.Written?
    case Unlock(id) => id in s.handlers && s.handlers[id].phase.Leaving?
    case Fail(id) =>
      id in s.handlers
      && match s.handlers[id].phase
         case Arrived => true
         case Receiving(_) => true
         case Holding(_) => true
         case Cleared(_) => true
         case _ => false
  }

  function Goto(s: State, id: nat, phase: Phase): State
    requires id in s.handlers
  {
    s.(handlers := s.handlers[id := s.handlers[id].(phase := phase)])
  }

  function Apply(s: State, step: Step): State
    requires Enabled(s, step)
  {
    match step
    case Arrive(id, req) => s.(handlers := s.handlers[id := Handler(req, Arrived)])
    case EarlyCheck(id) =>
      var req := s.handlers[id].req;
      Goto(s, id, if Passes(s.refs, req) then Receiving(Loop(s.objects, [req.root], {}))
                  else Done(Mismatch(Get(s.refs, req.name))))
    case Grow(more) => s.(objects := s.objects + more)
    case NextRound(id, wanted, got) => Goto(s, id, Receiving(RoundAfter(s, RoundOf(s.handlers[id], wanted), got)))
    case Transferred(id, _) => Goto(s, id, Received)
    case FindLock(id) =>
      var name := s.handlers[id].req.name;
      if name in s.locks then Goto(s, id, Waiting(s.locks[name]))
      else Goto(s, id, Waiting(s.created)).(locks := s.locks[name := s.created], created := s.created + 1)
    case Acquire(id) =>
      var lock := s.handlers[id].phase.lock;
      Goto(s, id, Holding(lock)).(owner := s.owner[lock := id])
    case Recheck(id) =>
      var req, lock := s.handlers[id].req, s.handlers[id].phase.lock;
      Goto(s, id, if Passes(s.refs, req) then Cleared(lock) else Leaving(lock, Mismatch(Get(s.refs, req.name))))
    case Put(id) =>
      var req := s.handlers[id].req;
      Goto(s, id, Written(s.handlers[id].phase.lock))
        .(refs := s.refs[req.name := req.root], log := s.log + [Commit(id, req, Get(s.refs, req.name))])
    case Reply(id, sent) => Goto(s, id, Leaving(s.handlers[id].phase.lock, if sent then Acknowledged else Silent))
    case Unlock(id) =>
      var h := s.handlers[id];
      Goto(s, id, Done(h.phase.result)).(owner := s.owner - {h.phase.lock})
    case Fail(id) =>
      match s.handlers[id].phase
      case Holding(lock) => Goto(s, id, Leaving(lock, Failed))
      case Cleared(lock) => Goto(s, id, Leaving(lock, Failed))
      case _ => Goto(s, id, Done(Failed))
  }

  /** The states a server can get to from references `refs` and objects `objects`. */
  ghost predicate Runs(refs: map<Name, Key>, objects: set<Key>, steps: seq<Step>, s: State)
    decreases |steps|
  {
    if steps == [] then s == Start(refs, objects)
    else
      var n := |steps| - 1;
      var last := steps[n];
      exists p :: Runs(refs, objects, steps[..n], p) && Leads(p, last, s)
  }

  ghost predicate Leads(s: State, step: Step, t: State) { Enabled(s, step) && t == Apply(s, step) }

  // ---------- what every step keeps ----------

  /** The phases inside the critical section of a mutex. */
  predicate Inside(phase: Phase, lock: nat) {
    match phase
    case Holding(l) => l == lock
    case Cleared(l) => l == lock
    case Written(l) => l == lock
    case Leaving(l, _) => l == lock
    case _ => false
  }

  predicate HasLock(phase: Phase) {
    phase.Waiting? || phase.Holding? || phase.Cleared? || phase.Written? || phase.Leaving?
  }

  function ResultOf(phase: Phase): Option<Outcome> {
    match phase
    case Leaving(_, result) => Some(result)
    case Done(result) => Some(result)
    case _ => None
  }

  /** The handler has written its reference. */
  predicate Committed(phase: Phase) {
    phase.Written? || ResultOf(phase) == Some(Acknowledged) || ResultOf(phase) == Some(Silent)
  }

  /** The handler's whole tree has arrived. */
  predicate TreeArrived(phase: Phase) {
    phase.Received? || phase.Waiting? || phase.Holding? || phase.Cleared? || phase.Written?
  }

  /** The value of `name` after the commits in `log`, from the initial references. */
  function ValueAfter(refs: map<Name, Key>, log: seq<Commit>, name: Name): Option<Key> {
    if log == [] then Get(refs, name)
    else
      var last := log[|log| - 1];
      if last.req.name == name then Some(last.req.root) else ValueAfter(refs, log[..|log| - 1], name)
  }

  /** A commit's recorded value is the one the log gives, and its precondition holds of it. */
  ghost predicate Chained(refs: map<Name, Key>, log: seq<Commit>, i: nat)
    requires i < |log|
  {
    && log[i].before == ValueAfter(refs, log[..i], log[i].req.name)
    && (log[i].req.cas ==> log[i].before == log[i].req.expected)
  }

  /** A handler that found its mutex found the one of its name, and owns it from when it got it. */
  ghost predicate LockOk(s: State, id: nat)
    requires id in s.handlers
  {
    var h := s.handlers[id];
    HasLock(h.phase) ==>
      && h.req.name in s.locks && s.locks[h.req.name] == h.phase.lock
      && (!h.phase.Waiting? ==> h.phase.lock in s.owner && s.owner[h.phase.lock] == id)
  }

  ghost predicate OwnerOk(s: State, lock: nat)
    requires lock in s.owner
  {
    s.owner[lock] in s.handlers && Inside(s.handlers[s.owner[lock]].phase, lock)
  }

  /** Every name has a mutex of its own. */
  ghost predicate NamesOk(s: State) {
    && (forall n | n in s.locks :: s.locks[n] < s.created)
    && forall m, n | m in s.locks && n in s.locks && s.locks[m] == s.locks[n] :: m == n
  }

  ghost predicate LocksOk(s: State) {
    && NamesOk(s)
    && (forall l | l in s.owner :: OwnerOk(s, l))
    && forall id | id in s.handlers :: LockOk(s, id)
  }

  ghost predicate RefsLogged(refs: map<Name, Key>, now: map<Name, Key>, log: seq<Commit>) {
    forall name :: Get(now, name) == ValueAfter(refs, log, name)
  }

  ghost predicate AllChained(refs: map<Name, Key>, log: seq<Commit>) {
    forall i | 0 <= i < |log| :: Chained(refs, log, i)
  }

  /** Every commit is some handler's, of its own request and its only one. */
  ghost predicate CommitsOwned(hs: map<nat, Handler>, log: seq<Commit>) {
    && (forall i, j | 0 <= i < j < |log| :: log[i].id != log[j].id)
    && forall i | 0 <= i < |log| ::
         log[i].id in hs && hs[log[i].id].req == log[i].req && Committed(hs[log[i].id].phase)
  }

  ghost predicate InLog(log: seq<Commit>, id: nat) {
    exists i :: 0 <= i < |log| && log[i].id == id
  }

  ghost predicate AllLogged(hs: map<nat, Handler>, log: seq<Commit>) {
    forall id | id in hs && Committed(hs[id].phase) :: InLog(log, id)
  }

  ghost predicate LogOk(refs: map<Name, Key>, s: State) {
    && RefsLogged(refs, s.refs, s.log) && AllChained(refs, s.log)
    && CommitsOwned(s.handlers, s.log) && AllLogged(s.handlers, s.log)
  }

  ghost predicate ChecksOk(s: State) {
    forall id | id in s.handlers :: s.handlers[id].phase.Cleared? ==> Passes(s.refs, s.handlers[id].req)
  }

  /** Nobody is told of a mismatch that was none. */
  ghost predicate RepliesOk(s: State) {
    forall id | id in s.handlers :: RefusalOk(s.handlers[id])
  }

  predicate RefusalOk(h: Handler) {
    match ResultOf(h.phase)
    case Some(Mismatch(current)) => h.req.cas && current != h.req.expected
    case _ => true
  }

  /** A tree in transfer is missing nothing but what its frontier leads to; one that arrived is whole. */
  ghost predicate TreeOk(objects: set<Key>, h: Handler) {
    && (TreeArrived(h.phase) ==> Complete(objects, h.req.root))
    && (h.phase.Receiving? ==> h.phase.loop.have <= objects && Covered(h.req.root, h.phase.loop))
  }

  ghost predicate TreesOk(s: State) {
    && (forall n | n in s.refs :: Complete(s.objects, s.refs[n]))
    && forall id | id in s.handlers :: TreeOk(s.objects, s.handlers[id])
  }

  ghost predicate Inv(refs: map<Name, Key>, s: State) {
    LocksOk(s) && LogOk(refs, s) && ChecksOk(s) && RepliesOk(s) && TreesOk(s)
  }

  lemma SameNames(s: State, t: State)
    requires NamesOk(s) && t.locks == s.locks && t.created == s.created
    ensures NamesOk(t)
  {
  }

  /** A phase change that neither takes nor gives up the mutex. */
  lemma PhaseKeepsLocks(s: State, id: nat, phase: Phase)
    requires LocksOk(s) && id in s.handlers
    requires var before := s.handlers[id].phase;
             if HasLock(before) then Inside(before, before.lock) && Inside(phase, before.lock) else !HasLock(phase)
    ensures LocksOk(Goto(s, id, phase))
  {
    hide NamesOk;
    var t := Goto(s, id, phase);
    forall l | l in t.owner
      ensures OwnerOk(t, l)
    {
      assert OwnerOk(s, l);
      assert LockOk(s, id);
    }
    forall h | h in t.handlers
      ensures LockOk(t, h)
    {
      assert LockOk(s, h);
    }
    SameNames(s, t);
  }

  lemma ArriveKeepsLocks(s: State, id: nat, req: Request)
    requires LocksOk(s) && id !in s.handlers
    ensures LocksOk(Apply(s, Arrive(id, req)))
  {
    var t := Apply(s, Arrive(id, req));
    forall l | l in t.owner
      ensures OwnerOk(t, l)
    {
      assert OwnerOk(s, l);
    }
    forall h | h in t.handlers
      ensures LockOk(t, h)
    {
      assert h != id ==> LockOk(s, h);
    }
  }

  lemma FindLockKeepsLocks(s: State, id: nat)
    requires LocksOk(s) && Enabled(s, FindLock(id))
    ensures LocksOk(Apply(s, FindLock(id)))
  {
    hide Complete;
    var t := Apply(s, FindLock(id));
    forall l | l in t.owner
      ensures OwnerOk(t, l)
    {
      assert OwnerOk(s, l);
    }
    forall h | h in t.handlers
      ensures LockOk(t, h)
    {
      assert LockOk(s, h);
    }
  }

  lemma AcquireKeepsLocks(s: State, id: nat)
    requires LocksOk(s) && Enabled(s, Acquire(id))
    ensures LocksOk(Apply(s, Acquire(id)))
  {
    hide NamesOk, Complete;
    var t := Apply(s, Acquire(id));
    forall l | l in t.owner
      ensures OwnerOk(t, l)
    {
      assert l in s.owner ==> OwnerOk(s, l);
    }
    forall h | h in t.handlers
      ensures LockOk(t, h)
    {
      assert LockOk(s, h);
    }
    SameNames(s, t);
  }

  lemma UnlockKeepsLocks(s: State, id: nat)
    requires LocksOk(s) && Enabled(s, Unlock(id))
    ensures LocksOk(Apply(s, Unlock(id)))
  {
    hide NamesOk, Complete;
    var t := Apply(s, Unlock(id));
    assert LockOk(s, id);
    forall l | l in t.owner
      ensures OwnerOk(t, l)
    {
      assert OwnerOk(s, l);
    }
    forall h | h in t.handlers
      ensures LockOk(t, h)
    {
      assert LockOk(s, h);
      if h != id && HasLock(t.handlers[h].phase) && !t.handlers[h].phase.Waiting? {
        assert s.owner[t.handlers[h].phase.lock] == h;
      }
    }
    SameNames(s, t);
  }

  lemma StepKeepsLocks(s: State, step: Step)
    requires LocksOk(s) && Enabled(s, step)
    ensures LocksOk(Apply(s, step))
  {
    hide Complete, LocksOk, RoundDone, NothingWanting;
    match step
    case Arrive(id, req) => ArriveKeepsLocks(s, id, req);
    case FindLock(id) => FindLockKeepsLocks(s, id);
    case Acquire(id) => AcquireKeepsLocks(s, id);
    case Unlock(id) => UnlockKeepsLocks(s, id);
    case Grow(more) => LocksOnly(s, Apply(s, step));
    case Put(id) =>
      PhaseKeepsLocks(s, id, Written(s.handlers[id].phase.lock));
      LocksOnly(Goto(s, id, Written(s.handlers[id].phase.lock)), Apply(s, step));
    case _ =>
      OwnStep(s, step);
      PhaseKeepsLocks(s, step.id, Apply(s, step).handlers[step.id].phase);
  }

  /** The remaining steps change the handler's phase alone, and neither take nor give up a mutex. */
  lemma OwnStep(s: State, step: Step)
    requires Enabled(s, step) && !step.Arrive? && !step.Grow? && !step.Put?
    requires !step.FindLock? && !step.Acquire? && !step.Unlock?
    ensures var t := Apply(s, step);
            && step.id in s.handlers && step.id in t.handlers
            && t == Goto(s, step.id, t.handlers[step.id].phase)
            && var (before, after) := (s.handlers[step.id].phase, t.handlers[step.id].phase);
               if HasLock(before) then Inside(before, before.lock) && Inside(after, before.lock) else !HasLock(after)
  {
    hide Complete, Passes, RoundDone, NothingWanting;
  }

  lemma LocksOnly(s: State, t: State)
    requires LocksOk(s) && t.locks == s.locks && t.created == s.created
    requires t.owner == s.owner && t.handlers == s.handlers
    ensures LocksOk(t)
  {
    assert forall l | l in t.owner :: OwnerOk(s, l);
    assert forall h | h in t.handlers :: LockOk(s, h);
  }

  lemma GrownTree(objects: set<Key>, more: set<Key>, h: Handler)
    requires TreeOk(objects, h) && objects <= more
    ensures TreeOk(more, h)
  {
    if TreeArrived(h.phase) {
      CompleteMonotone(objects, more, h.req.root);
    }
  }

  lemma GrowKeepsTrees(s: State, more: set<Key>)
    requires TreesOk(s)
    ensures TreesOk(Apply(s, Grow(more)))
  {
    hide TreeOk, Complete;
    var t := Apply(s, Grow(more));
    forall n | n in t.refs
      ensures Complete(t.objects, t.refs[n])
    {
      CompleteMonotone(s.objects, t.objects, s.refs[n]);
    }
    forall id | id in t.handlers
      ensures TreeOk(t.objects, t.handlers[id])
    {
      GrownTree(s.objects, t.objects, s.handlers[id]);
    }
  }

  /** A transfer begins with everything missing at or below its root. */
  lemma FirstRoundCovered(root: Key, objects: set<Key>)
    ensures Covered(root, Loop(objects, [root], {}))
  {
    assert root in [root];
  }

  /** What the transfer's own steps make of its tree: the frontier keeps leading to all that is missing. */
  lemma TransferStepTree(s: State, step: Step)
    requires TreesOk(s) && Enabled(s, step)
    requires step.EarlyCheck? || step.NextRound? || step.Transferred?
    ensures TreeOk(s.objects, Apply(s, step).handlers[step.id])
  {
    hide Complete, Covered, Reaches, Passes, Round, WantList;
    var h := s.handlers[step.id];
    assert TreeOk(s.objects, h);
    match step
    case EarlyCheck(id) => FirstRoundCovered(h.req.root, s.objects);
    case NextRound(id, wanted, got) =>
      var r := RoundOf(h, wanted);
      SameCover(h.req.root, h.phase.loop, r);
      RoundKeepsCovered(h.req.root, r, got, RoundAfter(s, r, got));
    case Transferred(id, wanted) =>
      var r := RoundOf(h, wanted);
      SameCover(h.req.root, h.phase.loop, r);
      NothingWantedIsWhole(h.req.root, r, s.objects);
  }

  lemma SameCover(root: Key, a: Loop, b: Loop)
    requires Covered(root, a) && b.have == a.have && b.frontier == a.frontier
    ensures Covered(root, b)
  {
  }

  lemma StepKeepsTrees(s: State, step: Step)
    requires TreesOk(s) && Enabled(s, step)
    ensures TreesOk(Apply(s, step))
  {
    hide Complete, TreeOk, Passes, RoundDone, NothingWanting;
    if step.Grow? {
      GrowKeepsTrees(s, step.more);
    } else if step.EarlyCheck? || step.NextRound? || step.Transferred? {
      TransferStepTree(s, step);
    } else {
      OtherStepTrees(s, step);
    }
  }

  lemma OtherStepTrees(s: State, step: Step)
    requires TreesOk(s) && Enabled(s, step) && !step.Grow?
    requires !step.EarlyCheck? && !step.NextRound? && !step.Transferred?
    ensures TreesOk(Apply(s, step))
  {
    hide Complete, Covered, Passes, RoundDone, NothingWanting;
    var t := Apply(s, step);
    assert !step.Arrive? ==> TreeOk(s.objects, s.handlers[step.id]);
    forall id | id in t.handlers
      ensures TreeOk(t.objects, t.handlers[id])
    {
      assert id in s.handlers ==> TreeOk(s.objects, s.handlers[id]);
    }
  }

  /** Two handlers of one name are never both past the lock. */
  lemma MutualExclusion(s: State, a: nat, b: nat)
    requires LocksOk(s) && a in s.handlers && b in s.handlers
    requires s.handlers[a].req.name == s.handlers[b].req.name
    requires !s.handlers[a].phase.Waiting? && HasLock(s.handlers[a].phase)
    requires !s.handlers[b].phase.Waiting? && HasLock(s.handlers[b].phase)
    ensures a == b
  {
    assert LockOk(s, a) && LockOk(s, b);
  }

  /** A check made under the lock stays good until the handler itself writes. */
  lemma StepKeepsChecks(s: State, step: Step)
    requires LocksOk(s) && ChecksOk(s) && Enabled(s, step)
    ensures ChecksOk(Apply(s, step))
  {
    hide Complete, LocksOk, RoundDone, NothingWanting;
    var t := Apply(s, step);
    forall id | id in t.handlers && t.handlers[id].phase.Cleared?
      ensures Passes(t.refs, t.handlers[id].req)
    {
      if step.Put? && s.handlers[id].req.name == s.handlers[step.id].req.name {
        MutualExclusion(s, id, step.id);
      }
    }
  }

  lemma ValueAfterNext(refs: map<Name, Key>, log: seq<Commit>, c: Commit)
    ensures forall name :: ValueAfter(refs, log + [c], name)
                        == if c.req.name == name then Some(c.req.root) else ValueAfter(refs, log, name)
  {
    assert (log + [c])[..|log|] == log;
  }

  lemma ChainedNext(refs: map<Name, Key>, log: seq<Commit>, c: Commit, i: nat)
    requires i < |log| && Chained(refs, log, i)
    ensures Chained(refs, log + [c], i)
  {
    assert (log + [c])[..i] == log[..i];
  }

  lemma PutKeepsLog(refs: map<Name, Key>, s: State, id: nat)
    requires LogOk(refs, s) && ChecksOk(s) && Enabled(s, Put(id))
    ensures LogOk(refs, Apply(s, Put(id)))
  {
    hide Complete, ValueAfter, Passes, RefsLogged, AllChained, CommitsOwned, AllLogged;
    var t := Apply(s, Put(id));
    var c := Commit(id, s.handlers[id].req, Get(s.refs, s.handlers[id].req.name));
    RefsLoggedNext(refs, s.refs, s.log, c);
    CheckedCommit(s, c);
    LogChained(refs, s.refs, s.log, c);
    EveryCommitLogged(s.handlers, s.log, t.handlers, c);
    LogOwners(s.handlers, s.log, t.handlers, c);
  }

  lemma CheckedCommit(s: State, c: Commit)
    requires ChecksOk(s) && c.id in s.handlers && s.handlers[c.id].phase.Cleared? && c.req == s.handlers[c.id].req
    requires c.before == Get(s.refs, c.req.name)
    ensures c.req.cas ==> c.before == c.req.expected
  {
    assert Passes(s.refs, c.req);
  }

  /** The new commit's handler had not committed before, and has now. */
  lemma LogOwners(hs: map<nat, Handler>, log: seq<Commit>, more: map<nat, Handler>, c: Commit)
    requires CommitsOwned(hs, log)
    requires c.id in hs && !Committed(hs[c.id].phase) && hs[c.id].req == c.req
    requires c.id in more && more == hs[c.id := more[c.id]] && more[c.id].req == c.req && Committed(more[c.id].phase)
    ensures CommitsOwned(more, log + [c])
  {
    hide Committed;
  }

  lemma RefsLoggedNext(refs: map<Name, Key>, now: map<Name, Key>, log: seq<Commit>, c: Commit)
    requires RefsLogged(refs, now, log)
    ensures RefsLogged(refs, now[c.req.name := c.req.root], log + [c])
  {
    hide ValueAfter;
    ValueAfterNext(refs, log, c);
  }

  lemma LogChained(refs: map<Name, Key>, now: map<Name, Key>, log: seq<Commit>, c: Commit)
    requires AllChained(refs, log) && RefsLogged(refs, now, log)
    requires c.before == Get(now, c.req.name) && (c.req.cas ==> c.before == c.req.expected)
    ensures AllChained(refs, log + [c])
  {
    hide Chained, ValueAfter;
    forall i | 0 <= i < |log + [c]|
      ensures Chained(refs, log + [c], i)
    {
      if i < |log| {
        ChainedNext(refs, log, c, i);
      } else {
        LastChained(refs, log, c);
      }
    }
  }

  lemma EveryCommitLogged(hs: map<nat, Handler>, log: seq<Commit>, more: map<nat, Handler>, c: Commit)
    requires AllLogged(hs, log)
    requires c.id in hs && c.id in more && more == hs[c.id := more[c.id]]
    ensures AllLogged(more, log + [c])
  {
    hide Committed;
    forall id | id in more && Committed(more[id].phase)
      ensures InLog(log + [c], id)
    {
      if id == c.id {
        assert (log + [c])[|log|].id == id;
      } else {
        assert InLog(log, id);
        var i :| 0 <= i < |log| && log[i].id == id;
        assert (log + [c])[i].id == id;
      }
    }
  }

  lemma LastChained(refs: map<Name, Key>, log: seq<Commit>, c: Commit)
    requires c.before == ValueAfter(refs, log, c.req.name) && (c.req.cas ==> c.before == c.req.expected)
    ensures Chained(refs, log + [c], |log|)
  {
    assert (log + [c])[..|log|] == log;
  }

  /** Steps that write no reference leave the log and who is in it alone. */
  lemma QuietKeepsLog(refs: map<Name, Key>, s: State, t: State)
    requires LogOk(refs, s) && t.refs == s.refs && t.log == s.log
    requires forall id | id in s.handlers ::
               id in t.handlers && t.handlers[id].req == s.handlers[id].req
               && Committed(t.handlers[id].phase) == Committed(s.handlers[id].phase)
    requires forall id | id in t.handlers && id !in s.handlers :: !Committed(t.handlers[id].phase)
    ensures LogOk(refs, t)
  {
    hide Committed, AllChained, RefsLogged, InLog;
  }

  lemma PhaseKeepsLog(refs: map<Name, Key>, s: State, id: nat, t: State)
    requires LogOk(refs, s) && id in s.handlers && t.refs == s.refs && t.log == s.log
    requires id in t.handlers && t.handlers == s.handlers[id := s.handlers[id].(phase := t.handlers[id].phase)]
    requires Committed(t.handlers[id].phase) == Committed(s.handlers[id].phase)
    ensures LogOk(refs, t)
  {
    hide LogOk, Committed;
    QuietKeepsLog(refs, s, t);
  }

  lemma StepKeepsLog(refs: map<Name, Key>, s: State, step: Step)
    requires LogOk(refs, s) && ChecksOk(s) && Enabled(s, step)
    ensures LogOk(refs, Apply(s, step))
  {
    hide Complete, LogOk, ChecksOk, RoundDone, NothingWanting;
    if step.Put? {
      PutKeepsLog(refs, s, step.id);
    } else if step.Arrive? || step.Grow? {
      QuietKeepsLog(refs, s, Apply(s, step));
    } else {
      QuietMove(s, step);
      PhaseKeepsLog(refs, s, step.id, Apply(s, step));
    }
  }

  /** Apart from the write itself, a handler's step changes its own phase only, and not whether it has committed. */
  lemma QuietMove(s: State, step: Step)
    requires Enabled(s, step) && !step.Put? && !step.Arrive? && !step.Grow?
    ensures var t := Apply(s, step);
            && t.refs == s.refs && t.log == s.log && step.id in s.handlers && step.id in t.handlers
            && t.handlers == s.handlers[step.id := s.handlers[step.id].(phase := t.handlers[step.id].phase)]
            && Committed(t.handlers[step.id].phase) == Committed(s.handlers[step.id].phase)
  {
    hide Complete, RoundDone, NothingWanting, Committed, Passes;
    CommittedStays(s, step);
  }

  lemma CommittedStays(s: State, step: Step)
    requires Enabled(s, step) && !step.Put? && !step.Arrive? && !step.Grow?
    ensures step.id in s.handlers && step.id in Apply(s, step).handlers
    ensures Committed(Apply(s, step).handlers[step.id].phase) == Committed(s.handlers[step.id].phase)
  {
    hide Complete, RoundDone, NothingWanting, Passes;
  }

  lemma StepKeepsReplies(s: State, step: Step)
    requires RepliesOk(s) && Enabled(s, step)
    ensures RepliesOk(Apply(s, step))
  {
    hide Complete, RoundDone, NothingWanting;
  }

  lemma StepKeepsInv(refs: map<Name, Key>, s: State, step: Step)
    requires Inv(refs, s) && Enabled(s, step)
    ensures Inv(refs, Apply(s, step))
  {
    hide LocksOk, LogOk, ChecksOk, RepliesOk, TreesOk, Enabled, Apply;
    StepKeepsReplies(s, step);
    StepKeepsLocks(s, step);
    StepKeepsTrees(s, step);
    StepKeepsChecks(s, step);
    StepKeepsLog(refs, s, step);
  }

  lemma StartInv(refs: map<Name, Key>, objects: set<Key>)
    requires forall n | n in refs :: Complete(objects, refs[n])
    ensures Inv(refs, Start(refs, objects))
  {
  }

  lemma {:induction false} RunsKeepInv(refs: map<Name, Key>, objects: set<Key>, steps: seq<Step>, s: State)
    requires forall n | n in refs :: Complete(objects, refs[n])
    requires Runs(refs, objects, steps, s)
    ensures Inv(refs, s)
    decreases |steps|
  {
    hide Inv, Enabled, Apply;
    if steps == [] {
      StartInv(refs, objects);
    } else {
      var n := |steps| - 1;
      var p :| Runs(refs, objects, steps[..n], p) && Leads(p, steps[n], s);
      RunsKeepInv(refs, objects, steps[..n], p);
      StepKeepsInv(refs, p, steps[n]);
    }
  }

  // ---------- what holds in every run ----------

  /** The last of the first `n` commits that wrote `name`. */
  function LastWrite(log: seq<Commit>, n: nat, name: Name): (r: Option<nat>)
    requires n <= |log|
    ensures r.Some? ==> r.value < n && log[r.value].req.name == name
    ensures forall i | 0 <= i < n && log[i].req.name == name :: r.Some? && i <= r.value
  {
    if n == 0 then None else if log[n - 1].req.name == name then Some(n - 1) else LastWrite(log, n - 1, name)
  }

  /** What that commit wrote, or the initial value when there is none. */
  function Standing(refs: map<Name, Key>, log: seq<Commit>, n: nat, name: Name): Option<Key>
    requires n <= |log|
  {
    var last := LastWrite(log, n, name);
    if last.Some? then Some(log[last.value].req.root) else Get(refs, name)
  }

  lemma {:induction false} ValueStanding(refs: map<Name, Key>, log: seq<Commit>, n: nat, name: Name)
    requires n <= |log|
    ensures ValueAfter(refs, log[..n], name) == Standing(refs, log, n, name)
  {
    if n > 0 {
      assert log[..n][..n - 1] == log[..n - 1];
      ValueStanding(refs, log, n - 1, name);
    }
  }

  /**
   In every run the commits of a name form one chain: each starts from what the one before
   it wrote (the first from the initial value), a compare-and-swap from exactly the value
   its client expected, and the reference holds what the last one wrote.
   */
  lemma CommitsChain(refs: map<Name, Key>, objects: set<Key>, steps: seq<Step>, s: State)
    requires (forall n | n in refs :: Complete(objects, refs[n])) && Runs(refs, objects, steps, s)
    ensures forall i | 0 <= i < |s.log| ::
              && s.log[i].before == Standing(refs, s.log, i, s.log[i].req.name)
              && (s.log[i].req.cas ==> s.log[i].before == s.log[i].req.expected)
    ensures forall name :: Get(s.refs, name) == Standing(refs, s.log, |s.log|, name)
  {
    hide Standing, ValueAfter;
    RunsKeepInv(refs, objects, steps, s);
    forall i | 0 <= i < |s.log|
      ensures s.log[i].before == Standing(refs, s.log, i, s.log[i].req.name)
      ensures s.log[i].req.cas ==> s.log[i].before == s.log[i].req.expected
    {
      assert Chained(refs, s.log, i);
      ValueStanding(refs, s.log, i, s.log[i].req.name);
    }
    assert s.log[..|s.log|] == s.log;
    forall name
      ensures Get(s.refs, name) == Standing(refs, s.log, |s.log|, name)
    {
      ValueStanding(refs, s.log, |s.log|, name);
    }
  }

  /** At any moment at most one handler of a name is past the lock. */
  lemma OneInside(refs: map<Name, Key>, objects: set<Key>, steps: seq<Step>, s: State, a: nat, b: nat)
    requires (forall n | n in refs :: Complete(objects, refs[n])) && Runs(refs, objects, steps, s)
    requires a in s.handlers && b in s.handlers && s.handlers[a].req.name == s.handlers[b].req.name
    requires exists l, m :: Inside(s.handlers[a].phase, l) && Inside(s.handlers[b].phase, m)
    ensures a == b
  {
    RunsKeepInv(refs, objects, steps, s);
    MutualExclusion(s, a, b);
  }

  /** Every reference points at a whole tree, at every moment of every run. */
  lemma RefsAreWhole(refs: map<Name, Key>, objects: set<Key>, steps: seq<Step>, s: State)
    requires (forall n | n in refs :: Complete(objects, refs[n])) && Runs(refs, objects, steps, s)
    ensures forall n, x | n in s.refs && Reaches(s.refs[n], x) :: x in s.objects
  {
    RunsKeepInv(refs, objects, steps, s);
    forall n, x | n in s.refs && Reaches(s.refs[n], x)
      ensures x in s.objects
    {
      assert Complete(s.objects, s.refs[n]);
      CompleteIffNothingMissing(s.objects, s.refs[n]);
    }
  }

  ghost predicate LoggedOnce(log: seq<Commit>, id: nat, req: Request) {
    exists i :: 0 <= i < |log| && log[i].id == id && log[i].req == req
             && forall j | 0 <= j < |log| && log[j].id == id :: j == i
  }

  /**
   A reply tells the truth: an acknowledged push wrote its reference exactly once, one
   that was refused or failed never did, and a refusal names a value that was not expected.
   Without a reply the push may or may not have been committed.
   */
  lemma RepliesAreTrue(refs: map<Name, Key>, objects: set<Key>, steps: seq<Step>, s: State, id: nat)
    requires (forall n | n in refs :: Complete(objects, refs[n])) && Runs(refs, objects, steps, s)
    requires id in s.handlers && s.handlers[id].phase.Done?
    ensures var (req, result) := (s.handlers[id].req, s.handlers[id].phase.result);
            && (result.Acknowledged? || result.Silent? ==> LoggedOnce(s.log, id, req))
            && (result.Mismatch? || result.Failed? ==> !InLog(s.log, id))
            && (result.Mismatch? ==> req.cas && result.current != req.expected)
  {
    hide LocksOk, TreesOk, ChecksOk;
    RunsKeepInv(refs, objects, steps, s);
    var h := s.handlers[id];
    assert RefusalOk(h);
    if Committed(h.phase) {
      assert InLog(s.log, id);
      var i :| 0 <= i < |s.log| && s.log[i].id == id;
    }
  }

  /** The handler's result says that its reply was sent, or could not be. */
  predicate Replied(s: State, id: nat, sent: bool) {
    && id in s.handlers
    && ResultOf(s.handlers[id].phase) == Some(if sent then Acknowledged else Silent)
  }

  lemma StepReplies(s: State, step: Step, id: nat, sent: bool)
    requires Enabled(s, step)
    ensures Replied(Apply(s, step), id, sent) <==> Replied(s, id, sent) || step == Reply(id, sent)
  {
    hide Complete, Passes, RoundDone, NothingWanting, RoundAfter;
  }

  /** A push counts as acknowledged exactly when its acknowledgement was sent, and as silent when it could not be. */
  lemma {:induction false} AcknowledgedIffSent(refs: map<Name, Key>, objects: set<Key>, steps: seq<Step>, s: State,
                                               id: nat, sent: bool)
    requires Runs(refs, objects, steps, s)
    ensures Replied(s, id, sent) <==> Reply(id, sent) in steps
    decreases |steps|
  {
    hide Enabled, Apply;
    if steps != [] {
      var n := |steps| - 1;
      var p :| Runs(refs, objects, steps[..n], p) && Leads(p, steps[n], s);
      AcknowledgedIffSent(refs, objects, steps[..n], p, id, sent);
      StepReplies(p, steps[n], id, sent);
      assert steps == steps[..n] + [steps[n]];
    }
  }

  // ---------- what the two checks decide ----------

  /** A push that passes the early check is let into its transfer; one that fails is told what stands, and is done. */
  lemma EarlyCheckDecides(s: State, id: nat)
    requires Enabled(s, EarlyCheck(id))
    ensures var (req, t) := (s.handlers[id].req, Apply(s, EarlyCheck(id)));
            if req.cas && Get(s.refs, req.name) != req.expected
            then t.handlers[id].phase == Done(Mismatch(Get(s.refs, req.name)))
            else t.handlers[id].phase.Receiving?
  {
  }

  /** So does the check under the lock, for the write. */
  lemma RecheckDecides(s: State, id: nat)
    requires Enabled(s, Recheck(id))
    ensures var (h, t) := (s.handlers[id], Apply(s, Recheck(id)));
            if h.req.cas && Get(s.refs, h.req.name) != h.req.expected
            then t.handlers[id].phase == Leaving(h.phase.lock, Mismatch(Get(s.refs, h.req.name)))
            else t.handlers[id].phase == Cleared(h.phase.lock) && Enabled(t, Put(id))
  {
  }

  /** A handler that is done stays as it is: it never transfers, locks or writes again. */
  lemma DoneIsFinal(s: State, step: Step, id: nat)
    requires Enabled(s, step) && id in s.handlers && s.handlers[id].phase.Done?
    ensures id in Apply(s, step).handlers && Apply(s, step).handlers[id] == s.handlers[id]
  {
    hide Complete, Passes, RoundDone, NothingWanting;
  }

  // ---------- progress ----------

  function Rank(phase: Phase): nat {
    match phase
    case Arrived => 8
    case Receiving(_) => 7
    case Received => 6
    case Waiting(_) => 5
    case Holding(_) => 4
    case Cleared(_) => 3
    case Written(_) => 2
    case Leaving(_, _) => 1
    case Done(_) => 0
  }

  /** Apart from the rounds of its transfer a handler takes at most eight steps, and disturbs no other. */
  lemma StepsRunOut(s: State, step: Step)
    requires Enabled(s, step) && !step.Arrive? && !step.Grow? && !step.NextRound?
    ensures var t := Apply(s, step);
            && step.id in s.handlers && step.id in t.handlers
            && Rank(t.handlers[step.id].phase) < Rank(s.handlers[step.id].phase)
            && forall id | id in s.handlers && id != step.id :: id in t.handlers && t.handlers[id] == s.handlers[id]
  {
    hide Complete, Passes, RoundDone, NothingWanting;
  }

  /**
   No deadlock: unless everybody unfinished is still transferring, some handler can take
   its next step without failing. One that waits for a mutex waits for a handler that can move.
   */
  lemma NoDeadlock(refs: map<Name, Key>, objects: set<Key>, steps: seq<Step>, s: State, id: nat)
    requires (forall n | n in refs :: Complete(objects, refs[n])) && Runs(refs, objects, steps, s)
    requires id in s.handlers && !s.handlers[id].phase.Done? && !s.handlers[id].phase.Receiving?
    ensures exists step: Step :: Enabled(s, step) && !step.Fail? && !step.Arrive? && !step.Grow?
  {
    RunsKeepInv(refs, objects, steps, s);
    assert LockOk(s, id);
    var phase := s.handlers[id].phase;
    if phase.Waiting? && phase.lock in s.owner {
      assert OwnerOk(s, phase.lock);
      NextStep(s, s.owner[phase.lock]);
    } else {
      NextStep(s, id);
    }
  }

  lemma NextStep(s: State, id: nat)
    requires id in s.handlers && !s.handlers[id].phase.Done? && !s.handlers[id].phase.Receiving?
    requires s.handlers[id].phase.Waiting? ==> s.handlers[id].phase.lock !in s.owner
    ensures exists step: Step :: Enabled(s, step) && !step.Fail? && !step.Arrive? && !step.Grow?
  {
    hide Complete, Passes, RoundDone, NothingWanting;
    match s.handlers[id].phase
    case Arrived => assert Enabled(s, EarlyCheck(id));
    case Received => assert Enabled(s, FindLock(id));
    case Waiting(_) => assert Enabled(s, Acquire(id));
    case Holding(_) => assert Enabled(s, Recheck(id));
    case Cleared(_) => assert Enabled(s, Put(id));
    case Written(_) => assert Enabled(s, Reply(id, true));
    case Leaving(_, _) => assert Enabled(s, Unlock(id));
  }

  // ---------- the receiving loop, as steps of its handler ----------

  lemma Extend(refs: map<Name, Key>, objects: set<Key>, steps: seq<Step>, s: State, step: Step)
    requires Runs(refs, objects, steps, s) && Enabled(s, step)
    ensures Runs(refs, objects, steps + [step], Apply(s, step))
  {
    hide Enabled, Apply;
    assert (steps + [step])[..|steps|] == steps;
    assert Leads(s, step, Apply(s, step));
  }

  /** The handler's transfer stands where the run stands at the start of round `n`. */
  ghost predicate FollowsRun(s: State, id: nat, root: Key, run: Run, n: nat) {
    && InTransfer(s, id) && s.handlers[id].req.root == root
    && n < |run.states| && s.objects == run.states[n].have
    && s.handlers[id].phase.loop.have == run.states[n].have
    && s.handlers[id].phase.loop.frontier == run.states[n].frontier
  }

  /** One round of the loop: what was stored in its course, by whomever, and then its end. */
  lemma RoundDrivesHandler(refs: map<Name, Key>, objects: set<Key>, steps: seq<Step>, s: State, id: nat, root: Key,
                           run: Run, n: nat) returns (more: seq<Step>, t: State)
    requires Runs(refs, objects, steps, s) && FollowsRun(s, id, root, run, n) && n + 1 < |run.states|
    requires n < |run.packs| && Round(run.states[n], run.packs[n], run.states[n + 1])
    ensures Runs(refs, objects, more, t) && FollowsRun(t, id, root, run, n + 1)
    ensures t.handlers[id].req == s.handlers[id].req
  {
    hide Runs, WantList, Complete, KeySet;
    var grow := Grow(run.states[n + 1].have);
    var next := NextRound(id, run.states[n].wanted, run.packs[n]);
    Extend(refs, objects, steps, s, grow);
    var g := Apply(s, grow);
    assert g.objects == run.states[n + 1].have;
    var r := RoundOf(g.handlers[id], run.states[n].wanted);
    assert r == run.states[n];
    SameRound(r, run.packs[n], run.states[n + 1], RoundAfter(g, r, run.packs[n]));
    Extend(refs, objects, steps + [grow], g, next);
    more, t := steps + [grow] + [next], Apply(g, next);
  }

  lemma SameRound(s: Loop, got: seq<Object>, t: Loop, u: Loop)
    requires Round(s, got, t) && u.have == t.have && u.frontier == KidsOf(got) + s.Carry()
    ensures Round(s, got, u) && u.frontier == t.frontier
  {
  }

  /**
   Every run of the receiving loop that ends is a way for its handler to get through its
   transfer: the handler's rounds are no idealisation of what the program does.
   */
  lemma {:induction false} RunDrivesHandler(refs: map<Name, Key>, objects: set<Key>, steps: seq<Step>, s: State,
                                            id: nat, root: Key, run: Run, n: nat, now: set<Key>)
    returns (more: seq<Step>, t: State)
    requires Runs(refs, objects, steps, s) && FollowsRun(s, id, root, run, n)
    requires run.Valid(root, run.states[0].have) && run.Ends(now)
    ensures Runs(refs, objects, more, t) && id in t.handlers
    ensures t.handlers[id] == Handler(s.handlers[id].req, Received) && t.objects == now
    decreases |run.states| - n
  {
    hide Runs, Round, WantList, Complete, KeySet;
    if n == |run.packs| {
      var grow, done := Grow(now), Transferred(id, run.Last().wanted);
      Extend(refs, objects, steps, s, grow);
      var g := Apply(s, grow);
      assert g.objects == now;
      assert RoundOf(g.handlers[id], run.Last().wanted) == run.Last();
      Extend(refs, objects, steps + [grow], g, done);
      more, t := steps + [grow] + [done], Apply(g, done);
    } else {
      assert Round(run.states[n], run.packs[n], run.states[n + 1]);
      var longer, u := RoundDrivesHandler(refs, objects, steps, s, id, root, run, n);
      more, t := RunDrivesHandler(refs, objects, longer, u, id, root, run, n + 1, now);
    }
  }
}

/**
 Who owns a data stream: streams attach to a transfer by its token, the transfer gathers
 some of them, and dropping the token closes the rest.

 An attaching handler looks its channel up under the lock but sends to it afterwards, so
 its send can come after the drop has emptied the channel. Lookup and send are steps of
 their own here, as are the steps of a drop.
 */
module Transfers {

  /** How many data streams one transfer may have, and one channel may hold. */
  const MAX_DATA_CONNS: nat := 16

  /** What the handler of an attaching stream is doing. Handed over, the stream is the transfer's. */
  datatype Attach = Looking(token: nat) | Found(token: nat) | Refused | Handed(token: nat) | Over

  /** `Dropping`: the token is gone and its channel is being emptied. */
  datatype Phase = Gathering | Using | Dropping | Closing | Released

  /** `wanted` is how many streams the transfer may gather. */
  datatype Transfer = Transfer(wanted: nat, phase: Phase, queue: seq<nat>, gathered: seq<nat>)

  /**
   `closed` counts how often each stream was closed. `late` is history: the tokens whose
   channel was found empty for the last time while an attach still had it in hand.
   */
  datatype State = State(pending: set<nat>, transfers: map<nat, Transfer>, streams: map<nat, Attach>,
                         closed: multiset<nat>, late: set<nat>)

  datatype Step =
    | Create(t: nat, dataConns: nat)
    | Open(x: nat, token: nat)     // a stream asks to attach
    | LookUp(x: nat)
    | Offer(x: nat)                // hands the stream over unless the channel is full
    | Turn(x: nat)                 // tells the peer and closes the stream
    | Gather(t: nat)               // takes one stream out of the channel
    | GatherEnd(t: nat)            // has enough, or the deadline passed
    | Delete(t: nat)               // a drop begins, also of a transfer that never gathered
    | Drain(t: nat)                // closes one stream left in the channel
    | DrainEnd(t: nat)
    | CloseOne(t: nat)             // closes one gathered stream
    | Release(t: nat)

  const START: State := State({}, map[], map[], multiset{}, {})

  function AtMostMax(dataConns: nat): nat { if dataConns > MAX_DATA_CONNS then MAX_DATA_CONNS else dataConns }

  predicate In(s: State, t: nat, phases: set<Phase>) { t in s.transfers && s.transfers[t].phase in phases }

  predicate Waiting(s: State, t: nat) { t in s.transfers && s.transfers[t].phase.Gathering? }

  predicate Enabled(s: State, step: Step) {
    match step
    case Create(t, dataConns) => t !in s.transfers && dataConns > 0
    case Open(x, _) => x !in s.streams
    case LookUp(x) => x in s.streams && s.streams[x].Looking?
    case Offer(x) => x in s.streams && s.streams[x].Found? && s.streams[x].token in s.transfers
    case Turn(x) => x in s.streams && s.streams[x].Refused?
    case Gather(t) => Waiting(s, t) && s.transfers[t].queue != [] && |s.transfers[t].gathered| < s.transfers[t].wanted
    case GatherEnd(t) => Waiting(s, t)
    case Delete(t) => (Waiting(s, t) && s.transfers[t].gathered == []) || In(s, t, {Using})
    case Drain(t) => In(s, t, {Dropping}) && s.transfers[t].queue != []
    case DrainEnd(t) => In(s, t, {Dropping}) && s.transfers[t].queue == []
    case CloseOne(t) => In(s, t, {Closing}) && s.transfers[t].gathered != []
    case Release(t) => In(s, t, {Closing}) && s.transfers[t].gathered == []
  }

  function Put(s: State, t: nat, tr: Transfer): State { s.(transfers := s.transfers[t := tr]) }

  ghost function Apply(s: State, step: Step): State
    requires Enabled(s, step)
  {
    match step
    case Create(t, dataConns) =>
      Put(s, t, Transfer(AtMostMax(dataConns), Gathering, [], [])).(pending := s.pending + {t})
    case Open(x, token) => s.(streams := s.streams[x := Looking(token)])
    case LookUp(x) =>
      var token := s.streams[x].token;
      s.(streams := s.streams[x := if token in s.pending then Found(token) else Refused])
    case Offer(x) =>
      var t := s.streams[x].token;
      var tr := s.transfers[t];
      if |tr.queue| < MAX_DATA_CONNS then
        Put(s, t, tr.(queue := tr.queue + [x])).(streams := s.streams[x := Handed(t)])
      else
        s.(streams := s.streams[x := Refused])
    case Turn(x) => s.(streams := s.streams[x := Over], closed := s.closed + multiset{x})
    case Gather(t) =>
      var tr := s.transfers[t];
      Put(s, t, tr.(queue := tr.queue[1..], gathered := tr.gathered + [tr.queue[0]]))
    case GatherEnd(t) => Put(s, t, s.transfers[t].(phase := Using))
    case Delete(t) => Put(s, t, s.transfers[t].(phase := Dropping)).(pending := s.pending - {t})
    case Drain(t) =>
      var tr := s.transfers[t];
      Put(s, t, tr.(queue := tr.queue[1..])).(closed := s.closed + multiset{tr.queue[0]})
    case DrainEnd(t) =>
      Put(s, t, s.transfers[t].(phase := Closing))
        .(late := if OnItsWay(s, t) then s.late + {t} else s.late)
    case CloseOne(t) =>
      var tr := s.transfers[t];
      Put(s, t, tr.(gathered := tr.gathered[1..])).(closed := s.closed + multiset{tr.gathered[0]})
    case Release(t) => Put(s, t, s.transfers[t].(phase := Released))
  }

  ghost predicate Leads(s: State, step: Step, t: State) { Enabled(s, step) && t == Apply(s, step) }

  ghost predicate Runs(steps: seq<Step>, s: State)
    decreases |steps|
  {
    if steps == [] then s == START
    else
      var n := |steps| - 1;
      var last := steps[n];
      exists p :: Runs(steps[..n], p) && Leads(p, last, s)
  }

  // ---------- conservation ----------

  /** How often `x` is among the streams of transfer `tr`. */
  ghost function Held(tr: Transfer, x: nat): nat {
    multiset(tr.queue)[x] + multiset(tr.gathered)[x]
  }

  function PlaceOf(s: State, x: nat): Attach {
    if x in s.streams then s.streams[x] else Over
  }

  /** A stream handed to `t` is held there once or closed once; no other stream is there. */
  ghost predicate HeldOnce(s: State, t: nat, x: nat)
    requires t in s.transfers
  {
    Held(s.transfers[t], x) == if PlaceOf(s, x) == Handed(t) then (if s.closed[x] == 0 then 1 else 0) else 0
  }

  /** A stream its handler has, or that does not exist, was never closed; one turned away was, once. */
  ghost predicate ClosedOnce(s: State, x: nat) {
    && s.closed[x] <= 1
    && (x !in s.streams ==> s.closed[x] == 0)
    && (x in s.streams && (s.streams[x].Looking? || s.streams[x].Found? || s.streams[x].Refused?) ==> s.closed[x] == 0)
    && (x in s.streams && s.streams[x].Over? ==> s.closed[x] == 1)
    && (x in s.streams && (s.streams[x].Found? || s.streams[x].Handed?) ==> s.streams[x].token in s.transfers)
  }

  predicate Ended(phase: Phase) { phase.Closing? || phase.Released? }

  /** Sizes, and what the phases mean. */
  ghost predicate TransferOk(s: State, t: nat)
    requires t in s.transfers
  {
    var tr := s.transfers[t];
    && |tr.queue| <= MAX_DATA_CONNS && |tr.gathered| <= tr.wanted
    && (tr.phase.Released? ==> tr.gathered == [])
    && (t in s.pending <==> tr.phase.Gathering? || tr.phase.Using?)
    && (Ended(tr.phase) && t !in s.late ==>
          tr.queue == [] && forall x | x in s.streams :: s.streams[x] != Found(t))
    && (t in s.late ==> Ended(tr.phase) && (tr.queue != [] || OnItsWay(s, t)))
  }

  /** Some attach has looked `t` up and not yet sent. */
  ghost predicate OnItsWay(s: State, t: nat) {
    exists x :: x in s.streams && s.streams[x] == Found(t)
  }

  ghost predicate Inv(s: State) {
    && (forall t, x | t in s.transfers :: HeldOnce(s, t, x))
    && (forall x :: ClosedOnce(s, x))
    && (forall t | t in s.transfers :: TransferOk(s, t))
    && (forall t | t in s.pending || t in s.late :: t in s.transfers)
  }

  lemma StreamStepHeld(s: State, step: Step, t: nat, x: nat)
    requires Inv(s) && Enabled(s, step) && t in Apply(s, step).transfers
    requires step.Open? || step.LookUp? || step.Offer? || step.Turn?
    ensures HeldOnce(Apply(s, step), t, x)
  {
    hide Inv, Held;
    UseInv(s, t, x);
    if step.Offer? {
      OneIn(s.transfers[t], step.x, x);
    }
  }

  /** Steps of a transfer that close nothing keep its streams. */
  lemma MoveStepHeld(s: State, step: Step, t: nat, x: nat)
    requires Inv(s) && Enabled(s, step) && t in Apply(s, step).transfers
    requires step.Create? || step.Gather? || step.GatherEnd? || step.Delete? || step.DrainEnd? || step.Release?
    ensures HeldOnce(Apply(s, step), t, x)
  {
    hide Inv, TransferOk;
    if t in s.transfers {
      UseInv(s, t, x);
      FirstOut(s.transfers[t].queue, x);
    } else {
      NotHanded(s, t, x);
    }
  }

  /** The stream a drop closes: handed to this transfer, and not closed before. */
  lemma ClosingStream(s: State, step: Step) returns (y: nat)
    requires Inv(s) && Enabled(s, step) && (step.Drain? || step.CloseOne?)
    ensures step.t in s.transfers && PlaceOf(s, y) == Handed(step.t) && s.closed[y] == 0
    ensures var n := Apply(s, step);
            && n.streams == s.streams && n.closed == s.closed + multiset{y}
            && step.t in n.transfers && n.transfers == s.transfers[step.t := n.transfers[step.t]]
            && forall x :: Held(n.transfers[step.t], x) == Held(s.transfers[step.t], x) - if x == y then 1 else 0
  {
    hide Inv, TransferOk, ClosedOnce;
    var tr := s.transfers[step.t];
    y := if step.Drain? then tr.queue[0] else tr.gathered[0];
    UseInv(s, step.t, y);
    forall x
      ensures Held(Apply(s, step).transfers[step.t], x) == Held(tr, x) - if x == y then 1 else 0
    {
      FirstOut(tr.queue, x);
      FirstOut(tr.gathered, x);
    }
    assert Held(tr, y) >= 1;
  }

  lemma CloseStepHeld(s: State, step: Step, t: nat, x: nat)
    requires Inv(s) && Enabled(s, step) && t in Apply(s, step).transfers
    requires step.Drain? || step.CloseOne?
    ensures HeldOnce(Apply(s, step), t, x)
  {
    hide Inv, TransferOk, Apply, Enabled, Held;
    var y := ClosingStream(s, step);
    UseInv(s, t, x);
  }

  lemma UseInv(s: State, t: nat, x: nat)
    requires Inv(s) && t in s.transfers
    ensures HeldOnce(s, t, x) && ClosedOnce(s, x) && TransferOk(s, t)
  {
  }

  lemma ClosedInv(s: State, x: nat)
    requires Inv(s)
    ensures ClosedOnce(s, x)
  {
  }

  lemma TransferInv(s: State, t: nat)
    requires Inv(s) && t in s.transfers
    ensures TransferOk(s, t)
  {
  }

  lemma PendingInv(s: State)
    requires Inv(s)
    ensures forall t | t in s.pending || t in s.late :: t in s.transfers
  {
  }

  lemma NotHanded(s: State, t: nat, x: nat)
    requires Inv(s) && t !in s.transfers
    ensures PlaceOf(s, x) != Handed(t) && t !in s.pending
  {
    assert ClosedOnce(s, x);
  }

  lemma OneIn(tr: Transfer, y: nat, x: nat)
    ensures Held(tr.(queue := tr.queue + [y]), x) == Held(tr, x) + if x == y then 1 else 0
  {
  }

  lemma StepKeepsHeld(s: State, step: Step, t: nat, x: nat)
    requires Inv(s) && Enabled(s, step) && t in Apply(s, step).transfers
    ensures HeldOnce(Apply(s, step), t, x)
  {
    hide *;
    if step.Open? || step.LookUp? || step.Offer? || step.Turn? {
      StreamStepHeld(s, step, t, x);
    } else if step.Drain? || step.CloseOne? {
      CloseStepHeld(s, step, t, x);
    } else {
      MoveStepHeld(s, step, t, x);
    }
  }

  lemma CloseStepClosed(s: State, step: Step, x: nat)
    requires Inv(s) && Enabled(s, step) && (step.Drain? || step.CloseOne?)
    ensures ClosedOnce(Apply(s, step), x)
  {
    hide Inv, TransferOk, Apply, Enabled, Held;
    var y := ClosingStream(s, step);
    ClosedInv(s, x);
  }

  lemma QuietStepClosed(s: State, step: Step, x: nat)
    requires Inv(s) && Enabled(s, step) && !step.Drain? && !step.CloseOne?
    ensures ClosedOnce(Apply(s, step), x)
  {
    hide Inv, TransferOk, HeldOnce;
    ClosedInv(s, x);
    PendingInv(s);
  }

  lemma StepKeepsClosed(s: State, step: Step, x: nat)
    requires Inv(s) && Enabled(s, step)
    ensures ClosedOnce(Apply(s, step), x)
  {
    hide *;
    if step.Drain? || step.CloseOne? {
      CloseStepClosed(s, step, x);
    } else {
      QuietStepClosed(s, step, x);
    }
  }

  /** A transfer that the step does not act on, with nothing new on its way to it. */
  lemma OtherTransfer(s: State, n: State, t: nat)
    requires t in s.transfers && TransferOk(s, t) && t in n.transfers && n.transfers[t] == s.transfers[t]
    requires (t in n.pending <==> t in s.pending) && (t in n.late <==> t in s.late)
    requires forall x | x in n.streams && n.streams[x] == Found(t) ::
               t in s.pending || (x in s.streams && s.streams[x] == Found(t))
    requires forall x | x in s.streams && s.streams[x] == Found(t) :: x in n.streams && n.streams[x] == Found(t)
    ensures TransferOk(n, t)
  {
  }

  lemma OfferKeepsTransfer(s: State, x: nat, t: nat)
    requires Inv(s) && Enabled(s, Offer(x)) && t in s.transfers
    ensures TransferOk(Apply(s, Offer(x)), t)
  {
    hide Inv, HeldOnce, ClosedOnce;
    TransferInv(s, t);
    if OnItsWay(s, t) && s.streams[x] != Found(t) {
      var y :| y in s.streams && s.streams[y] == Found(t);
      assert y != x && y in Apply(s, Offer(x)).streams && Apply(s, Offer(x)).streams[y] == Found(t);
    }
  }

  /** The steps a transfer takes itself. */
  predicate OfTransfer(step: Step) { !step.Open? && !step.LookUp? && !step.Offer? && !step.Turn? }

  lemma TurnOfTransfer(s: State, step: Step)
    requires Inv(s) && Enabled(s, step) && OfTransfer(step)
    ensures step.t in Apply(s, step).transfers && TransferOk(Apply(s, step), step.t)
  {
    hide Inv, HeldOnce, ClosedOnce, OnItsWay;
    PendingInv(s);
    SameOnItsWay(s, Apply(s, step), step.t);
    if step.t in s.transfers {
      TransferInv(s, step.t);
    }
  }

  lemma SameOnItsWay(s: State, n: State, t: nat)
    requires n.streams == s.streams
    ensures OnItsWay(n, t) <==> OnItsWay(s, t)
    ensures OnItsWay(s, t) <==> !(forall x | x in s.streams :: s.streams[x] != Found(t))
  {
  }

  lemma StepKeepsTransfer(s: State, step: Step, t: nat)
    requires Inv(s) && Enabled(s, step) && t in Apply(s, step).transfers
    ensures TransferOk(Apply(s, step), t)
  {
    hide Inv, TransferOk, HeldOnce, ClosedOnce;
    if step.Offer? {
      OfferKeepsTransfer(s, step.x, t);
    } else if step.Open? || step.LookUp? || step.Turn? || step.t != t {
      TransferInv(s, t);
      OtherTransfer(s, Apply(s, step), t);
    } else {
      TurnOfTransfer(s, step);
    }
  }

  lemma StepKeepsInv(s: State, step: Step)
    requires Inv(s) && Enabled(s, step)
    ensures Inv(Apply(s, step))
  {
    hide HeldOnce, ClosedOnce, TransferOk;
    var n := Apply(s, step);
    forall t, x | t in n.transfers
      ensures HeldOnce(n, t, x)
    {
      StepKeepsHeld(s, step, t, x);
    }
    forall x
      ensures ClosedOnce(n, x)
    {
      StepKeepsClosed(s, step, x);
    }
    forall t | t in n.transfers
      ensures TransferOk(n, t)
    {
      StepKeepsTransfer(s, step, t);
    }
  }

  lemma FirstOut(q: seq<nat>, x: nat)
    ensures q != [] ==> multiset(q)[x] == multiset(q[1..])[x] + if q[0] == x then 1 else 0
  {
    if q != [] {
      assert q == [q[0]] + q[1..];
    }
  }

  lemma {:induction false} RunsKeepInv(steps: seq<Step>, s: State)
    requires Runs(steps, s)
    ensures Inv(s)
    decreases |steps|
  {
    hide Inv, Enabled, Apply;
    if steps == [] {
      StartInv();
    } else {
      var n := |steps| - 1;
      var p :| Runs(steps[..n], p) && Leads(p, steps[n], s);
      RunsKeepInv(steps[..n], p);
      StepKeepsInv(p, steps[n]);
    }
  }

  lemma StartInv()
    ensures Inv(START)
  {
  }

  // ---------- what holds in every run ----------

  /** Somebody owns the stream: its own handler, or one transfer through its channel or its list. */
  ghost predicate Owned(s: State, x: nat, t: nat)
    requires t in s.transfers
  {
    x in s.transfers[t].queue || x in s.transfers[t].gathered
  }

  predicate WithHandler(s: State, x: nat) {
    x in s.streams && (s.streams[x].Looking? || s.streams[x].Found? || s.streams[x].Refused?)
  }

  lemma HeldIffOwned(s: State, x: nat, t: nat)
    requires t in s.transfers
    ensures Owned(s, x, t) <==> Held(s.transfers[t], x) >= 1
  {
    assert x in s.transfers[t].queue <==> x in multiset(s.transfers[t].queue);
    assert x in s.transfers[t].gathered <==> x in multiset(s.transfers[t].gathered);
  }

  /**
   In every interleaving a stream is closed at most once, has one owner at most, none once
   it is closed, and one as long as it is not.
   */
  lemma SingleOwner(steps: seq<Step>, s: State, x: nat)
    requires Runs(steps, s) && x in s.streams
    ensures s.closed[x] <= 1
    ensures forall t, u | t in s.transfers && u in s.transfers && Owned(s, x, t) && Owned(s, x, u) :: t == u
    ensures forall t | t in s.transfers && Owned(s, x, t) :: !WithHandler(s, x) && Held(s.transfers[t], x) == 1
    ensures s.closed[x] == 1 <==> !WithHandler(s, x) && forall t | t in s.transfers :: !Owned(s, x, t)
  {
    hide Inv, Owned, Held;
    RunsKeepInv(steps, s);
    forall t | t in s.transfers
      ensures HeldOnce(s, t, x) && (Owned(s, x, t) <==> Held(s.transfers[t], x) >= 1)
    {
      UseInv(s, t, x);
      HeldIffOwned(s, x, t);
    }
    ClosedInv(s, x);
  }

  lemma WantedStays(s: State, step: Step, t: nat)
    requires Enabled(s, step) && t in s.transfers
    ensures t in Apply(s, step).transfers && Apply(s, step).transfers[t].wanted == s.transfers[t].wanted
  {
    hide OnItsWay;
  }

  lemma {:induction false} WantedIsAsked(steps: seq<Step>, s: State, t: nat, dataConns: nat)
    requires Runs(steps, s) && Create(t, dataConns) in steps
    ensures t in s.transfers && s.transfers[t].wanted == AtMostMax(dataConns)
    decreases |steps|
  {
    hide Apply, Enabled;
    var n := |steps| - 1;
    var p :| Runs(steps[..n], p) && Leads(p, steps[n], s);
    assert steps == steps[..n] + [steps[n]];
    if Create(t, dataConns) in steps[..n] {
      WantedIsAsked(steps[..n], p, t, dataConns);
      WantedStays(p, steps[n], t);
    } else {
      CreateAsks(p, t, dataConns);
    }
  }

  lemma CreateAsks(s: State, t: nat, dataConns: nat)
    requires Enabled(s, Create(t, dataConns))
    ensures var n := Apply(s, Create(t, dataConns));
            t in n.transfers && n.transfers[t].wanted == AtMostMax(dataConns)
  {
  }

  /** In every phase of every run a transfer has gathered at most what was asked for, and never more than 16. */
  lemma GatheredBound(steps: seq<Step>, s: State, t: nat, dataConns: nat)
    requires Runs(steps, s) && Create(t, dataConns) in steps
    ensures t in s.transfers
    ensures |s.transfers[t].gathered| <= dataConns && |s.transfers[t].gathered| <= MAX_DATA_CONNS
    ensures |s.transfers[t].queue| <= MAX_DATA_CONNS
  {
    hide Inv, HeldOnce, ClosedOnce, OnItsWay;
    RunsKeepInv(steps, s);
    WantedIsAsked(steps, s, t, dataConns);
    TransferInv(s, t);
  }

  /** And it can gather that many: the next stream is taken exactly as long as there are fewer. */
  lemma GathersUpToBound(steps: seq<Step>, s: State, t: nat, dataConns: nat)
    requires Runs(steps, s) && Create(t, dataConns) in steps
    requires In(s, t, {Gathering}) && s.transfers[t].queue != []
    ensures Enabled(s, Gather(t)) <==> |s.transfers[t].gathered| < dataConns && |s.transfers[t].gathered| < 16
  {
    WantedIsAsked(steps, s, t, dataConns);
  }

  /** Streams that wait in the channel are gathered in order, all of them when they are within the bound. */
  lemma {:induction false} AllGathered(steps: seq<Step>, s: State, t: nat, dataConns: nat)
    returns (more: seq<Step>, n: State)
    requires Runs(steps, s) && Create(t, dataConns) in steps && In(s, t, {Gathering})
    requires |s.transfers[t].gathered| + |s.transfers[t].queue| <= dataConns
    requires |s.transfers[t].gathered| + |s.transfers[t].queue| <= 16
    ensures Runs(more, n) && t in n.transfers
    ensures n.transfers[t].gathered == s.transfers[t].gathered + s.transfers[t].queue && n.transfers[t].queue == []
    decreases |s.transfers[t].queue|
  {
    hide Runs;
    var tr := s.transfers[t];
    if tr.queue == [] {
      more, n := steps, s;
      assert tr.gathered + [] == tr.gathered;
    } else {
      GathersUpToBound(steps, s, t, dataConns);
      var u := Apply(s, Gather(t));
      Extend(steps, s, Gather(t), u);
      more, n := AllGathered(steps + [Gather(t)], u, t, dataConns);
      assert tr.gathered + [tr.queue[0]] + tr.queue[1..] == tr.gathered + tr.queue;
    }
  }

  /**
   After its release a transfer has closed every stream it was handed exactly once, except
   those still in its dead channel.
   */
  lemma ReleasedClosesAll(steps: seq<Step>, s: State, t: nat)
    requires Runs(steps, s) && In(s, t, {Released})
    ensures forall x | x in s.streams && s.streams[x] == Handed(t) :: s.closed[x] == 1 <==> x !in s.transfers[t].queue
    ensures forall x | x in s.transfers[t].queue :: x in s.streams && s.streams[x] == Handed(t) && s.closed[x] == 0
  {
    hide Inv, HeldOnce, ClosedOnce, Held;
    RunsKeepInv(steps, s);
    TransferInv(s, t);
    forall x | x in s.streams && s.streams[x] == Handed(t)
      ensures s.closed[x] == 1 <==> x !in s.transfers[t].queue
    {
      HandedNowhereElse(s, t, x);
    }
    forall x | x in s.transfers[t].queue
      ensures x in s.streams && s.streams[x] == Handed(t) && s.closed[x] == 0
    {
      QueuedIsOpen(s, t, x);
    }
  }

  /**
   Exactly when every accepted stream is closed once: with the transfer released and no
   attach on its way to it any more, if and only if no attach sat between its lookup and
   its send at the moment the drop found the channel empty for good.
   */
  lemma AllClosedIffNoneLate(steps: seq<Step>, s: State, t: nat)
    requires Runs(steps, s) && In(s, t, {Released}) && !OnItsWay(s, t)
    ensures (forall x | x in s.streams && s.streams[x] == Handed(t) :: s.closed[x] == 1) <==> t !in s.late
  {
    hide Inv, HeldOnce, ClosedOnce, Held;
    RunsKeepInv(steps, s);
    TransferInv(s, t);
    ReleasedClosesAll(steps, s, t);
    var q := s.transfers[t].queue;
    assert q == [] || q[0] in q;
  }

  lemma HandedNowhereElse(s: State, t: nat, x: nat)
    requires Inv(s) && t in s.transfers && x in s.streams && s.streams[x] == Handed(t)
    requires s.transfers[t].gathered == []
    ensures s.closed[x] == 1 <==> x !in s.transfers[t].queue
  {
    hide Inv;
    UseInv(s, t, x);
    assert x in s.transfers[t].queue <==> x in multiset(s.transfers[t].queue);
  }

  /** A stream left in a released transfer's channel stays there, open, for ever. */
  lemma LeakedForGood(s: State, step: Step, t: nat, x: nat)
    requires Inv(s) && Enabled(s, step)
    requires In(s, t, {Released}) && x in s.transfers[t].queue
    ensures var n := Apply(s, step);
            In(n, t, {Released}) && x in n.transfers[t].queue && n.closed[x] == 0
  {
    hide Inv, HeldOnce, ClosedOnce, TransferOk;
    QueuedIsOpen(Apply(s, step), t, x) by {
      StepKeepsInv(s, step);
    }
  }

  lemma QueuedIsOpen(s: State, t: nat, x: nat)
    requires Inv(s) && t in s.transfers && x in s.transfers[t].queue
    ensures x in s.streams && s.streams[x] == Handed(t) && s.closed[x] == 0
  {
    UseInv(s, t, x);
    assert x in multiset(s.transfers[t].queue);
  }

  /** A send that comes after the release is accepted, and the stream is never closed again. */
  lemma LateOfferLeaks(s: State, t: nat, x: nat)
    requires Inv(s) && In(s, t, {Released}) && x in s.streams && s.streams[x] == Found(t)
    requires |s.transfers[t].queue| < MAX_DATA_CONNS
    ensures Enabled(s, Offer(x))
    ensures var n := Apply(s, Offer(x));
            In(n, t, {Released}) && n.streams[x] == Handed(t) && x in n.transfers[t].queue && n.closed[x] == 0
  {
    hide Inv, HeldOnce, TransferOk;
    ClosedInv(s, x);
  }

  lemma Extend(steps: seq<Step>, s: State, step: Step, n: State)
    requires Runs(steps, s) && Leads(s, step, n)
    ensures Runs(steps + [step], n)
  {
    hide Leads;
    assert (steps + [step])[..|steps|] == steps;
  }

  /** Such a run exists: lookup, then the whole drop and release, then the send. */
  lemma LateAttachHappens()
    ensures exists steps, s :: Runs(steps, s) && In(s, 0, {Released}) && PlaceOf(s, 7) == Handed(0) && s.closed[7] == 0
  {
    hide Runs, Leads;
    var steps, s := AttachFound();
    var dropping := State({}, map[0 := Transfer(1, Dropping, [], [])], s.streams, multiset{}, {});
    var closing := State({}, map[0 := Transfer(1, Closing, [], [])], s.streams, multiset{}, {0});
    var released := State({}, map[0 := Transfer(1, Released, [], [])], s.streams, multiset{}, {0});
    var leaked := State({}, map[0 := Transfer(1, Released, [7], [])], map[7 := Handed(0)], multiset{}, {0});
    DropLeads(s, dropping, closing);
    ReleaseLeads(closing, released, leaked);
    Extend(steps, s, Delete(0), dropping);
    Extend(steps + [Delete(0)], dropping, DrainEnd(0), closing);
    Extend(steps + [Delete(0)] + [DrainEnd(0)], closing, Release(0), released);
    Extend(steps + [Delete(0)] + [DrainEnd(0)] + [Release(0)], released, Offer(7), leaked);
  }

  lemma DropLeads(s: State, dropping: State, closing: State)
    requires s == State({0}, map[0 := Transfer(1, Gathering, [], [])], map[7 := Found(0)], multiset{}, {})
    requires dropping == State({}, map[0 := Transfer(1, Dropping, [], [])], s.streams, multiset{}, {})
    requires closing == State({}, map[0 := Transfer(1, Closing, [], [])], s.streams, multiset{}, {0})
    ensures Leads(s, Delete(0), dropping) && Leads(dropping, DrainEnd(0), closing)
  {
    assert 7 in dropping.streams && dropping.streams[7] == Found(0);
  }

  lemma ReleaseLeads(closing: State, released: State, leaked: State)
    requires closing == State({}, map[0 := Transfer(1, Closing, [], [])], map[7 := Found(0)], multiset{}, {0})
    requires released == State({}, map[0 := Transfer(1, Released, [], [])], closing.streams, multiset{}, {0})
    requires leaked == State({}, map[0 := Transfer(1, Released, [7], [])], map[7 := Handed(0)], multiset{}, {0})
    ensures Leads(closing, Release(0), released) && Leads(released, Offer(7), leaked)
  {
    assert [] + [7] == [7];
  }

  lemma NothingHappened()
    ensures Runs([], START)
  {
  }

  lemma AttachFound() returns (steps: seq<Step>, s: State)
    ensures Runs(steps, s)
    ensures s == State({0}, map[0 := Transfer(1, Gathering, [], [])], map[7 := Found(0)], multiset{}, {})
  {
    hide Runs;
    var created := State({0}, map[0 := Transfer(1, Gathering, [], [])], map[], multiset{}, {});
    var open := created.(streams := map[7 := Looking(0)]);
    s := created.(streams := map[7 := Found(0)]);
    NothingHappened();
    assert Leads(START, Create(0, 1), created) && Leads(created, Open(7, 0), open) && Leads(open, LookUp(7), s);
    Extend([], START, Create(0, 1), created);
    Extend([] + [Create(0, 1)], created, Open(7, 0), open);
    Extend([] + [Create(0, 1)] + [Open(7, 0)], open, LookUp(7), s);
    steps := [] + [Create(0, 1)] + [Open(7, 0)] + [LookUp(7)];
  }
}

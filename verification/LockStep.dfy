/**
 One Receive loop and its Send loops over unbuffered channels, frame by frame.

 The receiver uses `n` channels and `m` senders run. A sender past the channels serves a
 stream the receiver does not use, as when a stream attaches after a push has gathered; a
 channel past the senders is served by nobody, as when one attaches after a pull has. A
 frame moves only when one side is writing it and the other is reading: a sender that has
 started its pack is stuck until the receiver has written all want frames of the round and
 turns to reading.
 */
module LockStep {

  datatype Frame = WantFrame(keys: nat) | Data | DataEnd

  /** `next` is the channel about to be written to; `open` the packs still being read. */
  datatype Receiver =
    | Between
    | Dealing(shards: seq<nat>, next: nat)
    | Reading(open: set<nat>)
    | Closing(next: nat)
    | Stopped

  /** Waiting for a frame, writing a pack with `data` data frames to go, or returned. */
  datatype Sender = Waiting | Packing(data: nat) | Ended

  datatype State = State(rx: Receiver, tx: seq<Sender>, log: seq<seq<Frame>>)

  datatype Step =
    | StartRound(shards: seq<nat>) // the next round's shard sizes
    | SkipChannel                  // an empty shard gets no frame
    | SendWants(data: nat)         // the peer will answer with this many data frames
    | StartReading
    | TakeFrame(i: nat)
    | EndRound
    | Finish                       // nothing is wanted any more
    | SendEmpty
    | Return

  function Start(m: nat): State {
    State(Between, seq(m, _ => Waiting), seq(m, _ => []))
  }

  predicate Enabled(n: nat, s: State, step: Step)
    requires |s.tx| == |s.log|
  {
    match step
    case StartRound(shards) => s.rx.Between? && |shards| == n && exists i :: 0 <= i < n && shards[i] > 0
    case SkipChannel => s.rx.Dealing? && s.rx.next < n <= |s.rx.shards| && s.rx.shards[s.rx.next] == 0
    case SendWants(_) =>
      && s.rx.Dealing? && s.rx.next < n <= |s.rx.shards| && s.rx.shards[s.rx.next] > 0
      && s.rx.next < |s.tx| && s.tx[s.rx.next].Waiting?
    case StartReading => s.rx.Dealing? && s.rx.next == n <= |s.rx.shards|
    case TakeFrame(i) => s.rx.Reading? && i in s.rx.open && i < n && i < |s.tx| && s.tx[i].Packing?
    case EndRound => s.rx.Reading? && s.rx.open == {}
    case Finish => s.rx.Between?
    case SendEmpty => s.rx.Closing? && s.rx.next < n && s.rx.next < |s.tx| && s.tx[s.rx.next].Waiting?
    case Return => s.rx.Closing? && s.rx.next == n
  }

  function Move(s: State, i: nat, tx: Sender, f: Frame, rx: Receiver): State
    requires i < |s.tx| == |s.log|
  {
    State(rx, s.tx[i := tx], s.log[i := s.log[i] + [f]])
  }

  function Apply(n: nat, s: State, step: Step): State
    requires |s.tx| == |s.log| && Enabled(n, s, step)
  {
    match step
    case StartRound(shards) => s.(rx := Dealing(shards, 0))
    case SkipChannel => s.(rx := s.rx.(next := s.rx.next + 1))
    case SendWants(data) =>
      Move(s, s.rx.next, Packing(data), WantFrame(s.rx.shards[s.rx.next]), s.rx.(next := s.rx.next + 1))
    case StartReading => s.(rx := Reading(set i: nat | i < n && s.rx.shards[i] > 0))
    case TakeFrame(i) =>
      if s.tx[i].data > 0 then Move(s, i, Packing(s.tx[i].data - 1), Data, s.rx)
      else Move(s, i, Waiting, DataEnd, Reading(s.rx.open - {i}))
    case EndRound => s.(rx := Between)
    case Finish => s.(rx := Closing(0))
    case SendEmpty => Move(s, s.rx.next, Ended, WantFrame(0), Closing(s.rx.next + 1))
    case Return => s.(rx := Stopped)
  }

  // ---------- what a channel carries ----------

  /** Where a transcript stands: between rounds, inside a pack, ended, or off the protocol. */
  datatype Mode = Ready | InPack | Over | Broken

  function After(mode: Mode, f: Frame): Mode {
    match (mode, f)
    case (Ready, WantFrame(keys)) => if keys > 0 then InPack else Over
    case (InPack, Data) => InPack
    case (InPack, DataEnd) => Ready
    case _ => Broken
  }

  function ModeOf(t: seq<Frame>): Mode {
    if t == [] then Ready else After(ModeOf(t[..|t| - 1]), t[|t| - 1])
  }

  lemma ModeOfAppend(t: seq<Frame>, f: Frame)
    ensures ModeOf(t + [f]) == After(ModeOf(t), f)
  {
    assert (t + [f])[..|t|] == t;
  }

  /** One round on one channel: a non-empty want frame, then a pack. */
  datatype Exchange = Exchange(keys: nat, data: nat)

  function DataFrames(k: nat): seq<Frame> { seq(k, _ => Data) }

  function Spell(rounds: seq<Exchange>): seq<Frame> {
    if rounds == [] then []
    else
      var last := rounds[|rounds| - 1];
      Spell(rounds[..|rounds| - 1]) + [WantFrame(last.keys)] + DataFrames(last.data) + [DataEnd]
  }

  ghost predicate NonEmpty(rounds: seq<Exchange>) {
    forall i | 0 <= i < |rounds| :: rounds[i].keys > 0
  }

  /** A transcript between rounds is whole exchanges; inside a pack, one is under way. */
  lemma {:induction false} TranscriptShape(t: seq<Frame>) returns (rounds: seq<Exchange>, keys: nat, data: nat)
    requires ModeOf(t).Ready? || ModeOf(t).InPack?
    ensures NonEmpty(rounds)
    ensures ModeOf(t).Ready? ==> t == Spell(rounds)
    ensures ModeOf(t).InPack? ==> keys > 0 && t == Spell(rounds) + [WantFrame(keys)] + DataFrames(data)
  {
    if t == [] {
      rounds, keys, data := [], 0, 0;
    } else {
      var n := |t| - 1;
      assert t == t[..n] + [t[n]];
      rounds, keys, data := TranscriptShape(t[..n]);
      match t[n]
      case WantFrame(k) =>
        keys, data := k, 0;
      case Data =>
        assert DataFrames(data + 1) == DataFrames(data) + [Data];
        data := data + 1;
      case DataEnd =>
        var more := rounds + [Exchange(keys, data)];
        assert more[..|rounds|] == rounds;
        rounds := more;
    }
  }

  /** An ended channel carried whole exchanges and then the one empty want frame. */
  lemma EndedTranscript(t: seq<Frame>) returns (rounds: seq<Exchange>)
    requires ModeOf(t).Over?
    ensures NonEmpty(rounds) && t == Spell(rounds) + [WantFrame(0)]
  {
    var n := |t| - 1;
    assert t == t[..n] + [t[n]];
    var keys, data;
    rounds, keys, data := TranscriptShape(t[..n]);
  }

  // ---------- lock-step ----------

  /** What sender `i` must be doing, given where the receiver is. */
  predicate InStep(n: nat, rx: Receiver, i: nat, tx: Sender) {
    match rx
    case Between => tx.Waiting?
    case Dealing(shards, next) =>
      |shards| == n && next <= n && if i < next && shards[i] > 0 then tx.Packing? else tx.Waiting?
    case Reading(open) => if i in open then i < n && tx.Packing? else tx.Waiting?
    case Closing(next) => next <= n && if i < next then tx.Ended? else tx.Waiting?
    case Stopped => if i < n then tx.Ended? else tx.Waiting?
  }

  predicate Agrees(tx: Sender, t: seq<Frame>) {
    match tx
    case Waiting => ModeOf(t).Ready?
    case Packing(_) => ModeOf(t).InPack?
    case Ended => ModeOf(t).Over?
  }

  ghost predicate Inv(n: nat, m: nat, s: State) {
    && |s.tx| == |s.log| == m
    && (s.rx.Dealing? ==> |s.rx.shards| == n && s.rx.next <= n)
    && (s.rx.Dealing? ==> forall i | m <= i < s.rx.next :: s.rx.shards[i] == 0)
    && (s.rx.Reading? ==> forall i | i in s.rx.open :: i < n && i < m)
    && (s.rx.Closing? ==> s.rx.next <= n && s.rx.next <= m)
    && (s.rx.Stopped? ==> n <= m)
    && forall i: nat | i < m :: InStep(n, s.rx, i, s.tx[i]) && Agrees(s.tx[i], s.log[i])
  }

  lemma StepKeepsInv(n: nat, m: nat, s: State, step: Step)
    requires Inv(n, m, s) && Enabled(n, s, step)
    ensures Inv(n, m, Apply(n, s, step))
  {
    var t := Apply(n, s, step);
    forall i: nat | i < m
      ensures InStep(n, t.rx, i, t.tx[i]) && Agrees(t.tx[i], t.log[i])
    {
      assert InStep(n, s.rx, i, s.tx[i]) && Agrees(s.tx[i], s.log[i]);
      if |t.log[i]| != |s.log[i]| {
        ModeOfAppend(s.log[i], t.log[i][|s.log[i]|]);
      }
    }
  }

  /** The states a system of `n` channels and `m` senders can get to. */
  ghost predicate Runs(n: nat, m: nat, steps: seq<Step>, s: State)
    decreases |steps|
  {
    if steps == [] then s == Start(m)
    else
      exists p ::
        && Runs(n, m, steps[..|steps| - 1], p)
        && |p.tx| == |p.log|
        && Enabled(n, p, steps[|steps| - 1])
        && s == Apply(n, p, steps[|steps| - 1])
  }

  lemma {:induction false} RunsKeepInv(n: nat, m: nat, steps: seq<Step>, s: State)
    requires Runs(n, m, steps, s)
    ensures Inv(n, m, s)
    decreases |steps|
  {
    if steps != [] {
      var k := |steps| - 1;
      var p :| Runs(n, m, steps[..k], p) && |p.tx| == |p.log| && Enabled(n, p, steps[k])
            && s == Apply(n, p, steps[k]);
      RunsKeepInv(n, m, steps[..k], p);
      StepKeepsInv(n, m, p, steps[k]);
    }
  }

  /** No step can be taken, and Receive has not returned. */
  ghost predicate Stuck(n: nat, s: State)
    requires |s.tx| == |s.log|
  {
    !s.rx.Stopped? && forall step :: !Enabled(n, s, step)
  }

  /** With a sender for every channel some step can be taken until Receive has returned. */
  lemma NotStuck(n: nat, m: nat, s: State)
    requires n <= m && Inv(n, m, s)
    ensures !Stuck(n, s)
  {
    match s.rx
    case Between => assert Enabled(n, s, Finish);
    case Dealing(shards, next) =>
      if next == n {
        assert Enabled(n, s, StartReading);
      } else {
        assert InStep(n, s.rx, next, s.tx[next]);
        assert Enabled(n, s, SkipChannel) || Enabled(n, s, SendWants(0));
      }
    case Reading(open) =>
      if open == {} {
        assert Enabled(n, s, EndRound);
      } else {
        var i :| i in open;
        assert InStep(n, s.rx, i, s.tx[i]);
        assert Enabled(n, s, TakeFrame(i));
      }
    case Closing(next) =>
      if next == n {
        assert Enabled(n, s, Return);
      } else {
        assert InStep(n, s.rx, next, s.tx[next]);
        assert Enabled(n, s, SendEmpty);
      }
    case Stopped =>
  }

  function Ones(n: nat): seq<nat> { seq(n, _ => 1) }

  /** After the round of one-key shards has started and the first `k` senders have their want frames. */
  function Served(n: nat, m: nat, k: nat): State
    requires k <= m
  {
    State(Dealing(Ones(n), k),
          seq(m, i => if i < k then Packing(0) else Waiting),
          seq(m, i => if i < k then [WantFrame(1)] else []))
  }

  lemma Extend(n: nat, m: nat, steps: seq<Step>, s: State, step: Step)
    requires Runs(n, m, steps, s) && |s.tx| == |s.log| && Enabled(n, s, step)
    ensures Runs(n, m, steps + [step], Apply(n, s, step))
  {
    hide Enabled, Apply;
    assert (steps + [step])[..|steps|] == steps;
  }

  lemma ServeNext(n: nat, m: nat, k: nat)
    requires k < m < n
    ensures Enabled(n, Served(n, m, k), SendWants(0))
    ensures Apply(n, Served(n, m, k), SendWants(0)) == Served(n, m, k + 1)
  {
    var s, t := Served(n, m, k), Served(n, m, k + 1);
    assert [] + [WantFrame(1)] == [WantFrame(1)];
    assert s.tx[k := Packing(0)] == t.tx;
    assert s.log[k := s.log[k] + [WantFrame(1)]] == t.log;
  }

  /** With fewer senders than channels such a round can be got to. */
  lemma {:induction false} ServedReached(n: nat, m: nat, k: nat) returns (steps: seq<Step>)
    requires k <= m < n
    ensures Runs(n, m, steps, Served(n, m, k))
  {
    hide Runs, Enabled, Apply;
    if k == 0 {
      steps := RoundStarted(n, m);
    } else {
      steps := ServedReached(n, m, k - 1);
      ServeNext(n, m, k - 1);
      Extend(n, m, steps, Served(n, m, k - 1), SendWants(0));
      steps := steps + [SendWants(0)];
    }
  }

  lemma RoundStarted(n: nat, m: nat) returns (steps: seq<Step>)
    requires m < n
    ensures Runs(n, m, steps, Served(n, m, 0))
  {
    var start := StartRound(Ones(n));
    assert Ones(n)[0] > 0;
    assert Runs(n, m, [], Start(m));
    assert Enabled(n, Start(m), start);
    assert Apply(n, Start(m), start) == Served(n, m, 0);
    Extend(n, m, [], Start(m), start);
    steps := [] + [start];
  }

  lemma ServedIsStuck(n: nat, m: nat)
    requires m < n
    ensures Stuck(n, Served(n, m, m))
  {
  }

  /**
   When the exchange cannot get stuck: over unbuffered channels, no reachable state is,
   if and only if every channel the receiver uses has a sender.
   */
  lemma NoDeadlockIff(n: nat, m: nat)
    ensures (forall steps, s | Runs(n, m, steps, s) :: |s.tx| == |s.log| && !Stuck(n, s)) <==> n <= m
  {
    hide Runs, Enabled, Apply, Inv, Stuck;
    if n <= m {
      forall steps, s | Runs(n, m, steps, s)
        ensures |s.tx| == |s.log| && !Stuck(n, s)
      {
        RunsKeepInv(n, m, steps, s);
        InvSizes(n, m, s);
        NotStuck(n, m, s);
      }
    } else {
      var steps := ServedReached(n, m, m);
      ServedIsStuck(n, m);
    }
  }

  lemma InvSizes(n: nat, m: nat, s: State)
    requires Inv(n, m, s)
    ensures |s.tx| == |s.log| == m
  {
  }

  /**
   No sender ends early; between rounds every channel is frame-aligned; and when Receive
   has returned, every channel it used had a sender, and carried (want frame, pack)* and
   one empty want frame. All senders have returned then exactly when both sides used the
   same channels.
   */
  lemma LockStepHolds(n: nat, m: nat, steps: seq<Step>, s: State)
    requires Runs(n, m, steps, s)
    ensures |s.tx| == |s.log| == m
    ensures forall i | 0 <= i < m && s.tx[i].Ended? :: s.rx.Closing? || s.rx.Stopped?
    ensures s.rx.Between? ==> forall i | 0 <= i < m :: s.tx[i].Waiting? && ModeOf(s.log[i]).Ready?
    ensures s.rx.Stopped? ==> n <= m && forall i | 0 <= i < n :: s.tx[i].Ended? && ModeOf(s.log[i]).Over?
    ensures s.rx.Stopped? ==> ((forall i | 0 <= i < m :: s.tx[i].Ended?) <==> n == m)
  {
    RunsKeepInv(n, m, steps, s);
    forall i: nat | i < m
      ensures InStep(n, s.rx, i, s.tx[i]) && Agrees(s.tx[i], s.log[i])
    {
    }
    if s.rx.Stopped? && n < m {
      assert InStep(n, s.rx, n, s.tx[n]);
    }
  }

  // ---------- a round ends ----------

  function DataLeft(tx: seq<Sender>): nat {
    if tx == [] then 0
    else DataLeft(tx[..|tx| - 1]) + if tx[|tx| - 1].Packing? then tx[|tx| - 1].data else 0
  }

  lemma {:induction false} DataLeftUpdate(tx: seq<Sender>, i: nat)
    requires i < |tx| && tx[i].Packing? && tx[i].data > 0
    ensures DataLeft(tx[i := Packing(tx[i].data - 1)]) + 1 == DataLeft(tx)
  {
    var n := |tx| - 1;
    var less := tx[i := Packing(tx[i].data - 1)];
    if i == n {
      assert less[..n] == tx[..n];
    } else {
      assert less[..n] == tx[..n][i := Packing(tx[i].data - 1)];
      DataLeftUpdate(tx[..n], i);
    }
  }

  /** How far the receiver is from its next decision, in order of weight. */
  function Distance(n: nat, s: State): (nat, nat, nat) {
    match s.rx
    case Between => (0, 0, 0)
    case Dealing(_, next) => (2, if next <= n then n - next else 0, 0)
    case Reading(open) => (1, 1 + |open|, DataLeft(s.tx))
    case Closing(next) => (1, if next <= n then 1 + n - next else 0, 0)
    case Stopped => (0, 0, 0)
  }

  predicate Nearer(a: (nat, nat, nat), b: (nat, nat, nat)) {
    a.0 < b.0 || (a.0 == b.0 && (a.1 < b.1 || (a.1 == b.1 && a.2 < b.2)))
  }

  /** Once a round or the end is decided on, every step brings it nearer: no round goes on forever. */
  lemma EveryRoundEnds(n: nat, m: nat, s: State, step: Step)
    requires Inv(n, m, s) && Enabled(n, s, step) && !step.StartRound? && !step.Finish?
    ensures Nearer(Distance(n, Apply(n, s, step)), Distance(n, s))
  {
    if step.TakeFrame? && s.tx[step.i].data > 0 {
      DataLeftUpdate(s.tx, step.i);
    }
  }
}

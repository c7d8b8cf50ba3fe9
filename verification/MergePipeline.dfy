/**
 The goroutines behind one round of Receive: a decoder per active channel offers objects
 on one bounded channel, a single consumer ranges over it, a closer closes it when the
 decoders are gone, and `done` releases decoders when the consumer stops early.
 */
module MergePipeline {

  const CAPACITY: nat := 64

  /** Object number `index` of the pack decoded by decoder `who`. */
  datatype Item = Item(who: nat, index: nat)

  /** About to decode object `next`, blocked in the select that offers it, or returned. */
  datatype Decoder = Decoding(next: nat) | Offering(next: nat) | Exited

  datatype Consumer = Ranging | SawEnd | GaveUp

  /** `sent` counts per decoder what went onto the merged channel. */
  datatype State = State(decoders: seq<Decoder>, sent: seq<nat>, merged: seq<Item>, closed: bool, done: bool,
                         consumed: seq<Item>, consumer: Consumer, joined: bool, panicked: bool)

  datatype Step =
    | Decode(i: nat)     // the next object, or the pack's end or an error
    | Offer(i: nat)      // the send case of the select
    | Quit(i: nat)       // the done case of the select
    | CloseMerged
    | Consume
    | SeeEnd             // the merged channel is closed and empty
    | GiveUp             // the write stopped pulling
    | Join               // the decoders are gone: the round goes on, even before the closer has run

  /** `sizes[i]` objects come out of pack `i` before it ends, well or badly. */
  function Start(sizes: seq<nat>): State {
    State(seq(|sizes|, _ => Decoding(0)), seq(|sizes|, _ => 0), [], false, false, [], Ranging, false, false)
  }

  predicate AllExited(s: State) {
    forall i | 0 <= i < |s.decoders| :: s.decoders[i].Exited?
  }

  predicate Enabled(sizes: seq<nat>, s: State, step: Step)
    requires |s.decoders| == |s.sent| == |sizes|
  {
    match step
    case Decode(i) => i < |sizes| && s.decoders[i].Decoding?
    case Offer(i) => i < |sizes| && s.decoders[i].Offering? && (|s.merged| < CAPACITY || s.closed)
    case Quit(i) => i < |sizes| && s.decoders[i].Offering? && s.done
    case CloseMerged => AllExited(s) && !s.closed
    case Consume => s.consumer.Ranging? && s.merged != []
    case SeeEnd => s.consumer.Ranging? && s.merged == [] && s.closed
    case GiveUp => s.consumer.Ranging?
    case Join => !s.consumer.Ranging? && s.done && AllExited(s) && !s.joined
  }

  /** Sending on the closed channel panics. */
  function Apply(sizes: seq<nat>, s: State, step: Step): State
    requires |s.decoders| == |s.sent| == |sizes| && Enabled(sizes, s, step)
  {
    match step
    case Decode(i) =>
      var next := s.decoders[i].next;
      s.(decoders := s.decoders[i := if next < sizes[i] then Offering(next) else Exited])
    case Offer(i) =>
      if s.closed then s.(panicked := true)
      else
        var next := s.decoders[i].next;
        s.(decoders := s.decoders[i := Decoding(next + 1)],
           sent := s.sent[i := next + 1],
           merged := s.merged + [Item(i, next)])
    case Quit(i) => s.(decoders := s.decoders[i := Exited])
    case CloseMerged => s.(closed := true)
    case Consume => s.(consumed := s.consumed + [s.merged[0]], merged := s.merged[1..])
    case SeeEnd => s.(consumer := SawEnd, done := true)
    case GiveUp => s.(consumer := GaveUp, done := true)
    case Join => s.(joined := true)
  }

  // ---------- conservation ----------

  /** The indices of decoder `who`'s items, in order of appearance. */
  function Of(items: seq<Item>, who: nat): seq<nat> {
    if items == [] then []
    else
      var last := items[|items| - 1];
      Of(items[..|items| - 1], who) + if last.who == who then [last.index] else []
  }

  function UpTo(n: nat): seq<nat> { seq(n, i => i) }

  lemma OfAppend(items: seq<Item>, item: Item, who: nat)
    ensures Of(items + [item], who) == Of(items, who) + if item.who == who then [item.index] else []
  {
    assert (items + [item])[..|items|] == items;
  }

  /** What decoder `i` has put on the merged channel, consumed or not, is its pack's beginning. */
  ghost predicate InOrder(s: State, i: nat)
    requires i < |s.sent|
  {
    Of(s.consumed + s.merged, i) == UpTo(s.sent[i])
  }

  ghost predicate DecoderInv(sizes: seq<nat>, s: State, i: nat)
    requires i < |sizes| == |s.decoders| == |s.sent|
  {
    && s.sent[i] <= sizes[i]
    && match s.decoders[i]
       case Decoding(next) => next == s.sent[i]
       case Offering(next) => next == s.sent[i] < sizes[i]
       case Exited => !s.done ==> s.sent[i] == sizes[i]
  }

  ghost predicate Inv(sizes: seq<nat>, s: State) {
    && |s.decoders| == |s.sent| == |sizes|
    && !s.panicked && |s.merged| <= CAPACITY
    && (s.closed ==> AllExited(s))
    && (s.done <==> !s.consumer.Ranging?)
    && (s.joined ==> AllExited(s) && s.done)
    && (s.consumer.SawEnd? ==> s.closed && s.merged == [] && forall i | 0 <= i < |sizes| :: s.sent[i] == sizes[i])
    && forall i: nat | i < |sizes| :: InOrder(s, i) && DecoderInv(sizes, s, i)
  }

  lemma StepKeepsOrder(sizes: seq<nat>, s: State, step: Step, i: nat)
    requires Inv(sizes, s) && Enabled(sizes, s, step) && i < |sizes|
    ensures InOrder(Apply(sizes, s, step), i)
  {
    hide Of, UpTo;
    var t := Apply(sizes, s, step);
    assert InOrder(s, i);
    if step.Offer? {
      var item := Item(step.i, s.decoders[step.i].next);
      assert DecoderInv(sizes, s, step.i);
      assert t.consumed + t.merged == (s.consumed + s.merged) + [item];
      OfAppend(s.consumed + s.merged, item, i);
      OneMore(item.index);
    } else {
      assert t.consumed + t.merged == s.consumed + s.merged;
      assert t.sent == s.sent;
    }
  }

  lemma OneMore(n: nat)
    ensures UpTo(n + 1) == UpTo(n) + [n]
  {
  }

  lemma StepKeepsDecoder(sizes: seq<nat>, s: State, step: Step, i: nat)
    requires Inv(sizes, s) && Enabled(sizes, s, step) && i < |sizes|
    ensures DecoderInv(sizes, Apply(sizes, s, step), i)
  {
    assert DecoderInv(sizes, s, i);
  }

  lemma StepKeepsInv(sizes: seq<nat>, s: State, step: Step)
    requires Inv(sizes, s) && Enabled(sizes, s, step)
    ensures Inv(sizes, Apply(sizes, s, step))
  {
    forall i: nat | i < |sizes|
      ensures InOrder(Apply(sizes, s, step), i) && DecoderInv(sizes, Apply(sizes, s, step), i)
      ensures Apply(sizes, s, step).consumer.SawEnd? ==> Apply(sizes, s, step).sent[i] == sizes[i]
    {
      StepKeepsOrder(sizes, s, step, i);
      StepKeepsDecoder(sizes, s, step, i);
      assert DecoderInv(sizes, s, i);
    }
  }

  ghost predicate Runs(sizes: seq<nat>, steps: seq<Step>, s: State)
    decreases |steps|
  {
    if steps == [] then s == Start(sizes)
    else
      exists p ::
        && Runs(sizes, steps[..|steps| - 1], p)
        && |p.decoders| == |p.sent| == |sizes|
        && Enabled(sizes, p, steps[|steps| - 1])
        && s == Apply(sizes, p, steps[|steps| - 1])
  }

  lemma {:induction false} RunsKeepInv(sizes: seq<nat>, steps: seq<Step>, s: State)
    requires Runs(sizes, steps, s)
    ensures Inv(sizes, s)
    ensures Left(sizes, s) + |steps| <= Left(sizes, Start(sizes))
    decreases |steps|
  {
    if steps == [] {
      forall i: nat | i < |sizes|
        ensures InOrder(s, i) && DecoderInv(sizes, s, i)
      {
        assert s.consumed + s.merged == [];
      }
    } else {
      var k := |steps| - 1;
      var p :| Runs(sizes, steps[..k], p) && |p.decoders| == |p.sent| == |sizes| && Enabled(sizes, p, steps[k])
            && s == Apply(sizes, p, steps[k]);
      RunsKeepInv(sizes, steps[..k], p);
      StepKeepsInv(sizes, p, steps[k]);
      StepGetsCloser(sizes, p, steps[k]);
    }
  }

  /**
   Nobody ever sends on the closed channel, and once the consumer has seen the end, every
   object of every pack has been consumed exactly once, each pack in its own order.
   */
  lemma ConsumedExactlyOnce(sizes: seq<nat>, steps: seq<Step>, s: State)
    requires Runs(sizes, steps, s)
    ensures !s.panicked && |s.merged| <= CAPACITY
    ensures s.consumer.SawEnd? ==> forall i: nat | i < |sizes| :: Of(s.consumed, i) == UpTo(sizes[i])
  {
    RunsKeepInv(sizes, steps, s);
    if s.consumer.SawEnd? {
      assert s.consumed + s.merged == s.consumed;
      forall i: nat | i < |sizes|
        ensures Of(s.consumed, i) == UpTo(sizes[i])
      {
        assert InOrder(s, i);
      }
    }
  }

  // ---------- progress ----------

  function Work(size: nat, d: Decoder): nat {
    match d
    case Decoding(next) => if next <= size then 3 * (size - next) + 1 else 1
    case Offering(next) => if next < size then 3 * (size - next) else 1
    case Exited => 0
  }

  function WorkAll(sizes: seq<nat>, ds: seq<Decoder>): nat
    requires |sizes| == |ds|
  {
    if ds == [] then 0
    else WorkAll(sizes[..|ds| - 1], ds[..|ds| - 1]) + Work(sizes[|ds| - 1], ds[|ds| - 1])
  }

  lemma {:induction false} WorkUpdate(sizes: seq<nat>, ds: seq<Decoder>, i: nat, d: Decoder)
    requires i < |ds| == |sizes|
    ensures WorkAll(sizes, ds[i := d]) + Work(sizes[i], ds[i]) == WorkAll(sizes, ds) + Work(sizes[i], d)
  {
    var n := |ds| - 1;
    if i == n {
      assert ds[i := d][..n] == ds[..n];
    } else {
      assert ds[i := d][..n] == ds[..n][i := d];
      WorkUpdate(sizes[..n], ds[..n], i, d);
    }
  }

  /** An upper bound on the steps still to come. */
  function Left(sizes: seq<nat>, s: State): nat
    requires |s.decoders| == |sizes|
  {
    WorkAll(sizes, s.decoders) + |s.merged| + (if s.closed then 0 else 1) + (if s.consumer.Ranging? then 1 else 0)
    + if s.joined then 0 else 1
  }

  lemma StepGetsCloser(sizes: seq<nat>, s: State, step: Step)
    requires Inv(sizes, s) && Enabled(sizes, s, step)
    ensures Left(sizes, Apply(sizes, s, step)) < Left(sizes, s)
  {
    match step
    case Decode(i) =>
      assert DecoderInv(sizes, s, i);
      WorkUpdate(sizes, s.decoders, i, Apply(sizes, s, step).decoders[i]);
    case Offer(i) =>
      assert DecoderInv(sizes, s, i);
      WorkUpdate(sizes, s.decoders, i, Apply(sizes, s, step).decoders[i]);
    case Quit(i) =>
      assert DecoderInv(sizes, s, i);
      WorkUpdate(sizes, s.decoders, i, Exited);
    case _ =>
  }

  /** Until the round has joined all goroutines, one of them can move. */
  lemma NoDeadlock(sizes: seq<nat>, s: State)
    requires Inv(sizes, s) && !s.joined
    ensures exists step :: Enabled(sizes, s, step)
  {
    if s.consumer.Ranging? {
      assert Enabled(sizes, s, GiveUp);
    } else if AllExited(s) {
      assert Enabled(sizes, s, Join);
    } else {
      var i :| 0 <= i < |s.decoders| && !s.decoders[i].Exited?;
      if s.decoders[i].Decoding? {
        assert Enabled(sizes, s, Decode(i));
      } else {
        assert Enabled(sizes, s, Quit(i));
      }
    }
  }

  /**
   Even while the consumer keeps pulling and never gives up, somebody can move: the
   consumer drains a full channel, and a decoder or the closer feeds an empty one.
   */
  lemma NoDeadlockWithoutGivingUp(sizes: seq<nat>, s: State)
    requires Inv(sizes, s) && s.consumer.Ranging?
    ensures exists step :: step != GiveUp && Enabled(sizes, s, step)
  {
    if s.merged != [] {
      assert Enabled(sizes, s, Consume);
    } else if s.closed {
      assert Enabled(sizes, s, SeeEnd);
    } else if AllExited(s) {
      assert Enabled(sizes, s, CloseMerged);
    } else {
      var i :| 0 <= i < |s.decoders| && !s.decoders[i].Exited?;
      if s.decoders[i].Decoding? {
        assert Enabled(sizes, s, Decode(i));
      } else {
        assert Enabled(sizes, s, Offer(i));
      }
    }
  }

  /**
   Every run is finite, and one that can go no further has joined: whether the consumer
   saw the end or gave up early, no decoder is left blocked on the merged channel.
   */
  lemma EveryRunJoins(sizes: seq<nat>, steps: seq<Step>, s: State)
    requires Runs(sizes, steps, s)
    ensures |steps| <= Left(sizes, Start(sizes))
    ensures |s.decoders| == |s.sent| == |sizes|
    ensures (forall step :: !Enabled(sizes, s, step)) ==> s.joined && AllExited(s)
  {
    RunsKeepInv(sizes, steps, s);
    if !s.joined {
      NoDeadlock(sizes, s);
    }
  }
}

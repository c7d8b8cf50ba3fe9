/**
 Dealing one round's wants over the channels in proportion to observed throughput.

 Each key goes to the channel whose assigned bytes are lowest relative to its weight,
 ties to the lower index. The program compares quotients in floating point; here the
 comparison is the exact one, by cross-multiplication.
 */
module Dealing {
  import opened Basics
  import opened Dag

  /** A key weighs its logical length, but never nothing. */
  function Bytes(k: Key): (n: nat)
    ensures n >= 1 && n >= k.length && (n == 1 || n == k.length)
  {
    if k.length < 1 then 1 else k.length
  }

  /** A channel that moved nothing keeps a weight of 1, so it is never locked out. */
  function Floored(weights: seq<int>): (w: seq<nat>)
    ensures Weighs(w, weights)
  {
    seq(|weights|, i requires 0 <= i < |weights| => if weights[i] < 1 then 1 else weights[i])
  }

  /** What a channel counts for: what it moved, or 1 when that is less. */
  ghost predicate Weighs(w: seq<nat>, weights: seq<int>) {
    && |w| == |weights|
    && forall i | 0 <= i < |w| :: w[i] >= 1 && w[i] >= weights[i] && (w[i] == 1 || w[i] == weights[i])
  }

  function Sum(s: seq<nat>): nat {
    if s == [] then 0 else Sum(s[..|s| - 1]) + s[|s| - 1]
  }

  function TotalBytes(wants: seq<Key>): nat {
    if wants == [] then 0 else TotalBytes(wants[..|wants| - 1]) + Bytes(wants[|wants| - 1])
  }

  // ---------- a deal, as the owner of each want ----------

  /** The keys of the first `t` wants dealt to channel `i`, in their original order. */
  function Shard(wants: seq<Key>, owner: seq<nat>, i: nat, t: nat): seq<Key>
    requires t <= |wants| == |owner|
  {
    if t == 0 then []
    else Shard(wants, owner, i, t - 1) + if owner[t - 1] == i then [wants[t - 1]] else []
  }

  /** The bytes dealt to channel `i` by the first `t` wants. */
  function Assigned(wants: seq<Key>, owner: seq<nat>, i: nat, t: nat): nat
    requires t <= |wants| == |owner|
  {
    TotalBytes(Shard(wants, owner, i, t))
  }

  /** The bytes of the last key channel `i` got among the first `t` wants. */
  function Last(wants: seq<Key>, owner: seq<nat>, i: nat, t: nat): nat
    requires t <= |wants| == |owner|
  {
    var shard := Shard(wants, owner, i, t);
    if shard == [] then 0 else Bytes(shard[|shard| - 1])
  }

  /** Want `t` went to the least loaded channel relative to weight, the first of equals. */
  ghost predicate GoesToLowest(wants: seq<Key>, w: seq<nat>, owner: seq<nat>, t: nat)
    requires t < |wants| == |owner|
  {
    && owner[t] < |w|
    && forall j | 0 <= j < |w| ::
         var mine := Assigned(wants, owner, owner[t], t) * w[j];
         var other := Assigned(wants, owner, j, t) * w[owner[t]];
         mine <= other && (j < owner[t] ==> mine < other)
  }

  ghost predicate FairDeal(wants: seq<Key>, w: seq<nat>, owner: seq<nat>) {
    && |owner| == |wants|
    && forall t | 0 <= t < |wants| :: GoesToLowest(wants, w, owner, t)
  }

  /** The deal is fair by what each channel moved, nothing counting as 1. */
  ghost predicate DealtBy(wants: seq<Key>, weights: seq<int>, owner: seq<nat>) {
    forall w | Weighs(w, weights) :: FairDeal(wants, w, owner)
  }

  lemma DealtByFloored(wants: seq<Key>, weights: seq<int>, owner: seq<nat>)
    ensures DealtBy(wants, weights, owner) <==> FairDeal(wants, Floored(weights), owner)
  {
    hide FairDeal;
    forall w | Weighs(w, weights)
      ensures w == Floored(weights)
    {
      OneWeighing(w, Floored(weights), weights);
    }
  }

  lemma OneWeighing(w: seq<nat>, v: seq<nat>, weights: seq<int>)
    requires Weighs(w, weights) && Weighs(v, weights)
    ensures w == v
  {
  }

  lemma ShardStep(wants: seq<Key>, owner: seq<nat>, i: nat, t: nat)
    requires t < |wants| == |owner|
    ensures owner[t] != i ==> Assigned(wants, owner, i, t + 1) == Assigned(wants, owner, i, t)
    ensures owner[t] != i ==> Last(wants, owner, i, t + 1) == Last(wants, owner, i, t)
    ensures owner[t] == i ==> Assigned(wants, owner, i, t + 1) == Assigned(wants, owner, i, t) + Bytes(wants[t])
    ensures owner[t] == i ==> Last(wants, owner, i, t + 1) == Bytes(wants[t])
    ensures Shard(wants, owner, i, t + 1) == Shard(wants, owner, i, t) + if owner[t] == i then [wants[t]] else []
  {
    var before, after := Shard(wants, owner, i, t), Shard(wants, owner, i, t + 1);
    if owner[t] == i {
      assert after[..|after| - 1] == before;
    } else {
      assert after == before;
    }
  }

  /**
   A deal only depends on the wants already dealt, so there is one fair deal at most: the
   rule of going to the lowest channel settles every owner.
   */
  lemma {:induction false} FairDealUnique(wants: seq<Key>, w: seq<nat>, a: seq<nat>, b: seq<nat>, t: nat)
    requires FairDeal(wants, w, a) && FairDeal(wants, w, b) && t <= |wants|
    requires forall i | 0 <= i < |w| :: w[i] >= 1
    ensures a[..t] == b[..t]
    ensures forall i: nat :: Shard(wants, a, i, t) == Shard(wants, b, i, t)
  {
    if t > 0 {
      FairDealUnique(wants, w, a, b, t - 1);
      assert GoesToLowest(wants, w, a, t - 1) && GoesToLowest(wants, w, b, t - 1);
      assert Assigned(wants, a, a[t - 1], t - 1) == Assigned(wants, b, a[t - 1], t - 1);
      assert Assigned(wants, a, b[t - 1], t - 1) == Assigned(wants, b, b[t - 1], t - 1);
      assert a[t - 1] == b[t - 1];
      assert a[..t] == a[..t - 1] + [a[t - 1]] && b[..t] == b[..t - 1] + [b[t - 1]];
    }
  }

  // ---------- balance ----------

  /** `a` bytes on weight `u` are relatively no more than `b` bytes on weight `v`. */
  ghost predicate NoMore(a: int, u: int, b: int, v: int) { a * v <= b * u }

  lemma NoMoreWidens(a: int, u: nat, b: int, v: int, c: int)
    requires NoMore(a, u, b, v) && b <= c
    ensures NoMore(a, u, c, v)
  {
    assert b * u <= c * u;
  }

  /** Channel `i` without its last key is relatively no more loaded than channel `j`. */
  ghost predicate PairBalanced(wants: seq<Key>, w: seq<nat>, owner: seq<nat>, t: nat, i: nat, j: nat)
    requires t <= |wants| == |owner| && i < |w| && j < |w|
  {
    && Last(wants, owner, i, t) <= Assigned(wants, owner, i, t)
    && NoMore(Assigned(wants, owner, i, t) - Last(wants, owner, i, t), w[i], Assigned(wants, owner, j, t), w[j])
  }

  lemma LowestNoMore(wants: seq<Key>, w: seq<nat>, owner: seq<nat>, t: nat, j: nat)
    requires t < |wants| == |owner| && j < |w| && GoesToLowest(wants, w, owner, t)
    ensures NoMore(Assigned(wants, owner, owner[t], t), w[owner[t]], Assigned(wants, owner, j, t), w[j])
  {
    hide Assigned;
  }

  lemma {:induction false} PairBalance(wants: seq<Key>, w: seq<nat>, owner: seq<nat>, t: nat, i: nat, j: nat)
    requires FairDeal(wants, w, owner) && t <= |wants| && i < |w| && j < |w|
    ensures PairBalanced(wants, w, owner, t, i, j)
  {
    hide Assigned, Last, Shard, NoMore;
    if t == 0 {
      NothingDealt(wants, w, owner, i, j);
    } else {
      PairBalance(wants, w, owner, t - 1, i, j);
      assert GoesToLowest(wants, w, owner, t - 1);
      PairBalanceStep(wants, w, owner, t - 1, i, j);
    }
  }

  lemma NothingDealt(wants: seq<Key>, w: seq<nat>, owner: seq<nat>, i: nat, j: nat)
    requires |wants| == |owner| && i < |w| && j < |w|
    ensures PairBalanced(wants, w, owner, 0, i, j)
  {
  }

  lemma PairBalanceStep(wants: seq<Key>, w: seq<nat>, owner: seq<nat>, t: nat, i: nat, j: nat)
    requires t < |wants| == |owner| && i < |w| && j < |w|
    requires PairBalanced(wants, w, owner, t, i, j) && GoesToLowest(wants, w, owner, t)
    ensures PairBalanced(wants, w, owner, t + 1, i, j)
  {
    hide Assigned, Last, Shard, NoMore, GoesToLowest;
    ShardStep(wants, owner, i, t);
    ShardStep(wants, owner, j, t);
    if owner[t] == i {
      LowestNoMore(wants, w, owner, t, j);
    }
    NoMoreWidens(Assigned(wants, owner, i, t + 1) - Last(wants, owner, i, t + 1), w[i],
                 Assigned(wants, owner, j, t), w[j], Assigned(wants, owner, j, t + 1));
  }

  lemma {:induction false} NoMoreThanSum(a: int, u: int, b: seq<nat>, v: seq<nat>)
    requires |b| == |v| && forall j | 0 <= j < |b| :: NoMore(a, u, b[j], v[j])
    ensures NoMore(a, u, Sum(b), Sum(v))
  {
    if b != [] {
      var n := |b| - 1;
      NoMoreThanSum(a, u, b[..n], v[..n]);
      assert NoMore(a, u, b[n], v[n]);
      AddRight(a, u, Sum(b[..n]), Sum(v[..n]), b[n], v[n]);
    }
  }

  lemma AddRight(a: int, u: int, b: int, v: int, c: int, w: int)
    requires NoMore(a, u, b, v) && NoMore(a, u, c, w)
    ensures NoMore(a, u, b + c, v + w)
  {
    assert a * (v + w) == a * v + a * w;
    assert (b + c) * u == b * u + c * u;
  }

  lemma {:induction false} SumNoMoreThan(a: seq<nat>, u: seq<nat>, b: int, v: int)
    requires |a| == |u| && forall j | 0 <= j < |a| :: NoMore(a[j], u[j], b, v)
    ensures NoMore(Sum(a), Sum(u), b, v)
  {
    if a != [] {
      var n := |a| - 1;
      SumNoMoreThan(a[..n], u[..n], b, v);
      assert NoMore(a[n], u[n], b, v);
      AddLeft(Sum(a[..n]), Sum(u[..n]), a[n], u[n], b, v);
    }
  }

  lemma AddLeft(a: int, u: int, c: int, w: int, b: int, v: int)
    requires NoMore(a, u, b, v) && NoMore(c, w, b, v)
    ensures NoMore(a + c, u + w, b, v)
  {
    assert (a + c) * v == a * v + c * v;
    assert b * (u + w) == b * u + b * w;
  }

  function AssignedAll(wants: seq<Key>, owner: seq<nat>, n: nat, t: nat): (a: seq<nat>)
    requires t <= |wants| == |owner|
    ensures |a| == n && forall i | 0 <= i < n :: a[i] == Assigned(wants, owner, i, t)
  {
    seq(n, i => if i >= 0 then Assigned(wants, owner, i, t) else 0)
  }

  function LastAll(wants: seq<Key>, owner: seq<nat>, n: nat, t: nat): (a: seq<nat>)
    requires t <= |wants| == |owner|
    ensures |a| == n && forall i | 0 <= i < n :: a[i] == Last(wants, owner, i, t)
  {
    seq(n, i => if i >= 0 then Last(wants, owner, i, t) else 0)
  }

  lemma {:induction false} SumUpdate(s: seq<nat>, t: seq<nat>, o: nat, b: nat)
    requires |s| == |t| && o < |s| && t[o] == s[o] + b
    requires forall i | 0 <= i < |s| && i != o :: t[i] == s[i]
    ensures Sum(t) == Sum(s) + b
  {
    var n := |s| - 1;
    if o == n {
      assert t[..n] == s[..n];
    } else {
      SumUpdate(s[..n], t[..n], o, b);
    }
  }

  lemma {:induction false} SumOfZeros(s: seq<nat>)
    requires forall i | 0 <= i < |s| :: s[i] == 0
    ensures Sum(s) == 0
  {
    if s != [] {
      SumOfZeros(s[..|s| - 1]);
    }
  }

  lemma AssignedAllStep(wants: seq<Key>, owner: seq<nat>, n: nat, t: nat)
    requires t < |wants| == |owner| && owner[t] < n
    ensures Sum(AssignedAll(wants, owner, n, t + 1)) == Sum(AssignedAll(wants, owner, n, t)) + Bytes(wants[t])
  {
    hide Assigned, Shard, Sum, Bytes;
    var before, after := AssignedAll(wants, owner, n, t), AssignedAll(wants, owner, n, t + 1);
    forall i: nat | i < n
      ensures after[i] == before[i] + if owner[t] == i then Bytes(wants[t]) else 0
    {
      ShardStep(wants, owner, i, t);
    }
    SumUpdate(before, after, owner[t], Bytes(wants[t]));
  }

  /** The channels' bytes add up to all of the bytes. */
  lemma {:induction false} AssignedSum(wants: seq<Key>, w: seq<nat>, owner: seq<nat>, t: nat)
    requires FairDeal(wants, w, owner) && t <= |wants|
    ensures Sum(AssignedAll(wants, owner, |w|, t)) == TotalBytes(wants[..t])
  {
    hide Sum, AssignedAll, Bytes, Assigned, Shard;
    if t == 0 {
      NoneAssigned(wants, owner, |w|);
    } else {
      assert GoesToLowest(wants, w, owner, t - 1);
      AssignedSum(wants, w, owner, t - 1);
      AssignedAllStep(wants, owner, |w|, t - 1);
      assert wants[..t][..t - 1] == wants[..t - 1];
    }
  }

  lemma NoneAssigned(wants: seq<Key>, owner: seq<nat>, n: nat)
    requires |wants| == |owner|
    ensures Sum(AssignedAll(wants, owner, n, 0)) == 0
  {
    SumOfZeros(AssignedAll(wants, owner, n, 0));
  }

  lemma AllBytesAssigned(wants: seq<Key>, w: seq<nat>, owner: seq<nat>)
    requires FairDeal(wants, w, owner)
    ensures Sum(AssignedAll(wants, owner, |w|, |wants|)) == TotalBytes(wants)
  {
    AssignedSum(wants, w, owner, |wants|);
    assert wants[..|wants|] == wants;
  }

  lemma {:induction false} SumDifference(a: seq<nat>, b: seq<nat>, d: seq<nat>)
    requires |a| == |b| == |d| && forall i | 0 <= i < |a| :: d[i] + b[i] == a[i]
    ensures Sum(d) + Sum(b) == Sum(a)
  {
    if a != [] {
      var n := |a| - 1;
      SumDifference(a[..n], b[..n], d[..n]);
    }
  }

  /**
   The balance of a fair deal, from above: but for its last key, no channel's share of
   the bytes exceeds its share of the weight.
   */
  lemma BalancedFromAbove(wants: seq<Key>, w: seq<nat>, owner: seq<nat>, i: nat)
    requires FairDeal(wants, w, owner) && i < |w|
    ensures var mine, last := Assigned(wants, owner, i, |wants|), Last(wants, owner, i, |wants|);
            NoMore(mine - last, w[i], TotalBytes(wants), Sum(w))
  {
    hide Assigned, Last, NoMore, Sum, TotalBytes, AssignedAll, GoesToLowest;
    var a := AssignedAll(wants, owner, |w|, |wants|);
    var excess := Assigned(wants, owner, i, |wants|) - Last(wants, owner, i, |wants|);
    forall j: nat | j < |w|
      ensures NoMore(excess, w[i], a[j], w[j])
    {
      PairBalance(wants, w, owner, |wants|, i, j);
    }
    NoMoreThanSum(excess, w[i], a, w);
    AllBytesAssigned(wants, w, owner);
  }

  function Excess(a: seq<nat>, l: seq<nat>): (d: seq<nat>)
    requires |a| == |l|
    ensures |d| == |a| && forall j | 0 <= j < |a| && l[j] <= a[j] :: d[j] == a[j] - l[j]
  {
    seq(|a|, j requires 0 <= j < |a| => if l[j] <= a[j] then a[j] - l[j] else 0)
  }

  /** And from below: it falls short by no more than the channels' last keys. */
  lemma BalancedFromBelow(wants: seq<Key>, w: seq<nat>, owner: seq<nat>, i: nat)
    requires FairDeal(wants, w, owner) && i < |w|
    ensures var lasts := Sum(LastAll(wants, owner, |w|, |wants|));
            NoMore(TotalBytes(wants) - lasts, Sum(w), Assigned(wants, owner, i, |wants|), w[i])
  {
    hide Assigned, Last, NoMore, Sum, TotalBytes, AssignedAll, LastAll, Excess, GoesToLowest;
    var a, l := AssignedAll(wants, owner, |w|, |wants|), LastAll(wants, owner, |w|, |wants|);
    var mine := Assigned(wants, owner, i, |wants|);
    var d := Excess(a, l);
    forall j: nat | j < |w|
      ensures d[j] + l[j] == a[j] && NoMore(d[j], w[j], mine, w[i])
    {
      PairBalance(wants, w, owner, |wants|, j, i);
    }
    SumNoMoreThan(d, w, mine, w[i]);
    SumDifference(a, l, d);
    AllBytesAssigned(wants, w, owner);
  }

  // ---------- dealing in turn ----------

  /** How many of the first `t` wants channel `i` of `n` gets when they are dealt in turn. */
  function Turns(n: nat, i: nat, t: nat): nat
    requires i < n
  {
    if t == 0 then 0 else Turns(n, i, t - 1) + if (t - 1) % n == i then 1 else 0
  }

  lemma NextTurn(t: nat, n: nat)
    requires n >= 1
    ensures t % n + 1 < n ==> (t + 1) / n == t / n && (t + 1) % n == t % n + 1
    ensures t % n + 1 == n ==> (t + 1) / n == t / n + 1 && (t + 1) % n == 0
  {
    var q, r := t / n, t % n;
    assert t + 1 == q * n + (r + 1);
    if r + 1 < n {
      Quotient(t + 1, n, q, r + 1);
    } else {
      assert t + 1 == (q + 1) * n;
      Quotient(t + 1, n, q + 1, 0);
    }
  }

  lemma {:induction false} TurnsCount(n: nat, i: nat, t: nat)
    requires i < n
    ensures Turns(n, i, t) == t / n + if i < t % n then 1 else 0
  {
    if t > 0 {
      TurnsCount(n, i, t - 1);
      NextTurn(t - 1, n);
    }
  }

  /** The channels are alike, and so are the keys. */
  ghost predicate AllAlike(wants: seq<Key>, w: seq<nat>, size: nat, weight: nat) {
    && (forall t | 0 <= t < |wants| :: Bytes(wants[t]) == size)
    && (forall i | 0 <= i < |w| :: w[i] == weight) && weight >= 1 && |w| >= 1
  }

  /** With channels and keys alike, a fair deal is a deal in turn. */
  lemma {:induction false} AlikeInTurn(wants: seq<Key>, w: seq<nat>, owner: seq<nat>, size: nat, weight: nat, t: nat)
    requires FairDeal(wants, w, owner) && AllAlike(wants, w, size, weight) && t <= |wants|
    ensures forall s | 0 <= s < t :: owner[s] == s % |w|
    ensures forall i: nat | i < |w| :: Assigned(wants, owner, i, t) == size * Turns(|w|, i, t)
  {
    hide Assigned, GoesToLowest, Shard, TotalBytes;
    if t == 0 {
      NoneInTurn(wants, owner, |w|, size);
    } else {
      AlikeInTurn(wants, w, owner, size, weight, t - 1);
      assert GoesToLowest(wants, w, owner, t - 1);
      NextInTurn(wants, w, owner, size, weight, t - 1);
      forall i: nat | i < |w|
        ensures Assigned(wants, owner, i, t) == size * Turns(|w|, i, t)
      {
        ShardStep(wants, owner, i, t - 1);
        OneTurnMore(size, |w|, i, t - 1);
      }
    }
  }

  lemma NoneInTurn(wants: seq<Key>, owner: seq<nat>, n: nat, size: nat)
    requires |wants| == |owner|
    ensures forall i: nat | i < n :: Assigned(wants, owner, i, 0) == size * Turns(n, i, 0)
  {
  }

  lemma OneTurnMore(size: nat, n: nat, i: nat, t: nat)
    requires i < n
    ensures size * Turns(n, i, t + 1) == size * Turns(n, i, t) + if t % n == i then size else 0
  {
    var a := Turns(n, i, t);
    assert size * (a + 1) == size * a + size;
  }

  /** When the wants so far were dealt in turn, it is the next channel's turn. */
  lemma NextInTurn(wants: seq<Key>, w: seq<nat>, owner: seq<nat>, size: nat, weight: nat, t: nat)
    requires t < |wants| == |owner| && AllAlike(wants, w, size, weight)
    requires GoesToLowest(wants, w, owner, t)
    requires forall i: nat | i < |w| :: Assigned(wants, owner, i, t) == size * Turns(|w|, i, t)
    ensures owner[t] == t % |w|
  {
    hide Assigned, Turns;
    var n, next, o := |w|, t % |w|, owner[t];
    assert size == Bytes(wants[t]) >= 1;
    LowestTurn(wants, w, owner, size, weight, t, next);
    TurnsCount(n, next, t);
    TurnsCount(n, o, t);
    if o != next {
      LowestTurn(wants, w, owner, size, weight, t, o);
    }
  }

  /** The channel a want goes to has had no more turns than any other, and fewer than those before it. */
  lemma LowestTurn(wants: seq<Key>, w: seq<nat>, owner: seq<nat>, size: nat, weight: nat, t: nat, j: nat)
    requires t < |wants| == |owner| && AllAlike(wants, w, size, weight) && size >= 1 && j < |w|
    requires GoesToLowest(wants, w, owner, t)
    requires forall i: nat | i < |w| :: Assigned(wants, owner, i, t) == size * Turns(|w|, i, t)
    ensures owner[t] < |w| && Turns(|w|, owner[t], t) <= Turns(|w|, j, t)
    ensures j < owner[t] ==> Turns(|w|, owner[t], t) < Turns(|w|, j, t)
  {
    hide Assigned, Turns;
    var a, b := Turns(|w|, owner[t], t), Turns(|w|, j, t);
    assert w[j] == weight && w[owner[t]] == weight;
    assert (size * a) * weight <= (size * b) * weight;
    assert j < owner[t] ==> (size * a) * weight < (size * b) * weight;
    CancelProduct(a, b, size, weight);
  }

  lemma CancelProduct(a: nat, b: nat, size: nat, weight: nat)
    requires size >= 1 && weight >= 1
    ensures (size * a) * weight <= (size * b) * weight ==> a <= b
    ensures (size * a) * weight < (size * b) * weight ==> a < b
  {
    CancelFactor(size * a, size * b, weight);
    assert size * a == a * size && size * b == b * size;
    CancelFactor(a, b, size);
  }

  lemma CancelFactor(a: nat, b: nat, c: nat)
    requires c >= 1
    ensures a * c <= b * c ==> a <= b
    ensures a * c < b * c ==> a < b
  {
    if a > b {
      ProductMonotone(b + 1, a, c);
      assert (b + 1) * c == b * c + c;
    }
  }

  const LONG_KEY: Key := Key(0, 10, [])
  const SHORT_KEY: Key := Key(1, 1, [])

  /** With keys of different sizes it is not: after a long key a channel sits out. */
  lemma UnlikeNotInTurn(owner: seq<nat>)
    requires FairDeal([LONG_KEY, SHORT_KEY, SHORT_KEY], [1, 1], owner)
    ensures owner == [0, 1, 1]
  {
    hide Assigned;
    var wants, w := [LONG_KEY, SHORT_KEY, SHORT_KEY], [1, 1];
    assert GoesToLowest(wants, w, owner, 0) && GoesToLowest(wants, w, owner, 1) && GoesToLowest(wants, w, owner, 2);
    NoneInTurn(wants, owner, 2, 0);
    ShardStep(wants, owner, 0, 0);
    ShardStep(wants, owner, 1, 0);
    ShardStep(wants, owner, 0, 1);
    ShardStep(wants, owner, 1, 1);
  }

  // ---------- nothing is lost or dealt twice ----------

  /** How often `x` occurs in the shards of channels 0 to n - 1. */
  ghost function Copies(wants: seq<Key>, owner: seq<nat>, n: nat, t: nat, x: Key): nat
    requires t <= |wants| == |owner|
  {
    if n == 0 then 0 else Copies(wants, owner, n - 1, t, x) + Count(Shard(wants, owner, n - 1, t), x)
  }

  ghost function Count(s: seq<Key>, x: Key): nat { multiset(s)[x] }

  /** All shards together hold every key exactly as often as it was wanted. */
  lemma {:induction false} ShardsPartition(wants: seq<Key>, owner: seq<nat>, n: nat, t: nat, x: Key)
    requires t <= |wants| == |owner| && forall s | 0 <= s < |owner| :: owner[s] < n
    ensures Copies(wants, owner, n, t, x) == Count(wants[..t], x)
  {
    hide Copies, Shard, Count;
    if t == 0 {
      NoCopies(wants, owner, n, x);
    } else {
      ShardsPartition(wants, owner, n, t - 1, x);
      CopiesStep(wants, owner, n, t - 1, x);
      CountPrefix(wants, t - 1, x);
    }
  }

  lemma CountPrefix(wants: seq<Key>, t: nat, x: Key)
    requires t < |wants|
    ensures Count(wants[..t + 1], x) == Count(wants[..t], x) + if wants[t] == x then 1 else 0
  {
    assert wants[..t + 1] == wants[..t] + [wants[t]];
  }

  lemma {:induction false} NoCopies(wants: seq<Key>, owner: seq<nat>, n: nat, x: Key)
    requires |wants| == |owner|
    ensures Copies(wants, owner, n, 0, x) == 0 == Count(wants[..0], x)
  {
    if n > 0 {
      NoCopies(wants, owner, n - 1, x);
    }
  }

  lemma ShardContents(wants: seq<Key>, owner: seq<nat>, i: nat, t: nat, x: Key)
    requires t < |wants| == |owner|
    ensures Count(Shard(wants, owner, i, t + 1), x)
         == Count(Shard(wants, owner, i, t), x) + if owner[t] == i && wants[t] == x then 1 else 0
  {
  }

  lemma {:induction false} CopiesStep(wants: seq<Key>, owner: seq<nat>, n: nat, t: nat, x: Key)
    requires t < |wants| == |owner|
    ensures Copies(wants, owner, n, t + 1, x)
         == Copies(wants, owner, n, t, x) + if owner[t] < n && wants[t] == x then 1 else 0
  {
    hide Shard, Count;
    if n > 0 {
      CopiesStep(wants, owner, n - 1, t, x);
      ShardContents(wants, owner, n - 1, t, x);
    }
  }

  // ---------- the program ----------

  /** The first channel whose load is lowest relative to its weight. */
  method Lowest(load: seq<nat>, w: seq<nat>) returns (best: nat)
    requires |load| == |w| >= 1 && forall j | 0 <= j < |w| :: w[j] >= 1
    ensures best < |w|
    ensures forall j | 0 <= j < |w| ::
              load[best] * w[j] <= load[j] * w[best]
              && (j < best ==> load[best] * w[j] < load[j] * w[best])
  {
    best := 0;
    for i := 1 to |w|
      invariant 0 <= best < i
      invariant forall j | 0 <= j < i ::
                  load[best] * w[j] <= load[j] * w[best]
                  && (j < best ==> load[best] * w[j] < load[j] * w[best])
    {
      if load[i] * w[best] < load[best] * w[i] {
        LowerStaysLowest(load, w, best, i);
        best := i;
      }
    }
  }

  /** What the loop knows after `t` wants. */
  ghost predicate DealtSoFar(wants: seq<Key>, w: seq<nat>, owner: seq<nat>, load: seq<nat>,
                             shards: seq<seq<Key>>, t: nat) {
    && t <= |wants| == |owner| && |load| == |shards| == |w|
    && (forall i: nat | i < |w| :: shards[i] == Shard(wants, owner, i, t) && load[i] == Assigned(wants, owner, i, t))
    && forall s: nat | s < t :: GoesToLowest(wants, w, owner, s)
  }

  lemma DealStart(wants: seq<Key>, w: seq<nat>, owner: seq<nat>)
    requires |owner| == |wants|
    ensures DealtSoFar(wants, w, owner, seq(|w|, _ => 0), seq(|w|, _ => []), 0)
  {
  }

  lemma DealStep(wants: seq<Key>, w: seq<nat>, was: seq<nat>, load: seq<nat>, shards: seq<seq<Key>>, t: nat, best: nat)
    requires DealtSoFar(wants, w, was, load, shards, t) && t < |wants| && best < |w|
    requires forall j | 0 <= j < |w| ::
              load[best] * w[j] <= load[j] * w[best]
              && (j < best ==> load[best] * w[j] < load[j] * w[best])
    ensures DealtSoFar(wants, w, was[t := best], load[best := load[best] + Bytes(wants[t])],
                       shards[best := shards[best] + [wants[t]]], t + 1)
  {
    hide Assigned, Shard, TotalBytes, Last, GoesToLowest;
    var owner := was[t := best];
    OwnersAgree(wants, w, was, owner, t);
    DealOne(wants, w, owner, load, t);
    forall i: nat | i < |w|
      ensures Shard(wants, owner, i, t + 1) == (if i == best then shards[i] + [wants[t]] else shards[i])
      ensures Assigned(wants, owner, i, t + 1) == (if i == best then load[i] + Bytes(wants[t]) else load[i])
    {
      ShardStep(wants, owner, i, t);
    }
  }

  lemma DealOne(wants: seq<Key>, w: seq<nat>, owner: seq<nat>, load: seq<nat>, t: nat)
    requires t < |wants| == |owner| && |load| == |w| && owner[t] < |w|
    requires forall i: nat | i < |w| :: load[i] == Assigned(wants, owner, i, t)
    requires forall j | 0 <= j < |w| ::
              load[owner[t]] * w[j] <= load[j] * w[owner[t]]
              && (j < owner[t] ==> load[owner[t]] * w[j] < load[j] * w[owner[t]])
    ensures GoesToLowest(wants, w, owner, t)
  {
    hide Assigned;
  }

  lemma OneChannelDeal(wants: seq<Key>, w: seq<nat>, owner: seq<nat>)
    requires |owner| == |wants| && |w| == 1 && forall s | 0 <= s < |owner| :: owner[s] == 0
    ensures FairDeal(wants, w, owner) && Shard(wants, owner, 0, |wants|) == wants
  {
    OneChannelGetsAll(wants, owner, |wants|);
    assert wants[..|wants|] == wants;
  }

  method DealWants(wants: seq<Key>, weights: seq<int>) returns (shards: seq<seq<Key>>, ghost owner: seq<nat>)
    requires |weights| >= 1
    ensures DealtBy(wants, weights, owner) && |owner| == |wants|
    ensures |shards| == |weights|
    ensures forall i | 0 <= i < |shards| :: shards[i] == Shard(wants, owner, i, |wants|)
  {
    hide Assigned, Shard, GoesToLowest;
    var n := |weights|;
    owner := seq(|wants|, _ => 0);
    if n == 1 {
      shards := [wants];
      OneChannelDeal(wants, Floored(weights), owner);
      DealtByFloored(wants, weights, owner);
      return;
    }
    var w := Floored(weights);
    var load: seq<nat> := seq(n, _ => 0);
    shards := seq(n, _ => []);
    DealStart(wants, w, owner);
    for t := 0 to |wants|
      invariant DealtSoFar(wants, w, owner, load, shards, t)
    {
      var best := Lowest(load, w);
      var bytes := if wants[t].length < 1 then 1 else wants[t].length;
      DealStep(wants, w, owner, load, shards, t, best);
      owner := owner[t := best];
      load := load[best := load[best] + bytes];
      shards := shards[best := shards[best] + [wants[t]]];
    }
    DealtByFloored(wants, weights, owner);
  }

  lemma {:induction false} OneChannelGetsAll(wants: seq<Key>, owner: seq<nat>, t: nat)
    requires t <= |wants| == |owner| && forall s | 0 <= s < |owner| :: owner[s] == 0
    ensures Shard(wants, owner, 0, t) == wants[..t]
  {
    if t > 0 {
      OneChannelGetsAll(wants, owner, t - 1);
    }
  }

  /** A channel below the lowest so far is below all that were compared with it. */
  lemma LowerStaysLowest(a: seq<nat>, w: seq<nat>, best: nat, i: nat)
    requires |a| == |w| && best < i < |a| && forall j | 0 <= j < |w| :: w[j] >= 1
    requires a[i] * w[best] < a[best] * w[i]
    requires forall j | 0 <= j < i :: a[best] * w[j] <= a[j] * w[best]
    ensures forall j | 0 <= j < i :: a[i] * w[j] < a[j] * w[i]
  {
    forall j | 0 <= j < i
      ensures a[i] * w[j] < a[j] * w[i]
    {
      RatioTransitive(a[i], w[i], a[best], w[best], a[j], w[j]);
    }
  }

  lemma RatioTransitive(a: nat, u: nat, b: nat, v: nat, c: nat, w: nat)
    requires u >= 1 && v >= 1 && w >= 1
    requires a * v < b * u && b * w <= c * v
    ensures a * w < c * u
  {
    assert a * v * w < b * u * w by { StrictProduct(a * v, b * u, w); }
    assert b * w * u <= c * v * u by { ProductMonotone(b * w, c * v, u); }
    assert b * u * w == b * w * u;
    assert a * v * w == a * w * v && c * v * u == c * u * v;
    if a * w >= c * u {
      ProductMonotone(c * u, a * w, v);
    }
  }

  /** An idle channel is dealt as little as a weight of 1 earns it. */
  lemma IdleChannelKeepsAProbe(owner: seq<nat>)
    requires DealtBy([LONG_KEY, SHORT_KEY, SHORT_KEY], [1000, 0], owner)
    ensures owner == [0, 1, 0]
  {
    hide Assigned;
    var wants, w := [LONG_KEY, SHORT_KEY, SHORT_KEY], [1000, 1];
    assert Weighs(w, [1000, 0]);
    assert FairDeal(wants, w, owner);
    assert GoesToLowest(wants, w, owner, 0) && GoesToLowest(wants, w, owner, 1) && GoesToLowest(wants, w, owner, 2);
    NoneInTurn(wants, owner, 2, 0);
    ShardStep(wants, owner, 0, 0);
    ShardStep(wants, owner, 1, 0);
    ShardStep(wants, owner, 0, 1);
    ShardStep(wants, owner, 1, 1);
  }

  lemma StrictProduct(a: nat, b: nat, c: nat)
    requires a < b && c >= 1
    ensures a * c < b * c
  {
  }

  /** What happened to the first `t` wants depends on their owners only. */
  lemma {:induction false} ShardsAgree(wants: seq<Key>, a: seq<nat>, b: seq<nat>, t: nat)
    requires |a| == |b| == |wants| && t <= |wants| && a[..t] == b[..t]
    ensures forall i: nat :: Shard(wants, a, i, t) == Shard(wants, b, i, t)
  {
    if t > 0 {
      assert a[..t - 1] == a[..t][..t - 1] == b[..t - 1];
      assert a[t - 1] == a[..t][t - 1] == b[t - 1];
      ShardsAgree(wants, a, b, t - 1);
    }
  }

  lemma OwnersAgree(wants: seq<Key>, w: seq<nat>, a: seq<nat>, b: seq<nat>, t: nat)
    requires |a| == |b| == |wants| && t <= |wants| && a[..t] == b[..t]
    ensures forall i: nat :: Shard(wants, a, i, t) == Shard(wants, b, i, t)
    ensures forall i: nat :: Assigned(wants, a, i, t) == Assigned(wants, b, i, t)
    ensures forall s | 0 <= s < t && GoesToLowest(wants, w, a, s) :: GoesToLowest(wants, w, b, s)
  {
    hide GoesToLowest, Shard, TotalBytes;
    ShardsAgree(wants, a, b, t);
    forall s | 0 <= s < t
      ensures GoesToLowest(wants, w, a, s) ==> GoesToLowest(wants, w, b, s)
    {
      assert a[..s] == a[..t][..s] == b[..s];
      assert a[s] == a[..t][s] == b[s];
      ShardsAgree(wants, a, b, s);
      ChoiceAgrees(wants, w, a, b, s);
    }
  }

  lemma ChoiceAgrees(wants: seq<Key>, w: seq<nat>, a: seq<nat>, b: seq<nat>, t: nat)
    requires |a| == |b| == |wants| && t < |wants| && a[t] == b[t]
    requires forall i: nat :: Shard(wants, a, i, t) == Shard(wants, b, i, t)
    ensures GoesToLowest(wants, w, a, t) ==> GoesToLowest(wants, w, b, t)
  {
    hide Shard, TotalBytes;
    forall i: nat
      ensures Assigned(wants, a, i, t) == Assigned(wants, b, i, t)
    {
    }
  }
}

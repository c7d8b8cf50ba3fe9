/**
 The have/want loop as a sequence of rounds, and what whole runs of it guarantee.

 A round starts from what the receiver has and a frontier of keys still to look at. The
 incomplete frontier keys are wanted; at most MAX_WANTS_PER_ROUND of them are requested,
 the rest carried over. Whatever objects come back are verified and stored, every
 requested key must be among them, and their children plus the carry are the next
 frontier. The loop ends when nothing is wanted.

 The store is shared: others may add to it at any moment of a round, between the walks
 that judge two frontier keys or while objects arrive. Nothing is ever removed from it.
 */
module Rounds {
  import opened Basics
  import opened Dag

  /** How many keys one want frame may carry. */
  const MAX_WANTS_PER_ROUND: nat := 32 * 1024

  /** An object as it arrives: the key it claims and the child keys its bytes decode to. */
  datatype Object = Object(key: Key, kids: seq<Key>) {
    /** The bytes hash to the claimed key; a key commits to its children. */
    predicate Verifies() { kids == key.kids }
  }

  function Keys(os: seq<Object>): (ks: seq<Key>)
    ensures |ks| == |os| && forall i | 0 <= i < |os| :: ks[i] == os[i].key
  {
    seq(|os|, i requires 0 <= i < |os| => os[i].key)
  }

  function KeySet(os: seq<Object>): set<Key> {
    set o | o in os :: o.key
  }

  function Elements(ks: seq<Key>): set<Key> { set k | k in ks }

  /** The child keys of a stream of objects, in order of arrival. */
  function KidsOf(os: seq<Object>): seq<Key> {
    if os == [] then [] else KidsOf(os[..|os| - 1]) + os[|os| - 1].kids
  }

  /** The frontier keys found wanting, each once, in order of first appearance. */
  function WantList(frontier: seq<Key>, wanted: set<Key>): seq<Key> {
    if frontier == [] then []
    else
      var n := |frontier| - 1;
      var wants := WantList(frontier[..n], wanted);
      if frontier[n] in frontier[..n] || frontier[n] !in wanted then wants else wants + [frontier[n]]
  }

  /** The keys of `frontier` whose subtree is not whole in `have`. */
  function Incomplete(have: set<Key>, frontier: seq<Key>): set<Key> {
    set k | k in frontier && !Complete(have, k)
  }

  /** What is requested this round and what is carried into the next one. */
  function SplitWants(wants: seq<Key>, max: nat): (r: (seq<Key>, seq<Key>))
    ensures r.0 + r.1 == wants
    ensures |r.0| <= max
    ensures r.1 != [] ==> |r.0| == max
    ensures max > 0 && wants != [] ==> r.0 != []
  {
    if |wants| <= max then (wants, []) else (wants[..max], wants[max..])
  }

  // ---------- the want list ----------

  function FirstIndex(s: seq<Key>, k: Key): (i: nat)
    requires k in s
    ensures i < |s| && s[i] == k && k !in s[..i]
  {
    if s[0] == k then 0 else 1 + FirstIndex(s[1..], k)
  }

  lemma FirstIndexUnique(s: seq<Key>, i: nat)
    requires i < |s| && s[i] !in s[..i]
    ensures FirstIndex(s, s[i]) == i
  {
    var j := FirstIndex(s, s[i]);
    assert forall a | 0 <= a < j :: s[..j][a] == s[a];
    assert forall a | 0 <= a < i :: s[..i][a] == s[a];
  }

  /** `ks` lists keys of `frontier`, each once, in the order they first occur there. */
  ghost predicate InOrderOfFirstUse(ks: seq<Key>, frontier: seq<Key>) {
    && (forall i | 0 <= i < |ks| :: ks[i] in frontier)
    && forall i, j | 0 <= i < j < |ks| :: FirstIndex(frontier, ks[i]) < FirstIndex(frontier, ks[j])
  }

  lemma {:induction false} WantListMembers(frontier: seq<Key>, wanted: set<Key>)
    ensures forall k :: k in WantList(frontier, wanted) <==> k in frontier && k in wanted
  {
    if frontier != [] {
      var n := |frontier| - 1;
      WantListMembers(frontier[..n], wanted);
      assert frontier == frontier[..n] + [frontier[n]];
    }
  }

  lemma {:induction false} WantListOrder(frontier: seq<Key>, wanted: set<Key>)
    ensures InOrderOfFirstUse(WantList(frontier, wanted), frontier)
  {
    if frontier != [] {
      var n := |frontier| - 1;
      var before, wants := WantList(frontier[..n], wanted), WantList(frontier, wanted);
      WantListOrder(frontier[..n], wanted);
      WantListMembers(frontier[..n], wanted);
      if |wants| != |before| {
        FirstIndexUnique(frontier, n);
      }
      forall i, j | 0 <= i < j < |wants|
        ensures wants[i] in frontier && wants[j] in frontier
        ensures FirstIndex(frontier, wants[i]) < FirstIndex(frontier, wants[j])
      {
        assert before[i] == wants[i] && before[i] in before;
        FirstIndexPrefix(frontier, n, wants[i]);
        if j < |before| {
          assert before[j] == wants[j] && before[j] in before;
          FirstIndexPrefix(frontier, n, wants[j]);
          assert FirstIndex(frontier[..n], before[i]) < FirstIndex(frontier[..n], before[j]);
        } else {
          assert wants[j] == frontier[n];
          assert FirstIndex(frontier, wants[j]) == n;
        }
      }
    }
  }

  lemma FirstIndexPrefix(s: seq<Key>, n: nat, k: Key)
    requires n <= |s| && k in s[..n]
    ensures k in s && FirstIndex(s, k) == FirstIndex(s[..n], k) < n
  {
    var f := FirstIndex(s[..n], k);
    assert s[..n][..f] == s[..f];
    FirstIndexUnique(s, f);
  }

  lemma {:induction false} WantListDistinct(frontier: seq<Key>, wanted: set<Key>)
    ensures forall x :: multiset(WantList(frontier, wanted))[x] <= 1
  {
    if frontier != [] {
      var n := |frontier| - 1;
      WantListDistinct(frontier[..n], wanted);
      WantListMembers(frontier[..n], wanted);
      assert multiset(WantList(frontier[..n], wanted))[frontier[n]] <= 1;
    }
  }

  /** Pruning and removing repeats only takes paths away. */
  lemma {:induction false} WantListPaths(frontier: seq<Key>, wanted: set<Key>)
    ensures PathsAll(WantList(frontier, wanted)) <= PathsAll(frontier)
  {
    hide Paths;
    if frontier != [] {
      var n := |frontier| - 1;
      WantListPaths(frontier[..n], wanted);
      assert frontier == frontier[..n] + [frontier[n]];
      PathsAllAppend(frontier[..n], [frontier[n]]);
      PathsAllAppend(WantList(frontier[..n], wanted), [frontier[n]]);
    }
  }

  // ---------- rounds and runs ----------

  /** A round's start, and the keys its walks over the frontier find wanting. */
  datatype Loop = Loop(have: set<Key>, frontier: seq<Key>, wanted: set<Key>) {
    function Wants(): seq<Key> { WantList(frontier, wanted) }
    function Sent(): seq<Key> { SplitWants(Wants(), MAX_WANTS_PER_ROUND).0 }
    function Carry(): seq<Key> { SplitWants(Wants(), MAX_WANTS_PER_ROUND).1 }
    /** More keys are wanted than one frame may carry. */
    predicate Capped() { |Wants()| > MAX_WANTS_PER_ROUND }

    /**
     Each frontier key was judged at some moment between the start of the round and the
     time the store was `now`: a wanted one was not whole at the start, a pruned one is now.
     */
    ghost predicate Judged(now: set<Key>) {
      && (forall k | k in frontier && k in wanted :: !Complete(have, k))
      && forall k | k in frontier && k !in wanted :: Complete(now, k)
    }
  }

  /** A round start whose keys are judged at once. */
  function Fresh(have: set<Key>, frontier: seq<Key>): Loop {
    Loop(have, frontier, Incomplete(have, frontier))
  }

  /**
   What is wanted is exactly what must be: a wanted key has something at or below it that
   was missing when the round began, and a frontier key with something missing now is
   wanted. Each is wanted once, first seen first.
   */
  lemma WantsMeaning(s: Loop, now: set<Key>)
    requires s.Judged(now)
    ensures forall k | k in s.Wants() :: k in s.frontier && exists x :: Reaches(k, x) && x !in s.have
    ensures forall k, x | k in s.frontier && Reaches(k, x) && x !in now :: k in s.Wants()
    ensures InOrderOfFirstUse(s.Wants(), s.frontier)
  {
    WantListMembers(s.frontier, s.wanted);
    forall k
      ensures Complete(s.have, k) <==> !exists x :: Reaches(k, x) && x !in s.have
      ensures Complete(now, k) <==> forall x :: Reaches(k, x) ==> x in now
    {
      CompleteIffNothingMissing(s.have, k);
      CompleteIffNothingMissing(now, k);
    }
    WantListOrder(s.frontier, s.wanted);
  }

  /**
   One round that ends without an error, whoever sent `got` and in whatever order it was
   merged, with others adding what they like to the store in the meantime.
   */
  ghost predicate Round(s: Loop, got: seq<Object>, t: Loop) {
    && s.Judged(t.have)
    && s.Sent() != []
    && (forall o | o in got :: o.Verifies())
    && (forall k | k in s.Sent() :: k in KeySet(got))
    && s.have + KeySet(got) <= t.have
    && t.frontier == KidsOf(got) + s.Carry()
  }

  /** The senders delivered exactly what was asked for. */
  ghost predicate Exact(s: Loop, got: seq<Object>) {
    multiset(Keys(got)) == multiset(s.Sent())
  }

  datatype Run = Run(states: seq<Loop>, packs: seq<seq<Object>>) {
    ghost predicate Valid(root: Key, have: set<Key>) {
      && |states| == |packs| + 1
      && states[0].have == have && states[0].frontier == [root]
      && forall i | 0 <= i < |packs| :: Round(states[i], packs[i], states[i + 1])
    }

    ghost predicate Honest()
      requires |states| == |packs| + 1
    {
      forall i | 0 <= i < |packs| :: Exact(states[i], packs[i])
    }

    /** Nobody else writes to the store, so a round's keys are judged as at its start. */
    ghost predicate Alone()
      requires |states| == |packs| + 1
    {
      && (forall i | 0 <= i < |states| :: states[i].Judged(states[i].have))
      && forall i | 0 <= i < |packs| :: states[i + 1].have == states[i].have + KeySet(packs[i])
    }

    function Last(): Loop
      requires states != []
    {
      states[|states| - 1]
    }

    /** Nothing was wanted any more, as judged by the time the store was `now`. */
    ghost predicate Ends(now: set<Key>)
      requires states != []
    {
      Last().have <= now && Last().Judged(now) && Last().Wants() == []
    }

    /** Every key requested in the first `n` rounds, in order. */
    function Requested(n: nat): seq<Key>
      requires n <= |states|
    {
      if n == 0 then [] else Requested(n - 1) + states[n - 1].Sent()
    }

    /** How many of the first `n` rounds wanted more than one frame may carry. */
    function CappedRounds(n: nat): nat
      requires n <= |states|
    {
      if n == 0 then 0 else CappedRounds(n - 1) + if states[n - 1].Capped() then 1 else 0
    }
  }

  lemma {:induction false} KidsOfMembers(os: seq<Object>, k: Key)
    ensures k in KidsOf(os) <==> exists o :: o in os && k in o.kids
  {
    if os != [] {
      var n := |os| - 1;
      KidsOfMembers(os[..n], k);
      assert os == os[..n] + [os[n]];
      if o :| o in os && k in o.kids {
        assert o in os[..n] || o == os[n];
      }
    }
  }

  // ---------- safety against any sender ----------

  /** Everything still missing below the root lies at or below some frontier key. */
  ghost predicate Covered(root: Key, s: Loop) {
    forall x | Reaches(root, x) && x !in s.have :: exists f :: f in s.frontier && Reaches(f, x)
  }

  lemma RoundKeepsCovered(root: Key, s: Loop, got: seq<Object>, t: Loop)
    requires Round(s, got, t) && Covered(root, s)
    ensures Covered(root, t)
  {
    WantsMeaning(s, t.have);
    forall x | Reaches(root, x) && x !in t.have
      ensures exists f :: f in t.frontier && Reaches(f, x)
    {
      var f :| f in s.frontier && Reaches(f, x);
      assert f in s.Sent() + s.Carry();
      if f in s.Sent() {
        var o :| o in got && o.key == f;
        assert f in t.have;
        var c :| c in f.kids && Reaches(c, x);
        KidsOfMembers(got, c);
        assert c in t.frontier;
      } else {
        assert f in t.frontier;
      }
    }
  }

  /** When nothing is wanted any more, the whole tree is there. */
  lemma NothingWantedIsWhole(root: Key, s: Loop, now: set<Key>)
    requires Covered(root, s) && s.have <= now && s.Judged(now) && s.Wants() == []
    ensures Complete(now, root)
  {
    WantsMeaning(s, now);
    assert forall f, x | f in s.frontier && Reaches(f, x) :: x in now;
    forall x | Reaches(root, x)
      ensures x in now
    {
      if x !in s.have {
        var f :| f in s.frontier && Reaches(f, x);
      }
    }
    CompleteIffNothingMissing(now, root);
  }

  lemma {:induction false} RunCovered(run: Run, root: Key, have: set<Key>, n: nat)
    requires run.Valid(root, have) && n < |run.states|
    ensures Covered(root, run.states[n]) && have <= run.states[n].have
  {
    if n == 0 {
      assert root in [root];
    } else {
      RunCovered(run, root, have, n - 1);
      assert Round(run.states[n - 1], run.packs[n - 1], run.states[n]);
      RoundKeepsCovered(root, run.states[n - 1], run.packs[n - 1], run.states[n]);
    }
  }

  /** A run that stops wanting has the whole tree, whatever the senders and the other writers did. */
  lemma RunSafety(run: Run, root: Key, have: set<Key>, now: set<Key>)
    requires run.Valid(root, have) && run.Ends(now)
    ensures Complete(now, root) && have <= now
  {
    RunCovered(run, root, have, |run.packs|);
    NothingWantedIsWhole(root, run.Last(), now);
  }

  // ---------- what an exact round does ----------

  lemma {:induction false} KidsOfPaths(got: seq<Object>)
    requires forall o | o in got :: o.Verifies()
    ensures PathsAll(KidsOf(got)) + multiset(Keys(got)) == PathsAll(Keys(got))
  {
    if got == [] {
      assert Keys(got) == [];
    } else {
      var n := |got| - 1;
      var init, o := got[..n], got[n];
      KidsOfPaths(init);
      assert o in got && o.kids == o.key.kids;
      PathsAllAppend(KidsOf(init), o.kids);
      assert Keys(got) == Keys(init) + [o.key];
      PathsAllAppend(Keys(init), [o.key]);
      PathsAllSingle(o.key);
      Regroup(PathsAll(KidsOf(init)), PathsAll(o.kids), multiset(Keys(init)), multiset{o.key});
    }
  }

  lemma Regroup(a: multiset<Key>, b: multiset<Key>, c: multiset<Key>, d: multiset<Key>)
    ensures (a + b) + (c + d) == (a + c) + (d + b)
  {
  }

  /** Requested keys leave the unrolled frontier and nothing else enters it. */
  lemma ExactRoundPaths(s: Loop, got: seq<Object>, t: Loop)
    requires Round(s, got, t) && Exact(s, got)
    ensures PathsAll(t.frontier) + multiset(s.Sent()) <= PathsAll(s.frontier)
  {
    KidsOfPaths(got);
    PathsAllAppend(KidsOf(got), s.Carry());
    PathsAllPermutation(Keys(got), s.Sent());
    PathsAllAppend(s.Sent(), s.Carry());
    WantListPaths(s.frontier, s.wanted);
  }

  lemma ExactKeySet(s: Loop, got: seq<Object>)
    requires Exact(s, got)
    ensures KeySet(got) == set k | k in s.Sent()
  {
    forall k
      ensures k in KeySet(got) <==> k in s.Sent()
    {
      assert k in s.Sent() <==> k in multiset(s.Sent());
      assert k in Keys(got) <==> k in multiset(Keys(got));
      if k in KeySet(got) {
        var i :| 0 <= i < |got| && got[i].key == k;
        assert Keys(got)[i] == k;
      }
      if k in Keys(got) {
        var i :| 0 <= i < |got| && Keys(got)[i] == k;
        assert got[i] in got;
      }
    }
  }

  /**
   However the wants are dealt over channels and however the packs are merged, a round
   in which the senders deliver exactly what was asked has one outcome: the keys received
   and the next frontier up to order are those of a single pack, and so is the store when
   nobody else writes to it.
   */
  lemma ShardedRoundRefinesSingle(s: Loop, sharded: seq<Object>, t: Loop, single: seq<Object>, u: Loop)
    requires Round(s, sharded, t) && Exact(s, sharded)
    requires Round(s, single, u) && Keys(single) == s.Sent()
    ensures KeySet(sharded) == KeySet(single) == set k | k in s.Sent()
    ensures t.have == s.have + KeySet(sharded) && u.have == s.have + KeySet(single) ==> t.have == u.have
    ensures multiset(t.frontier) == multiset(u.frontier)
  {
    ExactKeySet(s, sharded);
    ExactKeySet(s, single);
    SameObjects(sharded, single);
    KidsOfPermutation(sharded, single);
  }

  lemma {:induction false} SameObjects(a: seq<Object>, b: seq<Object>)
    requires (forall o | o in a :: o.Verifies()) && (forall o | o in b :: o.Verifies())
    requires multiset(Keys(a)) == multiset(Keys(b))
    ensures multiset(a) == multiset(b)
  {
    if a == [] {
      SamePermutationOfNothing(Keys(b));
    } else {
      assert Keys(a)[0] == a[0].key;
      var i := RestIsPermutation(Keys(a), Keys(b));
      var rest := b[..i] + b[i + 1..];
      assert Keys(a)[1..] == Keys(a[1..]);
      assert Keys(b)[..i] + Keys(b)[i + 1..] == Keys(rest);
      assert a[0] in a && b[i] in b;
      assert a[0] == b[i];
      SameObjects(a[1..], rest);
      RemoveAt(b, i);
      assert a == [a[0]] + a[1..];
    }
  }

  lemma {:induction false} KidsOfAppend(a: seq<Object>, b: seq<Object>)
    ensures KidsOf(a + b) == KidsOf(a) + KidsOf(b)
  {
    if b == [] {
      assert a + b == a;
    } else {
      assert (a + b)[..|a + b| - 1] == a + b[..|b| - 1];
      KidsOfAppend(a, b[..|b| - 1]);
    }
  }

  lemma KidsOfRemove(b: seq<Object>, i: nat)
    requires i < |b|
    ensures multiset(KidsOf(b)) == multiset(b[i].kids) + multiset(KidsOf(b[..i] + b[i + 1..]))
  {
    hide KidsOf;
    var before, o, after := b[..i], [b[i]], b[i + 1..];
    assert b == before + (o + after);
    KidsOfAppend(before, o + after);
    KidsOfAppend(o, after);
    KidsOfAppend(before, after);
    KidsOfSingle(b[i]);
    ThreeParts(KidsOf(before), KidsOf(o), KidsOf(after));
  }

  lemma ThreeParts(a: seq<Key>, b: seq<Key>, c: seq<Key>)
    ensures multiset(a + (b + c)) == multiset(b) + multiset(a + c)
  {
  }

  lemma KidsOfSingle(o: Object)
    ensures KidsOf([o]) == o.kids
  {
    assert [o][..0] == [];
  }

  lemma {:induction false} KidsOfPermutation(a: seq<Object>, b: seq<Object>)
    requires multiset(a) == multiset(b)
    ensures multiset(KidsOf(a)) == multiset(KidsOf(b))
  {
    hide KidsOf;
    if a == [] {
      SamePermutationOfNothing(b);
    } else {
      var i := RestIsPermutation(a, b);
      KidsOfPermutation(a[1..], b[..i] + b[i + 1..]);
      KidsOfRemove(a, 0);
      assert a[..0] + a[1..] == a[1..];
      KidsOfRemove(b, i);
    }
  }
}

/**
 When a sync asks only for what it does not have. A present key is asked for again while
 something below it is missing, so the answer depends on what the store held at the start
 and on what the tree shares.
 */
module Minimality {
  import opened Basics
  import opened Dag
  import opened Rounds
  import opened HonestRuns

  /** The round asks for nothing that was in the store when it began. */
  ghost predicate AsksOnlyMissing(s: Loop) {
    forall k | k in s.Sent() :: k !in s.have
  }

  /** So do the first `n` rounds. */
  ghost predicate OnlyMissingFirst(run: Run, n: nat)
    requires n <= |run.states|
  {
    forall i | 0 <= i < n :: AsksOnlyMissing(run.states[i])
  }

  ghost predicate OnlyMissing(run: Run)
    requires |run.packs| <= |run.states|
  {
    OnlyMissingFirst(run, |run.packs|)
  }

  /** Whatever the store has of the tree below `root`, it has with all below it. */
  ghost predicate NoHoles(root: Key, have: set<Key>) {
    forall k | k in have && Reaches(root, k) :: Complete(have, k)
  }

  // ---------- counting requests ----------

  /** The requested keys that were not there at the start. */
  function News(run: Run, have: set<Key>, n: nat): set<Key>
    requires n <= |run.states|
  {
    Elements(run.Requested(n)) - have
  }

  /** Of keys without repeats, those outside `have` are as many as the keys exactly when none is in it. */
  lemma {:induction false} OutsideCount(ks: seq<Key>, have: set<Key>)
    requires forall k :: multiset(ks)[k] <= 1
    ensures |Elements(ks) - have| <= |ks|
    ensures |Elements(ks) - have| == |ks| <==> forall k | k in ks :: k !in have
  {
    DistinctSize(ks);
    var all := Elements(ks);
    assert |all| == |ks|;
    Smaller(all - have, all);
    assert all - have == all <==> forall k | k in all :: k !in have;
  }

  lemma Smaller(a: set<Key>, b: set<Key>)
    requires a <= b
    ensures |a| <= |b| && (|a| == |b| <==> a == b)
  {
    assert b == a + (b - a);
  }

  lemma DisjointSize(a: set<Key>, b: set<Key>)
    requires a !! b
    ensures |a + b| == |a| + |b|
  {
  }

  /** A round's news are what it asks for and did not have, whether since the start or since. */
  lemma NewsStep(run: Run, root: Key, have: set<Key>, n: nat)
    requires run.Valid(root, have) && run.Honest() && run.Alone() && n < |run.packs|
    ensures News(run, have, n + 1) == News(run, have, n) + (Elements(run.states[n].Sent()) - run.states[n].have)
    ensures News(run, have, n) !! (Elements(run.states[n].Sent()) - run.states[n].have)
    ensures |run.Requested(n + 1)| == |run.Requested(n)| + |run.states[n].Sent()|
  {
    hide Round, Exact, WantList, Complete;
    StoreIsStartPlusRequested(run, root, have, n);
  }

  /** As many new keys as requests, exactly as long as only missing keys are asked for. */
  lemma {:induction false} NewsCount(run: Run, root: Key, have: set<Key>, n: nat)
    requires run.Valid(root, have) && run.Honest() && run.Alone() && n <= |run.packs|
    ensures |News(run, have, n)| <= |run.Requested(n)|
    ensures |News(run, have, n)| == |run.Requested(n)| <==> OnlyMissingFirst(run, n)
  {
    hide Round, Exact, WantList, Complete, News, Elements;
    if n == 0 {
      NoNews(run, have);
    } else {
      var s := run.states[n - 1];
      var added := Elements(s.Sent()) - s.have;
      NewsCount(run, root, have, n - 1);
      NewsStep(run, root, have, n - 1);
      DisjointSize(News(run, have, n - 1), added);
      SentDistinct(s);
      OutsideCount(s.Sent(), s.have);
      OneMoreRound(run, n - 1);
    }
  }

  lemma NoNews(run: Run, have: set<Key>)
    requires |run.states| >= 1
    ensures News(run, have, 0) == {} && |run.Requested(0)| == 0
  {
  }

  lemma OneMoreRound(run: Run, n: nat)
    requires n < |run.states|
    ensures OnlyMissingFirst(run, n + 1) <==> OnlyMissingFirst(run, n) && AsksOnlyMissing(run.states[n])
  {
    hide AsksOnlyMissing;
  }

  /**
   In any sync, of any tree, from any store, with capped rounds or without: as many keys
   are requested as were missing below the root exactly when no round asks for a key that
   is already there. From an empty store that is every key exactly once.
   */
  lemma RequestsCountMissing(run: Run, root: Key, have: set<Key>)
    requires Sync(run, root, have)
    ensures |run.Requested(|run.packs|)| == |Below(root) - have| <==> OnlyMissing(run)
    ensures |run.Requested(|run.packs|)| >= |Below(root) - have|
  {
    hide Round, Exact, WantList, Complete, Below, Reaches;
    var n := |run.packs|;
    NewsCount(run, root, have, n);
    FinishedRunStore(run, root, have, run.Last().have);
    StoreIsStartPlusRequested(run, root, have, n);
    BelowIsNews(run, root, have);
  }

  lemma BelowIsNews(run: Run, root: Key, have: set<Key>)
    requires |run.packs| <= |run.states|
    requires have + Below(root) == have + set k | k in run.Requested(|run.packs|)
    ensures Below(root) - have == News(run, have, |run.packs|)
  {
    hide Below;
    var asked := set k | k in run.Requested(|run.packs|);
    assert Below(root) - have == (have + Below(root)) - have;
    assert News(run, have, |run.packs|) == (have + asked) - have;
  }

  // ---------- any tree, without capped rounds ----------

  /** `x` sits fewer than `n` edges below the root, on some path. */
  ghost predicate SeenBefore(root: Key, x: Key, n: nat) {
    exists d: nat :: d < n && AtDepth(root, x, d)
  }

  /** By round `n` the key is there: from the start, or because it sits less deep. */
  ghost predicate ThereBy(root: Key, have: set<Key>, x: Key, n: nat) {
    x in have || SeenBefore(root, x, n)
  }

  /** Every key n edges down is still to be looked at in round n, or already whole. */
  ghost predicate LevelTracked(root: Key, have: set<Key>, s: Loop, n: nat) {
    && (forall x :: x in s.have <==> ThereBy(root, have, x, n))
    && (forall x :: x in s.frontier ==> AtDepth(root, x, n))
    && (forall x :: AtDepth(root, x, n) ==> x in s.frontier || Complete(s.have, x))
  }

  /** The start of round n is settled by the tree and the store: what is there, and where the round looks. */
  lemma {:induction false} RunTracksLevels(run: Run, root: Key, have: set<Key>, n: nat)
    requires run.Valid(root, have) && run.Honest() && run.Alone() && n <= |run.packs|
    requires run.CappedRounds(n) == 0
    ensures LevelTracked(root, have, run.states[n], n)
  {
    if n == 0 {
      assert forall x :: AtDepth(root, x, 0) ==> x in [root];
    } else {
      RunTracksLevels(run, root, have, n - 1);
      assert Round(run.states[n - 1], run.packs[n - 1], run.states[n]);
      UncappedRoundTracks(root, have, run.states[n - 1], run.packs[n - 1], run.states[n], n - 1);
    }
  }

  lemma UncappedRoundTracks(root: Key, have: set<Key>, s: Loop, got: seq<Object>, t: Loop, n: nat)
    requires Round(s, got, t) && Exact(s, got) && !s.Capped()
    requires s.Judged(s.have) && t.have == s.have + KeySet(got)
    requires LevelTracked(root, have, s, n)
    ensures LevelTracked(root, have, t, n + 1)
  {
    hide SeenBefore, Reaches, AtDepth, WantList;
    assert s.Sent() == s.Wants() && s.Carry() == [];
    WantListMembers(s.frontier, s.wanted);
    ExactKeySet(s, got);
    forall x
      ensures x in t.have <==> ThereBy(root, have, x, n + 1)
    {
      SeenNext(root, x, n);
    }
    forall f | f in t.frontier
      ensures AtDepth(root, f, n + 1)
    {
      var p := ParentAmongSent(s, got, t, f);
      AtDepthStep(root, p, f, n);
    }
    forall x | AtDepth(root, x, n + 1)
      ensures x in t.frontier || Complete(t.have, x)
    {
      var p := LastEdge(root, x, n);
      if Complete(s.have, p) {
        CompleteMonotone(s.have, t.have, x);
      } else {
        assert p in KeySet(got);
        var o :| o in got && o.key == p;
        KidsOfMembers(got, x);
      }
    }
  }

  lemma SeenNext(root: Key, x: Key, n: nat)
    ensures SeenBefore(root, x, n + 1) <==> SeenBefore(root, x, n) || AtDepth(root, x, n)
  {
    if SeenBefore(root, x, n + 1) {
      var d: nat :| d < n + 1 && AtDepth(root, x, d);
      assert d < n ==> SeenBefore(root, x, n);
    }
    if SeenBefore(root, x, n) {
      var d: nat :| d < n && AtDepth(root, x, d);
      assert d < n + 1;
    }
  }

  /** The last edge of a path. */
  lemma {:induction false} LastEdge(root: Key, x: Key, n: nat) returns (p: Key)
    requires AtDepth(root, x, n + 1)
    ensures AtDepth(root, p, n) && x in p.kids
    decreases root
  {
    var c :| c in root.kids && AtDepth(c, x, n);
    if n == 0 {
      p := root;
    } else {
      p := LastEdge(c, x, n - 1);
    }
  }

  /**
   Round n of an uncapped, honest run asks for exactly the keys n edges below the root that
   have something at or below them which was not there at the start and is nowhere nearer
   to the root.
   */
  lemma RoundRequests(run: Run, root: Key, have: set<Key>, n: nat)
    requires run.Valid(root, have) && run.Honest() && run.Alone() && n < |run.packs|
    requires run.CappedRounds(|run.packs|) == 0
    ensures forall k :: k in run.states[n].Sent() <==>
              AtDepth(root, k, n) && exists x :: Reaches(k, x) && !ThereBy(root, have, x, n)
  {
    hide Round, Exact, WantList, Complete, Reaches, AtDepth, ThereBy;
    var s := run.states[n];
    NoCapSoFar(run, n + 1);
    NoCapSoFar(run, n);
    RunTracksLevels(run, root, have, n);
    WantListMembers(s.frontier, s.wanted);
    assert s.Sent() == s.Wants();
    forall k
      ensures Complete(s.have, k) <==> !exists x :: Reaches(k, x) && !ThereBy(root, have, x, n)
    {
      CompleteIffNothingMissing(s.have, k);
    }
  }

  lemma {:induction false} NoCapSoFar(run: Run, n: nat)
    requires n <= |run.packs| <= |run.states| && run.CappedRounds(|run.packs|) == 0
    ensures run.CappedRounds(n) == 0
    decreases |run.packs| - n
  {
    if n < |run.packs| {
      NoCapSoFar(run, n + 1);
    }
  }

  /**
   The tree and the store are settled: whenever a key would be there by the time a depth at
   which it sits is looked at, so would everything below it.
   */
  ghost predicate Settled(root: Key, have: set<Key>) {
    forall k, n: nat, x | AtDepth(root, k, n) && Reaches(k, x) && ThereBy(root, have, k, n) :: ThereBy(root, have, x, n)
  }

  lemma SettledAsksOnlyMissing(run: Run, root: Key, have: set<Key>)
    requires Sync(run, root, have) && run.CappedRounds(|run.packs|) == 0 && Settled(root, have)
    ensures OnlyMissing(run)
  {
    hide Round, Exact, WantList, Complete, Reaches, AtDepth, ThereBy;
    forall i | 0 <= i < |run.packs|
      ensures AsksOnlyMissing(run.states[i])
    {
      NoCapSoFar(run, i);
      RunTracksLevels(run, root, have, i);
      RoundRequests(run, root, have, i);
    }
  }

  lemma OnlyMissingIsSettled(run: Run, root: Key, have: set<Key>)
    requires Sync(run, root, have) && run.CappedRounds(|run.packs|) == 0 && OnlyMissing(run)
    ensures Settled(root, have)
  {
    hide Round, Exact, WantList, Complete, Reaches, AtDepth, ThereBy;
    forall k, n: nat, x | AtDepth(root, k, n) && Reaches(k, x) && ThereBy(root, have, k, n)
      ensures ThereBy(root, have, x, n)
    {
      if n < |run.packs| {
        assert AsksOnlyMissing(run.states[n]);
        NoCapSoFar(run, n);
        RunTracksLevels(run, root, have, n);
        RoundRequests(run, root, have, n);
      } else {
        AtDepthReaches(root, k, n);
        ReachesTransitive(root, k, x);
        ThereAtTheEnd(run, root, have, x, n);
      }
    }
  }

  /** Once a run is over everything below the root is there, and was there for any depth it did not get to. */
  lemma ThereAtTheEnd(run: Run, root: Key, have: set<Key>, x: Key, n: nat)
    requires Sync(run, root, have) && run.CappedRounds(|run.packs|) == 0
    requires Reaches(root, x) && n >= |run.packs|
    ensures ThereBy(root, have, x, n)
  {
    hide Round, Exact, WantList, Complete, Reaches, AtDepth;
    RunTracksLevels(run, root, have, |run.packs|);
    RunSafety(run, root, have, run.Last().have);
    CompleteIffNothingMissing(run.Last().have, root);
    assert ThereBy(root, have, x, |run.packs|);
    if x !in have {
      var d: nat :| d < |run.packs| && AtDepth(root, x, d);
      assert d < n;
    }
  }

  /**
   When only missing objects cross the wire, for every tree and every store, while no round
   is capped: exactly when the two are settled in the sense above.
   */
  lemma OnlyMissingIffSettled(run: Run, root: Key, have: set<Key>)
    requires Sync(run, root, have) && run.CappedRounds(|run.packs|) == 0
    ensures OnlyMissing(run) <==> Settled(root, have)
  {
    hide Round, Exact, Complete, WantList, OnlyMissing, Settled;
    if OnlyMissing(run) {
      OnlyMissingIsSettled(run, root, have);
    }
    if Settled(root, have) {
      SettledAsksOnlyMissing(run, root, have);
    }
  }

  /**
   When a fresh sync requests and receives every object exactly once, as is expected of it:
   exactly when the tree is settled for the empty store.
   */
  lemma FreshSyncExactlyOnceIff(run: Run, root: Key)
    requires Sync(run, root, {}) && run.CappedRounds(|run.packs|) == 0
    ensures ReceivedCount(run, |run.packs|) == |run.Requested(|run.packs|)|
    ensures |run.Requested(|run.packs|)| == |Below(root)| <==> Settled(root, {})
  {
    hide Round, Exact, Complete, WantList, OnlyMissing, Settled, Below, ReceivedCount;
    ReceivedIsRequested(run, root, {}, |run.packs|);
    RequestsCountMissing(run, root, {});
    assert Below(root) - {} == Below(root);
    OnlyMissingIffSettled(run, root, {});
  }

  const LEAF: Key := Key(0, 1, [])
  const SHARED: Key := Key(1, 1, [LEAF])
  const OTHER: Key := Key(2, 1, [SHARED])
  const DIAMOND: Key := Key(3, 1, [OTHER, SHARED])

  /** A root whose child is also its grandchild: that key is there when it is looked at again, its own child is not. */
  lemma DiamondIsUnsettled()
    ensures !Settled(DIAMOND, {})
  {
    assert AtDepth(LEAF, LEAF, 0) && AtDepth(SHARED, SHARED, 0);
    assert SHARED in OTHER.kids && AtDepth(OTHER, SHARED, 1);
    assert OTHER in DIAMOND.kids && SHARED in DIAMOND.kids;
    assert AtDepth(DIAMOND, SHARED, 1) && AtDepth(DIAMOND, SHARED, 2);
    assert ThereBy(DIAMOND, {}, SHARED, 2);
    assert LEAF in SHARED.kids && Reaches(LEAF, LEAF) && Reaches(SHARED, LEAF);
    assert !AtDepth(DIAMOND, LEAF, 0) && !AtDepth(DIAMOND, LEAF, 1);
    assert !ThereBy(DIAMOND, {}, LEAF, 2);
  }

  /** A small tree never fills a want frame. */
  lemma SmallTreesAreUncapped(run: Run, root: Key, have: set<Key>)
    requires Sync(run, root, have) && |Paths(root)| < MAX_WANTS_PER_ROUND
    ensures run.CappedRounds(|run.packs|) == 0
  {
    hide Paths, Round, WantList;
    RoundsBound(run, root, have);
  }

  lemma DiamondIsSmall()
    ensures |Paths(DIAMOND)| == 6
  {
    PathsAllSingle(LEAF);
    PathsAllSingle(SHARED);
    assert DIAMOND.kids == [OTHER] + [SHARED];
    PathsAllAppend([OTHER], [SHARED]);
    PathsAllSingle(OTHER);
    assert Paths(LEAF) == multiset{LEAF};
  }

  /** Every fresh sync of that root requests more keys than there are, and there is such a sync. */
  lemma DiamondIsOff()
    ensures forall run | Sync(run, DIAMOND, {}) :: |run.Requested(|run.packs|)| > |Below(DIAMOND)|
    ensures exists run :: Sync(run, DIAMOND, {})
  {
    hide Paths, Below, Settled, Round, Exact, WantList, Complete;
    DiamondIsSmall();
    DiamondIsUnsettled();
    forall run | Sync(run, DIAMOND, {})
      ensures |run.Requested(|run.packs|)| > |Below(DIAMOND)|
    {
      SmallTreesAreUncapped(run, DIAMOND, {});
      FreshSyncExactlyOnceIff(run, DIAMOND);
      RequestsCountMissing(run, DIAMOND, {});
      assert Below(DIAMOND) - {} == Below(DIAMOND);
    }
    var run := SyncOf(DIAMOND, {});
  }

  // ---------- trees without sharing ----------

  lemma PathsHead(ks: seq<Key>, x: Key)
    requires ks != []
    ensures PathsAll(ks)[x] == Paths(ks[0])[x] + PathsAll(ks[1..])[x]
  {
    hide Paths;
  }

  lemma {:induction false} PathsAtLeast(ks: seq<Key>, i: nat, x: Key)
    requires i < |ks|
    ensures PathsAll(ks)[x] >= Paths(ks[i])[x]
  {
    hide Paths, PathsAll;
    PathsHead(ks, x);
    if i > 0 {
      PathsAtLeast(ks[1..], i - 1, x);
    }
  }

  lemma {:induction false} PathsOfTwo(ks: seq<Key>, i: nat, j: nat, x: Key)
    requires i < j < |ks|
    ensures PathsAll(ks)[x] >= Paths(ks[i])[x] + Paths(ks[j])[x]
  {
    hide Paths, PathsAll;
    PathsHead(ks, x);
    if i == 0 {
      PathsAtLeast(ks[1..], j - 1, x);
    } else {
      PathsOfTwo(ks[1..], i - 1, j - 1, x);
    }
  }

  lemma {:induction false} ReachedLevels(a: Key, b: Key)
    requires Reaches(a, b)
    ensures Levels(b) <= Levels(a)
    decreases a
  {
    if a != b {
      var c :| c in a.kids && Reaches(c, b);
      ReachedLevels(c, b);
      LevelsAllBound(a.kids, c);
    }
  }

  /** A child is not above its parent. */
  lemma NoCycle(c: Key, p: Key)
    requires c in p.kids
    ensures !Reaches(c, p)
  {
    LevelsAllBound(p.kids, c);
    if Reaches(c, p) {
      ReachedLevels(c, p);
    }
  }

  /** A key reached through a kid has a path in that kid's unrolled tree. */
  lemma PathThrough(d: Key, x: Key)
    requires Reaches(d, x)
    ensures Paths(d)[x] >= 1
  {
    PathsIffReaches(d, x);
  }

  /** A child of the root that is also a child further down has two paths to it. */
  lemma SecondParentBelow(root: Key, q: Key, c: Key)
    requires c in root.kids && c in q.kids && Reaches(root, q) && q != root
    ensures Paths(root)[c] >= 2
  {
    hide Paths, PathsAll, Reaches;
    var d := KidTowards(root, q);
    KidReaches(q, c);
    ReachesTransitive(d, q, c);
    NoCycle(c, q);
    assert d != c;
    var i: nat :| i < |root.kids| && root.kids[i] == c;
    var j: nat :| j < |root.kids| && root.kids[j] == d;
    SelfReached(c);
    PathThrough(c, c);
    PathThrough(d, c);
    PathsOfTwo(root.kids, if i < j then i else j, if i < j then j else i, c);
    PathsBelow(root, c);
  }

  lemma SelfReached(k: Key)
    ensures Reaches(k, k)
  {
  }

  lemma KidReaches(q: Key, c: Key)
    requires c in q.kids
    ensures Reaches(q, c)
  {
    SelfReached(c);
  }

  lemma KidTowards(root: Key, q: Key) returns (d: Key)
    requires Reaches(root, q) && q != root
    ensures d in root.kids && Reaches(d, q)
  {
    d :| d in root.kids && Reaches(d, q);
  }

  lemma PathsBelow(root: Key, x: Key)
    ensures Paths(root)[x] >= PathsAll(root.kids)[x]
  {
  }

  /** Without sharing no key has two parents. */
  lemma {:induction false} OneParent(root: Key, p: Key, q: Key, c: Key)
    requires Reaches(root, p) && Reaches(root, q) && c in p.kids && c in q.kids && p != q
    ensures Paths(root)[c] >= 2
    decreases root
  {
    hide Paths, PathsAll, Reaches;
    if p == root {
      SecondParentBelow(root, q, c);
    } else if q == root {
      SecondParentBelow(root, p, c);
    } else {
      var d := KidTowards(root, p);
      var e := KidTowards(root, q);
      if d == e {
        var i: nat :| i < |root.kids| && root.kids[i] == d;
        OneParent(d, p, q, c);
        PathsAtLeast(root.kids, i, c);
      } else {
        TwoKidsTowards(root, d, e, p, q, c);
      }
      PathsBelow(root, c);
    }
  }

  lemma TwoKidsTowards(root: Key, d: Key, e: Key, p: Key, q: Key, c: Key)
    requires d in root.kids && e in root.kids && d != e
    requires Reaches(d, p) && Reaches(e, q) && c in p.kids && c in q.kids
    ensures PathsAll(root.kids)[c] >= 2
  {
    hide Paths, PathsAll, Reaches;
    KidReaches(p, c);
    KidReaches(q, c);
    ReachesTransitive(d, p, c);
    ReachesTransitive(e, q, c);
    PathThrough(d, c);
    PathThrough(e, c);
    var i: nat :| i < |root.kids| && root.kids[i] == d;
    var j: nat :| j < |root.kids| && root.kids[j] == e;
    PathsOfTwo(root.kids, if i < j then i else j, if i < j then j else i, c);
  }

  /** Every key asked for, the root apart, is a child of a key asked for before. */
  lemma {:induction false} RequestedParent(run: Run, root: Key, have: set<Key>, n: nat, k: Key) returns (p: Key)
    requires run.Valid(root, have) && run.Honest() && n <= |run.packs| && k != root
    requires k in run.Requested(n) || k in run.states[n].frontier
    ensures p in run.Requested(n) && k in p.kids
  {
    hide Exact, Complete, Reaches;
    p := k;
    if n > 0 {
      var s, got, t := run.states[n - 1], run.packs[n - 1], run.states[n];
      assert Round(s, got, t) && Exact(s, got);
      if k !in run.Requested(n) && k in KidsOf(got) {
        p := ParentAmongSent(s, got, t, k);
      } else {
        WantListMembers(s.frontier, s.wanted);
        assert k in s.Sent() || k in s.Carry() ==> k in s.Sent() + s.Carry();
        p := RequestedParent(run, root, have, n - 1, k);
      }
    }
  }

  /** Below a key that leads to a requested one without being had on the way, requests climb up to it. */
  lemma {:induction false} RequestsClimb(run: Run, root: Key, have: set<Key>, k: Key, x: Key)
    requires run.Valid(root, have) && run.Honest() && NoSharing(root)
    requires Reaches(root, k) && Reaches(k, x) && x in run.Requested(|run.packs|)
    ensures k in run.Requested(|run.packs|)
    decreases k
  {
    if k != x {
      var c :| c in k.kids && Reaches(c, x);
      KidReaches(k, c);
      ReachesTransitive(root, k, c);
      RequestsClimb(run, root, have, c, x);
      RequestedFromParent(run, root, have, k, c);
    }
  }

  lemma RequestedFromParent(run: Run, root: Key, have: set<Key>, k: Key, c: Key)
    requires run.Valid(root, have) && run.Honest() && NoSharing(root)
    requires Reaches(root, k) && c in k.kids && c in run.Requested(|run.packs|)
    ensures k in run.Requested(|run.packs|)
  {
    hide Paths, Reaches, Round, Exact, Complete;
    NotRoot(root, k, c);
    var p := RequestedParent(run, root, have, |run.packs|, c);
    RequestedReachable(run, root, have, |run.packs|);
    assert Paths(root)[c] <= 1;
    if p != k {
      OneParent(root, p, k, c);
    }
  }

  lemma NotRoot(root: Key, k: Key, c: Key)
    requires Reaches(root, k) && c in k.kids
    ensures c != root
  {
    NoCycle(c, k);
  }

  lemma NoHolesAskOnlyMissing(run: Run, root: Key, have: set<Key>)
    requires Sync(run, root, have) && NoSharing(root) && NoHoles(root, have)
    ensures OnlyMissing(run)
  {
    hide Paths, Reaches, Round, Exact, Complete, NoSharing, WantList;
    forall i | 0 <= i < |run.packs|
      ensures AsksOnlyMissing(run.states[i])
    {
      forall k | k in run.states[i].Sent()
        ensures k !in run.states[i].have
      {
        NewWhenAsked(run, root, have, i, k);
      }
    }
  }

  lemma NewWhenAsked(run: Run, root: Key, have: set<Key>, i: nat, k: Key)
    requires Sync(run, root, have) && NoSharing(root) && NoHoles(root, have)
    requires i < |run.packs| && k in run.states[i].Sent()
    ensures k !in run.states[i].have
  {
    hide Paths, Reaches, Exact, Complete, WantList, PathsAll;
    var s := run.states[i];
    StoreIsStartPlusRequested(run, root, have, i);
    RequestedReachable(run, root, have, i);
    WantListMembers(s.frontier, s.wanted);
    assert k in s.Sent() + s.Carry();
    assert Round(s, run.packs[i], run.states[i + 1]);
    RequestBudget(run, root, have, i + 1);
    assert multiset(run.Requested(i + 1))[k] <= Paths(root)[k] <= 1;
    if k in have {
      CompleteMonotone(have, s.have, k);
    } else if k in run.Requested(i) {
      AskedTwice(run.Requested(i), s.Sent(), k);
    }
  }

  lemma AskedTwice(a: seq<Key>, b: seq<Key>, k: Key)
    requires k in a && k in b
    ensures multiset(a + b)[k] >= 2
  {
    assert k in multiset(a) && k in multiset(b);
  }

  lemma OnlyMissingHasNoHoles(run: Run, root: Key, have: set<Key>)
    requires Sync(run, root, have) && NoSharing(root) && OnlyMissing(run)
    ensures NoHoles(root, have)
  {
    hide Paths, Reaches, Round, Exact, Complete, NoSharing, WantList, Below;
    forall k | k in have && Reaches(root, k)
      ensures Complete(have, k)
    {
      HoleIsAskedFor(run, root, have, k);
    }
  }

  lemma RequestedIsNew(run: Run, root: Key, have: set<Key>, k: Key)
    requires run.Valid(root, have) && OnlyMissing(run) && k in run.Requested(|run.packs|)
    ensures k !in have
  {
    hide Round, Complete, WantList;
    var i := RequestedInRound(run, k, |run.packs|);
    RunCovered(run, root, have, i);
    assert AsksOnlyMissing(run.states[i]);
  }

  lemma HoleIsAskedFor(run: Run, root: Key, have: set<Key>, k: Key)
    requires Sync(run, root, have) && NoSharing(root) && OnlyMissing(run)
    requires k in have && Reaches(root, k)
    ensures Complete(have, k)
  {
    hide Paths, Round, Exact, Complete, NoSharing, WantList, Below, Reaches;
    var n := |run.packs|;
    FinishedRunStore(run, root, have, run.Last().have);
    StoreIsStartPlusRequested(run, root, have, n);
    forall x | Reaches(k, x)
      ensures x in have
    {
      ReachesTransitive(root, k, x);
      InBelow(root, x);
      if x in run.Requested(n) && x !in have {
        RequestsClimb(run, root, have, k, x);
        RequestedIsNew(run, root, have, k);
      }
    }
    CompleteIffNothingMissing(have, k);
  }

  lemma InBelow(root: Key, x: Key)
    requires Reaches(root, x)
    ensures x in Below(root)
  {
    PathsIffReaches(root, x);
  }

  /**
   When only missing objects cross the wire. For a tree without sharing, exactly when the
   store has no holes at the start: nothing of the tree is there without all below it.
   */
  lemma OnlyMissingIffNoHoles(run: Run, root: Key, have: set<Key>)
    requires Sync(run, root, have) && NoSharing(root)
    ensures OnlyMissing(run) <==> NoHoles(root, have)
  {
    hide Round, Exact, Complete, WantList, NoSharing, OnlyMissing, NoHoles;
    if OnlyMissing(run) {
      OnlyMissingHasNoHoles(run, root, have);
    }
    if NoHoles(root, have) {
      NoHolesAskOnlyMissing(run, root, have);
    }
  }

  // ---------- a store with a hole ----------

  const CHILD: Key := Key(0, 1, [])
  const PARENT: Key := Key(1, 1, [CHILD])

  /** A store that holds a parent without its child: every sync asks for the parent again, and there is one. */
  lemma HoleIsAskedAgain()
    ensures NoSharing(PARENT) && !NoHoles(PARENT, {PARENT})
    ensures forall run | Sync(run, PARENT, {PARENT}) :: !OnlyMissing(run)
    ensures exists run :: Sync(run, PARENT, {PARENT})
  {
    hide Round, Exact, Complete, WantList, NoSharing, OnlyMissing, NoHoles;
    ParentHasHole();
    forall run | Sync(run, PARENT, {PARENT})
      ensures !OnlyMissing(run)
    {
      OnlyMissingIffNoHoles(run, PARENT, {PARENT});
    }
    var run := SyncOf(PARENT, {PARENT});
  }

  lemma ParentHasHole()
    ensures NoSharing(PARENT) && !NoHoles(PARENT, {PARENT})
  {
    PathsAllSingle(CHILD);
    assert Paths(CHILD) == multiset{CHILD};
    assert Paths(PARENT) == multiset{PARENT} + multiset{CHILD};
    assert CHILD in PARENT.kids && !Complete({PARENT}, CHILD);
    assert Reaches(PARENT, PARENT);
  }
}

/**
 Whole runs against senders that deliver what they are asked for: how many rounds they
 take, what they request, and that they always end with the whole tree.
 */
module HonestRuns {
  import opened Basics
  import opened Dag
  import opened Rounds

  /**
   The budget every honest run spends: what has been requested so far and what is still
   in the unrolled frontier never exceed the unrolled tree, repeats counted. So a key is
   requested at most once for every path that leads to it.
   */
  lemma {:induction false} RequestBudget(run: Run, root: Key, have: set<Key>, n: nat)
    requires run.Valid(root, have) && run.Honest() && n <= |run.packs|
    ensures multiset(run.Requested(n)) + PathsAll(run.states[n].frontier) <= Paths(root)
  {
    if n == 0 {
      PathsAllSingle(root);
    } else {
      RequestBudget(run, root, have, n - 1);
      ExactRoundPaths(run.states[n - 1], run.packs[n - 1], run.states[n]);
      Spend(multiset(run.Requested(n - 1)), multiset(run.states[n - 1].Sent()),
            PathsAll(run.states[n].frontier), PathsAll(run.states[n - 1].frontier), Paths(root));
    }
  }

  lemma Spend(requested: multiset<Key>, sent: multiset<Key>, after: multiset<Key>, before: multiset<Key>,
              all: multiset<Key>)
    requires requested + before <= all && after + sent <= before
    ensures (requested + sent) + after <= all
  {
  }

  lemma {:induction false} RequestedReachable(run: Run, root: Key, have: set<Key>, n: nat)
    requires run.Valid(root, have) && run.Honest() && n <= |run.packs|
    ensures forall k | k in run.Requested(n) || k in run.states[n].frontier :: Reaches(root, k)
  {
    RequestBudget(run, root, have, n);
    forall k | k in run.Requested(n) || k in run.states[n].frontier
      ensures Reaches(root, k)
    {
      if k in run.Requested(n) {
        assert k in multiset(run.Requested(n));
      } else {
        PathsAllIffReaches(run.states[n].frontier, k);
        assert Reaches(k, k);
      }
      assert k in Paths(root);
      PathsIffReaches(root, k);
    }
  }

  /**
   Nothing useless is asked for: a requested key is reachable from the root, something
   at or below it is missing when the round starts, and it is asked for once that round.
   The last round need not succeed for this.
   */
  lemma RequestsAreMinimal(run: Run, root: Key, have: set<Key>, n: nat, now: set<Key>)
    requires run.Valid(root, have) && run.Honest() && n < |run.states|
    requires run.states[n].Judged(now)
    ensures forall k | k in run.states[n].Sent() ::
              Reaches(root, k) && exists x :: Reaches(k, x) && x !in run.states[n].have
    ensures forall k :: multiset(run.states[n].Sent())[k] <= 1
    ensures |run.states[n].Sent()| <= MAX_WANTS_PER_ROUND
  {
    var s := run.states[n];
    RequestedReachable(run, root, have, n);
    WantsMeaning(s, now);
    SentDistinct(s);
    forall k | k in s.Sent()
      ensures k in s.frontier && exists x :: Reaches(k, x) && x !in s.have
    {
      assert k in s.Sent() + s.Carry();
    }
  }

  lemma SentDistinct(s: Loop)
    ensures forall k :: multiset(s.Sent())[k] <= 1
  {
    WantListDistinct(s.frontier, s.wanted);
    assert s.Wants() == s.Sent() + s.Carry();
    forall k
      ensures multiset(s.Sent())[k] <= 1
    {
      assert multiset(s.Sent())[k] + multiset(s.Carry())[k] == multiset(s.Wants())[k] <= 1;
    }
  }

  /**
   The store holds what it held at the start and what was requested since, and nothing
   else unless somebody else wrote it.
   */
  lemma {:induction false} StoreIsStartPlusRequested(run: Run, root: Key, have: set<Key>, n: nat)
    requires run.Valid(root, have) && run.Honest() && n <= |run.packs|
    ensures have + (set k | k in run.Requested(n)) <= run.states[n].have
    ensures run.Alone() ==> run.states[n].have == have + set k | k in run.Requested(n)
  {
    hide Reaches, Complete;
    if n > 0 {
      StoreIsStartPlusRequested(run, root, have, n - 1);
      assert Round(run.states[n - 1], run.packs[n - 1], run.states[n]);
      ExactKeySet(run.states[n - 1], run.packs[n - 1]);
    }
  }

  // ---------- the counters ----------

  /** Objects received in the first `m` rounds, each once per round. */
  function ReceivedCount(run: Run, m: nat): nat
    requires m <= |run.packs|
  {
    if m == 0 then 0 else ReceivedCount(run, m - 1) + |KeySet(run.packs[m - 1])|
  }

  /** Honest senders deliver as many objects as were requested, round by round and in all. */
  lemma {:induction false} ReceivedIsRequested(run: Run, root: Key, have: set<Key>, n: nat)
    requires run.Valid(root, have) && run.Honest() && n <= |run.packs|
    ensures ReceivedCount(run, n) == |run.Requested(n)|
  {
    hide Round;
    if n > 0 {
      var s := run.states[n - 1];
      ReceivedIsRequested(run, root, have, n - 1);
      ExactKeySet(s, run.packs[n - 1]);
      SentDistinct(s);
      DistinctSize(s.Sent());
    }
  }

  // ---------- how many rounds ----------

  /** While no round is capped, round n looks exactly n edges below the root. */
  lemma {:induction false} FrontierDepth(run: Run, root: Key, have: set<Key>, n: nat)
    requires run.Valid(root, have) && run.Honest() && n <= |run.packs|
    requires run.CappedRounds(n) == 0
    ensures forall f | f in run.states[n].frontier :: AtDepth(root, f, n)
  {
    if n == 0 {
      assert AtDepth(root, root, 0);
    } else {
      var s, got, t := run.states[n - 1], run.packs[n - 1], run.states[n];
      FrontierDepth(run, root, have, n - 1);
      forall f | f in t.frontier
        ensures AtDepth(root, f, n)
      {
        assert f in KidsOf(got);
        var p := ParentAmongSent(s, got, t, f);
        AtDepthStep(root, p, f, n - 1);
      }
    }
  }

  /** A child discovered in an honest round belongs to a key requested that round. */
  lemma ParentAmongSent(s: Loop, got: seq<Object>, t: Loop, f: Key) returns (p: Key)
    requires Round(s, got, t) && Exact(s, got) && f in KidsOf(got)
    ensures p in s.Sent() && p in s.frontier && f in p.kids
  {
    KidsOfMembers(got, f);
    var o :| o in got && f in o.kids;
    ExactKeySet(s, got);
    p := o.key;
    assert p in KeySet(got);
    WantListMembers(s.frontier, s.wanted);
    assert p in s.Sent() + s.Carry();
  }

  /** Every uncapped round takes at least one level off the frontier; a capped one adds none. */
  lemma {:induction false} FrontierLevels(run: Run, root: Key, have: set<Key>, n: nat)
    requires run.Valid(root, have) && run.Honest() && n <= |run.packs|
    ensures run.CappedRounds(n) <= n
    ensures forall f | f in run.states[n].frontier :: Levels(f) + n <= Levels(root) + run.CappedRounds(n)
  {
    if n > 0 {
      var s, got, t := run.states[n - 1], run.packs[n - 1], run.states[n];
      FrontierLevels(run, root, have, n - 1);
      forall f | f in t.frontier
        ensures Levels(f) + n <= Levels(root) + run.CappedRounds(n)
      {
        if f in KidsOf(got) {
          var p := ParentAmongSent(s, got, t, f);
          LevelsAllBound(p.kids, f);
        } else {
          assert f in s.Sent() + s.Carry();
          WantListMembers(s.frontier, s.wanted);
        }
      }
    }
  }

  lemma {:induction false} CappedRoundsAreFull(run: Run, root: Key, have: set<Key>, n: nat)
    requires run.Valid(root, have) && n <= |run.packs|
    ensures MAX_WANTS_PER_ROUND * run.CappedRounds(n) <= |run.Requested(n)|
    ensures n <= |run.Requested(n)|
  {
    hide Round, WantList;
    if n > 0 {
      CappedRoundsAreFull(run, root, have, n - 1);
      RoundAsks(run.states[n - 1], run.packs[n - 1], run.states[n]);
    }
  }

  /** A round asks for something, and for as much as fits when more is wanted. */
  lemma RoundAsks(s: Loop, got: seq<Object>, t: Loop)
    requires Round(s, got, t)
    ensures |s.Sent()| >= 1
    ensures s.Capped() ==> |s.Sent()| == MAX_WANTS_PER_ROUND
    ensures s.Sent()[0] in s.frontier
  {
    hide WantList, Complete;
    WantListMembers(s.frontier, s.wanted);
    assert s.Wants() == s.Sent() + s.Carry();
    assert s.Wants()[0] in s.Wants();
  }

  /**
   How long an honest run can be. Every round asks for something, the requests fit in
   the unrolled tree, and with `capped` capped rounds there are at most Levels + capped
   rounds that ask: counting the empty one, the longest path in edges plus 2 when no
   round is capped.
   */
  lemma RoundsBound(run: Run, root: Key, have: set<Key>)
    requires run.Valid(root, have) && run.Honest()
    ensures var rounds, capped := |run.packs|, run.CappedRounds(|run.packs|);
            && rounds <= |run.Requested(rounds)| <= |Paths(root)|
            && rounds <= Levels(root) + capped
            && MAX_WANTS_PER_ROUND * capped <= |run.Requested(rounds)|
  {
    hide Round, WantList, Paths;
    var n := |run.packs|;
    CappedRoundsAreFull(run, root, have, n);
    RequestBudget(run, root, have, n);
    SmallerMultiset(multiset(run.Requested(n)), Paths(root));
    if n > 0 {
      RoundAsks(run.states[n - 1], run.packs[n - 1], run.states[n]);
      FrontierLevels(run, root, have, n - 1);
      assert run.states[n - 1].Sent()[0] in run.states[n - 1].frontier;
      assert Levels(run.states[n - 1].Sent()[0]) >= 1;
    }
  }

  lemma SmallerMultiset(a: multiset<Key>, b: multiset<Key>)
    requires a <= b
    ensures |a| <= |b|
  {
    assert b == a + (b - a);
  }

  // ---------- what a whole run requests ----------

  /** When no key has two paths to it, no key is requested twice, whatever the store held. */
  lemma NoKeyRequestedTwice(run: Run, root: Key, have: set<Key>)
    requires run.Valid(root, have) && run.Honest() && NoSharing(root)
    ensures forall k :: multiset(run.Requested(|run.packs|))[k] <= 1
  {
    RequestBudget(run, root, have, |run.packs|);
    forall k
      ensures multiset(run.Requested(|run.packs|))[k] <= 1
    {
      assert Paths(root)[k] <= 1;
    }
  }

  /** What an honest run adds to the store is below the root, and all of it once it ends. */
  lemma FinishedRunStore(run: Run, root: Key, have: set<Key>, now: set<Key>)
    requires run.Valid(root, have) && run.Honest() && run.Ends(now)
    ensures have + Below(root) <= now
    ensures run.Alone() && now == run.Last().have ==> now == have + Below(root)
  {
    StoreIsStartPlusRequested(run, root, have, |run.packs|);
    RequestedReachable(run, root, have, |run.packs|);
    RunSafety(run, root, have, now);
    CompleteIffNothingMissing(now, root);
    forall k
      ensures k in Below(root) <==> Reaches(root, k)
    {
      PathsIffReaches(root, k);
    }
  }

  /** A whole sync by honest senders into a store nobody else writes to. */
  ghost predicate Sync(run: Run, root: Key, have: set<Key>) {
    run.Valid(root, have) && run.Honest() && run.Alone() && run.Ends(run.Last().have)
  }


  /**
   A fresh sync of a tree without sharing requests and receives every object of the tree
   exactly once.
   */
  lemma FreshSyncRequestsEachOnce(run: Run, root: Key)
    requires Sync(run, root, {}) && NoSharing(root)
    ensures run.Last().have == Below(root)
    ensures ReceivedCount(run, |run.packs|) == |run.Requested(|run.packs|)| == |Below(root)|
  {
    var asked := run.Requested(|run.packs|);
    FinishedRunStore(run, root, {}, run.Last().have);
    StoreIsStartPlusRequested(run, root, {}, |run.packs|);
    ReceivedIsRequested(run, root, {}, |run.packs|);
    NoKeyRequestedTwice(run, root, {});
    DistinctSize(asked);
    assert Below(root) == set k | k in asked;
  }

  /** A sync of a tree that is all there ends with its first, empty round, whoever the senders are. */
  lemma ResyncMovesNothing(run: Run, root: Key, have: set<Key>)
    requires run.Valid(root, have) && Complete(have, root)
    ensures run.packs == []
    ensures forall now | run.Last().Judged(now) :: run.Last().Wants() == []
  {
    hide Complete;
    var s := run.states[0];
    WantListMembers(s.frontier, s.wanted);
    SomeMember(s.Wants());
    if run.packs != [] {
      assert Round(s, run.packs[0], run.states[1]);
      RoundAsks(s, run.packs[0], run.states[1]);
    }
  }

  lemma SomeMember(ks: seq<Key>)
    ensures ks == [] || exists k :: k in ks
  {
    if ks != [] {
      assert ks[0] in ks;
    }
  }

  /** What an honest sender sends back for one key. */
  function ObjectOf(k: Key): Object { Object(k, k.kids) }

  function ObjectsOf(ks: seq<Key>): (os: seq<Object>)
    ensures |os| == |ks| && forall i | 0 <= i < |ks| :: os[i] == ObjectOf(ks[i])
  {
    seq(|ks|, i requires 0 <= i < |ks| => ObjectOf(ks[i]))
  }

  /** An honest run that wants something can take another round, with nobody else writing. */
  lemma UnfinishedRunExtends(run: Run, root: Key, have: set<Key>) returns (longer: Run)
    requires run.Valid(root, have) && run.Honest()
    requires run.Last().Judged(run.Last().have) && run.Last().Wants() != []
    ensures longer.Valid(root, have) && longer.Honest() && (run.Alone() ==> longer.Alone())
    ensures |longer.packs| == |run.packs| + 1 && longer.states[..|run.states|] == run.states
    ensures longer.Last().Judged(longer.Last().have)
  {
    hide Complete, Incomplete, Reaches;
    var s := run.Last();
    var got := ObjectsOf(s.Sent());
    var t := Fresh(s.have + KeySet(got), KidsOf(got) + s.Carry());
    assert Keys(got) == s.Sent();
    ExactKeySet(s, got);
    JudgedLater(s, t.have);
    FreshIsJudged(t.have, t.frontier);
    longer := Run(run.states + [t], run.packs + [got]);
    RunGrows(run, root, have, got, t);
  }

  lemma FreshIsJudged(have: set<Key>, frontier: seq<Key>)
    ensures Fresh(have, frontier).Judged(have)
  {
    hide Complete;
  }

  /** A run with one more round. */
  lemma RunGrows(run: Run, root: Key, have: set<Key>, got: seq<Object>, t: Loop)
    requires run.Valid(root, have) && Round(run.Last(), got, t)
    ensures var more := Run(run.states + [t], run.packs + [got]);
            && more.Valid(root, have)
            && (run.Honest() && Exact(run.Last(), got) ==> more.Honest())
            && (run.Alone() && t.Judged(t.have) && t.have == run.Last().have + KeySet(got) ==> more.Alone())
  {
    hide Round, Exact, KeySet, WantList;
    var more := Run(run.states + [t], run.packs + [got]);
    forall i | 0 <= i < |more.packs|
      ensures Round(more.states[i], more.packs[i], more.states[i + 1])
      ensures run.Honest() && Exact(run.Last(), got) ==> Exact(more.states[i], more.packs[i])
    {
      if i < |run.packs| {
        assert Round(run.states[i], run.packs[i], run.states[i + 1]);
        assert run.Honest() ==> Exact(run.states[i], run.packs[i]);
      }
    }
    if run.Alone() && t.Judged(t.have) && t.have == run.Last().have + KeySet(got) {
      AloneGrows(run, got, t);
    }
  }

  lemma AloneGrows(run: Run, got: seq<Object>, t: Loop)
    requires |run.states| == |run.packs| + 1 && run.Alone()
    requires t.Judged(t.have) && t.have == run.Last().have + KeySet(got)
    ensures Run(run.states + [t], run.packs + [got]).Alone()
  {
    hide KeySet, Complete;
    var more := Run(run.states + [t], run.packs + [got]);
    forall i | 0 <= i < |more.states|
      ensures more.states[i].Judged(more.states[i].have)
    {
      assert more.states[i] == if i < |run.states| then run.states[i] else t;
    }
  }

  lemma JudgedLater(s: Loop, now: set<Key>)
    requires s.Judged(s.have) && s.have <= now
    ensures s.Judged(now)
  {
    forall k | k in s.frontier && k !in s.wanted
      ensures Complete(now, k)
    {
      CompleteMonotone(s.have, now, k);
    }
  }

  /**
   From any store, partial or not, an honest run can be carried to its end, and then the
   whole tree is present. Runs that start where an earlier, aborted one stopped are the
   case where `have` is what that one left.
   */
  lemma {:induction false} HonestRunsComplete(run: Run, root: Key, have: set<Key>) returns (whole: Run)
    requires run.Valid(root, have) && run.Honest() && run.Last().Judged(run.Last().have)
    ensures whole.Valid(root, have) && whole.Honest() && (run.Alone() ==> whole.Alone())
    ensures whole.Ends(whole.Last().have) && Complete(whole.Last().have, root)
    decreases |Paths(root)| - |run.packs|
  {
    hide Round, Exact, Complete, Paths;
    RoundsBound(run, root, have);
    if run.Last().Wants() == [] {
      whole := run;
      RunSafety(run, root, have, run.Last().have);
    } else {
      var longer := UnfinishedRunExtends(run, root, have);
      RoundsBound(longer, root, have);
      whole := HonestRunsComplete(longer, root, have);
    }
  }

  // ---------- single requests ----------

  lemma {:induction false} RequestedInRound(run: Run, k: Key, n: nat) returns (i: nat)
    requires n <= |run.states| && k in run.Requested(n)
    ensures i < n && k in run.states[i].Sent()
  {
    if k in run.states[n - 1].Sent() {
      i := n - 1;
    } else {
      i := RequestedInRound(run, k, n - 1);
    }
  }

  /** From any store there is a sync. */
  lemma SyncOf(root: Key, have: set<Key>) returns (run: Run)
    ensures Sync(run, root, have)
  {
    hide Complete, Incomplete;
    var start := Run([Fresh(have, [root])], []);
    FreshIsJudged(have, [root]);
    run := HonestRunsComplete(start, root, have);
  }
}

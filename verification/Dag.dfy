/**
 The content-addressed graph below a root key.

 A key commits to the bytes of its object, and so to the object's child keys: it is
 modelled as a value that carries its children. Two keys are equal exactly when they
 commit to the same content, so a child shared by two parents is the same value, and
 every finite directed acyclic graph is the unrolling of some root.
 */
module Dag {
  import opened Basics

  /** `id` stands for whatever else the key commits to, `length` for its logical length. */
  datatype Key = Key(id: nat, length: nat, kids: seq<Key>)

  /** `b` lies at or below `a`. */
  ghost predicate Reaches(a: Key, b: Key)
    decreases a
  {
    a == b || exists c :: c in a.kids && Reaches(c, b)
  }

  /** Some path of exactly `d` edges leads from `a` to `b`. */
  ghost predicate AtDepth(a: Key, b: Key, d: nat)
    decreases a
  {
    if d == 0 then a == b else exists c :: c in a.kids && AtDepth(c, b, d - 1)
  }

  /** The whole subtree below `k` is present, as the completeness walk decides it. */
  predicate Complete(have: set<Key>, k: Key)
    decreases k
  {
    k in have && forall c :: c in k.kids ==> Complete(have, c)
  }

  /** The walk's recursive verdict and the plain reading agree: nothing reachable is missing. */
  lemma {:induction false} CompleteIffNothingMissing(have: set<Key>, k: Key)
    ensures Complete(have, k) <==> forall x :: Reaches(k, x) ==> x in have
    decreases k
  {
    forall c | c in k.kids
      ensures Complete(have, c) <==> forall x :: Reaches(c, x) ==> x in have
    {
      CompleteIffNothingMissing(have, c);
    }
    assert Reaches(k, k);
    if !Complete(have, k) && k in have {
      var c :| c in k.kids && !Complete(have, c);
      var x :| Reaches(c, x) && x !in have;
      assert Reaches(k, x);
    }
  }

  lemma {:induction false} ReachesTransitive(a: Key, b: Key, c: Key)
    requires Reaches(a, b) && Reaches(b, c)
    ensures Reaches(a, c)
    decreases a
  {
    if a != b {
      var m :| m in a.kids && Reaches(m, b);
      ReachesTransitive(m, b, c);
    }
  }

  /** A larger store completes at least as much. */
  lemma {:induction false} CompleteMonotone(have: set<Key>, more: set<Key>, k: Key)
    requires have <= more && Complete(have, k)
    ensures Complete(more, k)
    decreases k
  {
    forall c | c in k.kids
      ensures Complete(more, c)
    {
      CompleteMonotone(have, more, c);
    }
  }

  // ---------- the unrolled tree ----------

  /** The unrolled subtree of `k`: each key as often as there are paths to it. */
  ghost function Paths(k: Key): multiset<Key>
    decreases k, 1
  {
    multiset{k} + PathsAll(k.kids)
  }

  ghost function PathsAll(ks: seq<Key>): multiset<Key>
    decreases ks, 0
  {
    if ks == [] then multiset{} else Paths(ks[0]) + PathsAll(ks[1..])
  }

  lemma {:induction false} PathsAllAppend(a: seq<Key>, b: seq<Key>)
    ensures PathsAll(a + b) == PathsAll(a) + PathsAll(b)
  {
    if a == [] {
      assert a + b == b;
    } else {
      assert (a + b)[1..] == a[1..] + b;
      PathsAllAppend(a[1..], b);
    }
  }

  lemma PathsAllSingle(k: Key)
    ensures PathsAll([k]) == Paths(k)
  {
    assert [k][1..] == [];
    assert PathsAll([k][1..]) == multiset{};
  }

  lemma PathsAllRemove(ks: seq<Key>, i: nat)
    requires i < |ks|
    ensures PathsAll(ks) == Paths(ks[i]) + PathsAll(ks[..i] + ks[i + 1..])
  {
    hide Paths, PathsAll;
    var before, one, after := ks[..i], [ks[i]], ks[i + 1..];
    assert ks == before + (one + after);
    PathsAllAppend(before, one + after);
    PathsAllAppend(one, after);
    PathsAllAppend(before, after);
    PathsAllSingle(ks[i]);
  }

  lemma {:induction false} PathsAllPermutation(a: seq<Key>, b: seq<Key>)
    requires multiset(a) == multiset(b)
    ensures PathsAll(a) == PathsAll(b)
  {
    if a == [] {
      SamePermutationOfNothing(b);
    } else {
      var i := RestIsPermutation(a, b);
      PathsAllRemove(b, i);
      PathsAllPermutation(a[1..], b[..i] + b[i + 1..]);
    }
  }

  /** A key occurs in the unrolled tree exactly when it is reachable. */
  lemma {:induction false} PathsIffReaches(k: Key, x: Key)
    ensures x in Paths(k) <==> Reaches(k, x)
    decreases k, 1
  {
    PathsAllIffReaches(k.kids, x);
  }

  lemma {:induction false} PathsAllIffReaches(ks: seq<Key>, x: Key)
    ensures x in PathsAll(ks) <==> exists k :: k in ks && Reaches(k, x)
    decreases ks, 0
  {
    if ks != [] {
      PathsIffReaches(ks[0], x);
      PathsAllIffReaches(ks[1..], x);
      assert ks == [ks[0]] + ks[1..];
      if x in PathsAll(ks[1..]) {
        var k :| k in ks[1..] && Reaches(k, x);
        assert k in ks;
      }
    }
  }

  /** The keys reachable from `k`. */
  ghost function Below(k: Key): set<Key> {
    set x | x in Paths(k)
  }

  /** No key below `root` has two paths to it. */
  ghost predicate NoSharing(root: Key) {
    forall x :: Paths(root)[x] <= 1
  }

  // ---------- height ----------

  /** How many levels the subtree has: one more than its longest path has edges. */
  function Levels(k: Key): (n: nat)
    decreases k, 1
  {
    1 + LevelsAll(k.kids)
  }

  function LevelsAll(ks: seq<Key>): (n: nat)
    decreases ks, 0
  {
    if ks == [] then 0
    else
      var a, b := Levels(ks[0]), LevelsAll(ks[1..]);
      if a < b then b else a
  }

  lemma {:induction false} LevelsAllBound(ks: seq<Key>, k: Key)
    requires k in ks
    ensures Levels(k) <= LevelsAll(ks)
  {
    if k != ks[0] {
      assert k in ks[1..];
      LevelsAllBound(ks[1..], k);
    }
  }

  lemma {:induction false} LevelsAllWitness(ks: seq<Key>) returns (k: Key)
    requires ks != []
    ensures k in ks && Levels(k) == LevelsAll(ks)
  {
    if |ks| == 1 || Levels(ks[0]) >= LevelsAll(ks[1..]) {
      k := ks[0];
      if |ks| == 1 { assert LevelsAll(ks[1..]) == 0; }
    } else {
      k := LevelsAllWitness(ks[1..]);
    }
  }

  /** No path is longer than the number of levels allows. */
  lemma {:induction false} DepthBound(root: Key, k: Key, d: nat)
    requires AtDepth(root, k, d)
    ensures d + Levels(k) <= Levels(root)
    decreases root
  {
    if d != 0 {
      var c :| c in root.kids && AtDepth(c, k, d - 1);
      DepthBound(c, k, d - 1);
      LevelsAllBound(root.kids, c);
    }
  }

  /** Some path is as long as the number of levels allows. */
  lemma {:induction false} LongestPath(root: Key) returns (k: Key)
    ensures AtDepth(root, k, Levels(root) - 1)
    decreases root
  {
    if root.kids == [] {
      k := root;
    } else {
      var c := LevelsAllWitness(root.kids);
      k := LongestPath(c);
    }
  }

  lemma {:induction false} AtDepthReaches(root: Key, k: Key, d: nat)
    requires AtDepth(root, k, d)
    ensures Reaches(root, k)
    decreases root
  {
    if d != 0 {
      var c :| c in root.kids && AtDepth(c, k, d - 1);
      AtDepthReaches(c, k, d - 1);
    }
  }

  /** One more edge at the far end of a path. */
  lemma {:induction false} AtDepthStep(root: Key, k: Key, c: Key, d: nat)
    requires AtDepth(root, k, d) && c in k.kids
    ensures AtDepth(root, c, d + 1)
    decreases root
  {
    if d == 0 {
      assert AtDepth(c, c, 0);
    } else {
      var m :| m in root.kids && AtDepth(m, k, d - 1);
      AtDepthStep(m, k, c, d - 1);
    }
  }
}

/** Small shared datatypes: optional values and results of operations that can fail. */
module Basics {

  datatype Option<+T> = None | Some(value: T)

  datatype Result<+T, +E> = Ok(value: T) | Err(error: E)

  /** Looking a name up in a finite map, absence included. */
  function Get<K, V>(m: map<K, V>, k: K): Option<V> {
    if k in m then Some(m[k]) else None
  }

  /** A sequence with one element taken out, as a multiset. */
  lemma RemoveAt<T>(s: seq<T>, i: nat)
    requires i < |s|
    ensures multiset(s) == multiset(s[..i] + s[i + 1..]) + multiset{s[i]}
  {
    assert s == s[..i] + [s[i]] + s[i + 1..];
  }

  lemma SamePermutationOfNothing<T>(s: seq<T>)
    requires multiset(s) == multiset{}
    ensures s == []
  {
    assert |multiset(s)| == |s|;
  }

  lemma CancelOne<T>(a: multiset<T>, b: multiset<T>, x: T)
    requires a + multiset{x} == b + multiset{x}
    ensures a == b
  {
    assert a == (a + multiset{x}) - multiset{x};
    assert b == (b + multiset{x}) - multiset{x};
  }

  /** Taking the first element out of two arrangements of the same elements. */
  lemma RestIsPermutation<T>(a: seq<T>, b: seq<T>) returns (i: nat)
    requires multiset(a) == multiset(b) && a != []
    ensures i < |b| && b[i] == a[0]
    ensures multiset(a[1..]) == multiset(b[..i] + b[i + 1..])
  {
    assert a[0] in multiset(b);
    i :| i < |b| && b[i] == a[0];
    RemoveAt(b, i);
    assert a == [a[0]] + a[1..];
    CancelOne(multiset(a[1..]), multiset(b[..i] + b[i + 1..]), a[0]);
  }

  /** A sequence without repeats has as many elements as its set. */
  lemma {:induction false} DistinctSize<T>(s: seq<T>)
    requires forall x :: multiset(s)[x] <= 1
    ensures |set x | x in s| == |s|
  {
    if s == [] {
      assert (set x | x in s) == {};
    } else {
      var rest := s[1..];
      assert s == [s[0]] + rest;
      assert multiset(s) == multiset{s[0]} + multiset(rest);
      forall x ensures multiset(rest)[x] <= 1 {
        assert multiset(s)[x] <= 1;
      }
      DistinctSize(rest);
      assert multiset(s)[s[0]] <= 1;
      assert s[0] !in multiset(rest);
      assert s[0] !in rest;
      assert (set x | x in s) == {s[0]} + set x | x in rest;
    }
  }

  lemma ProductMonotone(a: nat, b: nat, c: nat)
    requires a <= b
    ensures a * c <= b * c
  {
  }

  /** Quotient and remainder are what adds up to the number. */
  lemma Quotient(n: nat, d: nat, q: nat, r: nat)
    requires r < d && n == q * d + r
    ensures n / d == q && n % d == r
  {
    var e := n / d - q;
    assert n % d == n - (n / d) * d == r - e * d;
    assert e * d == -((-e) * d);
    if e >= 1 {
      ProductMonotone(1, e, d);
    } else if e <= -1 {
      ProductMonotone(1, -e, d);
    }
  }
}

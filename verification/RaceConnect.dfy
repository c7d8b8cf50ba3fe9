/**
 Dialing all candidate addresses at once: the first connection to complete is kept. Every
 dial delivers exactly one result, in any order, on a channel with room for all of them.
 */
module RaceConnect {
  import opened Basics

  type Conn = nat

  /** The position of the first success, or the number of results. */
  function FirstSuccess(results: seq<Option<Conn>>): (i: nat)
    ensures i <= |results|
    ensures forall j | 0 <= j < i :: results[j].None?
    ensures i < |results| ==> results[i].Some?
  {
    if results == [] || results[0].Some? then 0 else 1 + FirstSuccess(results[1..])
  }

  lemma FirstSuccessIs(results: seq<Option<Conn>>, i: nat)
    requires i < |results| && results[i].Some? && forall j | 0 <= j < i :: results[j].None?
    ensures FirstSuccess(results) == i
  {
  }

  function Successes(results: seq<Option<Conn>>): seq<Conn> {
    if results == [] then []
    else
      var last := results[|results| - 1];
      Successes(results[..|results| - 1]) + if last.Some? then [last.value] else []
  }

  lemma {:induction false} SuccessesAppend(a: seq<Option<Conn>>, b: seq<Option<Conn>>)
    ensures Successes(a + b) == Successes(a) + Successes(b)
  {
    if b == [] {
      assert a + b == a;
    } else {
      assert (a + b)[..|a + b| - 1] == a + b[..|b| - 1];
      SuccessesAppend(a, b[..|b| - 1]);
    }
  }

  lemma {:induction false} NoSuccesses(results: seq<Option<Conn>>)
    requires forall i | 0 <= i < |results| :: results[i].None?
    ensures Successes(results) == []
  {
    if results != [] {
      NoSuccesses(results[..|results| - 1]);
    }
  }

  /**
   `results` are the dials' outcomes in order of completion. One connection is kept if any
   dial succeeded, the first; all others are closed, once each; and every result is taken
   off the channel, so no dialer is left behind.
   */
  method Race(results: seq<Option<Conn>>) returns (winner: Option<Conn>, closed: seq<Conn>, taken: nat)
    ensures taken == |results|
    ensures winner.Some? <==> exists i :: 0 <= i < |results| && results[i].Some?
    ensures winner.Some? ==> winner == results[FirstSuccess(results)]
    ensures Successes(results) == (if winner.Some? then [winner.value] else []) + closed
  {
    hide Successes;
    closed, winner, taken := [], None, 0;
    var errs := 0;
    while taken < |results|
      invariant errs == taken <= |results| && forall j | 0 <= j < taken :: results[j].None?
    {
      var r := results[taken];
      taken := taken + 1;
      if r.None? {
        errs := errs + 1;
        continue;
      }
      winner := r;
      FirstSuccessIs(results, errs);
      NoSuccesses(results[..errs]);
      WinnerFirst(results, errs);
      var remaining := |results| - errs - 1;
      closed, taken := CloseLate(results, taken, remaining);
      return;
    }
    NoSuccesses(results);
  }

  /** The background loop: takes the results still to come and closes the connections among them. */
  method CloseLate(results: seq<Option<Conn>>, from: nat, n: nat) returns (closed: seq<Conn>, taken: nat)
    requires from + n == |results|
    ensures closed == Successes(results[from..]) && taken == |results|
  {
    hide Successes;
    closed, taken := [], from;
    NoSuccesses(results[from..from]);
    var remaining := n;
    while remaining > 0
      invariant 0 <= remaining && taken + remaining == |results| && from <= taken
      invariant closed == Successes(results[from..taken])
    {
      var late := results[taken];
      LateResult(results, from, taken);
      taken, remaining := taken + 1, remaining - 1;
      if late.Some? {
        closed := closed + [late.value];
      }
    }
    assert results[from..|results|] == results[from..];
  }

  lemma WinnerFirst(results: seq<Option<Conn>>, i: nat)
    requires i < |results| && results[i].Some? && Successes(results[..i]) == []
    ensures Successes(results) == [results[i].value] + Successes(results[i + 1..])
  {
    hide Successes;
    var one := [results[i]];
    assert results == results[..i] + (one + results[i + 1..]);
    SuccessesAppend(results[..i], one + results[i + 1..]);
    SuccessesAppend(one, results[i + 1..]);
    OneSuccess(results[i]);
  }

  lemma OneSuccess(r: Option<Conn>)
    ensures Successes([r]) == if r.Some? then [r.value] else []
  {
    assert [r][..0] == [];
  }

  lemma LateResult(results: seq<Option<Conn>>, from: nat, i: nat)
    requires from <= i < |results|
    ensures Successes(results[from..i + 1])
         == Successes(results[from..i]) + if results[i].Some? then [results[i].value] else []
  {
    assert results[from..i + 1][..i - from] == results[from..i];
  }
}

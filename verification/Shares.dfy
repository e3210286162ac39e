/** How requests are shared out: the weighted draw and the round-robin turn. */
module Shares {
  import opened Prelude
  import opened Division

  /** `(index, weight)` of a backend that may be picked. */
  type Candidate = (nat, nat)

  function Total(candidates: seq<Candidate>): nat {
    if candidates == [] then 0 else candidates[0].1 + Total(candidates[1..])
  }

  /** The index a draw of `r` falls to; past the total, the last one. */
  function WeightedPick(candidates: seq<Candidate>, r: nat): nat {
    if candidates == [] then 0
    else if r < candidates[0].1 || |candidates| == 1 then candidates[0].0
    else WeightedPick(candidates[1..], r - candidates[0].1)
  }

  method PickWeighted(candidates: seq<Candidate>, r: nat) returns (picked: nat)
    ensures picked == WeightedPick(candidates, r)
  {
    var acc := 0;
    for i := 0 to |candidates|
      invariant acc <= r
      invariant i < |candidates| ==> WeightedPick(candidates, r) == WeightedPick(candidates[i..], r - acc)
      invariant i == |candidates| > 0 ==> WeightedPick(candidates, r) == candidates[i - 1].0
    {
      assert candidates[i..][1..] == candidates[i + 1..];
      acc := acc + candidates[i].1;
      if r < acc {
        return candidates[i].0;
      }
    }
    picked := if candidates == [] then 0 else candidates[|candidates| - 1].0;
  }

  /** The weights before candidate `j`. */
  function Before(candidates: seq<Candidate>, j: nat): nat
    requires j <= |candidates|
  {
    if j == 0 then 0 else candidates[0].1 + Before(candidates[1..], j - 1)
  }

  ghost predicate Distinct(candidates: seq<Candidate>) {
    forall i, j :: 0 <= i < j < |candidates| ==> candidates[i].0 != candidates[j].0
  }

  lemma {:induction false} BeforeWithinTotal(candidates: seq<Candidate>, j: nat)
    requires j < |candidates|
    ensures Before(candidates, j + 1) == Before(candidates, j) + candidates[j].1 <= Total(candidates)
  {
    if j > 0 {
      BeforeWithinTotal(candidates[1..], j - 1);
    }
  }

  /** The draws that fall to candidate `j` are the `weight` of them that follow
      the weights before it. */
  lemma {:induction false} PickedWithinItsRange(candidates: seq<Candidate>, r: nat, j: nat)
    requires Distinct(candidates) && r < Total(candidates) && j < |candidates|
    ensures WeightedPick(candidates, r) == candidates[j].0
            <==> Before(candidates, j) <= r < Before(candidates, j) + candidates[j].1
    decreases |candidates|
  {
    var rest := candidates[1..];
    assert Distinct(rest) by {
      assert forall i :: 0 <= i < |rest| ==> rest[i] == candidates[i + 1];
    }
    if r < candidates[0].1 {
      if j > 0 {
        assert candidates[0].0 != candidates[j].0;
      }
    } else {
      if j > 0 {
        PickedWithinItsRange(rest, r - candidates[0].1, j - 1);
      } else {
        PickedAmong(rest, r - candidates[0].1);
      }
    }
  }

  lemma {:induction false} PickedAmong(candidates: seq<Candidate>, r: nat)
    requires candidates != []
    ensures exists i :: 0 <= i < |candidates| && candidates[i].0 == WeightedPick(candidates, r)
  {
    if r < candidates[0].1 || |candidates| == 1 {
      assert candidates[0].0 == WeightedPick(candidates, r);
    } else {
      PickedAmong(candidates[1..], r - candidates[0].1);
      var i :| 0 <= i < |candidates[1..]| && candidates[1..][i].0 == WeightedPick(candidates[1..], r - candidates[0].1);
      assert candidates[i + 1].0 == WeightedPick(candidates, r);
    }
  }

  function Range(from: nat, n: nat): (range: set<nat>)
    ensures forall r: nat :: r in range <==> from <= r < from + n
    ensures |range| == n
  {
    if n == 0 then {} else Range(from, n - 1) + {from + n - 1}
  }

  /** The draws for which a backend is picked. */
  function DrawsFor(candidates: seq<Candidate>, idx: nat): set<nat> {
    set r: nat | r < Total(candidates) && WeightedPick(candidates, r) == idx
  }

  /** Exact shares: over all the draws there are, each candidate is picked for as
      many as it weighs, so one of no weight for none. */
  lemma ExactShares(candidates: seq<Candidate>, j: nat)
    requires Distinct(candidates) && j < |candidates|
    ensures |DrawsFor(candidates, candidates[j].0)| == candidates[j].1
  {
    BeforeWithinTotal(candidates, j);
    var mine := Range(Before(candidates, j), candidates[j].1);
    forall r: nat | r < Total(candidates)
      ensures WeightedPick(candidates, r) == candidates[j].0 <==> r in mine
    {
      PickedWithinItsRange(candidates, r, j);
    }
    assert DrawsFor(candidates, candidates[j].0) == mine;
  }

  // ---------------------------------------------------------------------------
  // Round robin: a counter of `modulus` values, taken modulo the healthy count

  function Advance(counter: nat, steps: nat, modulus: nat): nat
    requires modulus > 0
  {
    (counter + steps) % modulus
  }

  /** Of `k` turns from `counter`, how many fall to place `j` of `n`. */
  function Turns(counter: nat, k: nat, n: nat, j: nat, modulus: nat): nat
    requires n > 0 && modulus > 0
  {
    if k == 0 then 0
    else Turns(counter, k - 1, n, j, modulus) + if Advance(counter, k - 1, modulus) % n == j then 1 else 0
  }

  /** Every one of `n` places gets its share of `k` turns, rounded one way or
      the other. */
  ghost predicate Even(counter: nat, k: nat, n: nat, modulus: nat)
    requires n > 0 && modulus > 0
  {
    forall j :: 0 <= j < n ==> k / n <= Turns(counter, k, n, j, modulus) <= (k + n - 1) / n
  }

  /** How many numbers below `x` leave `j` when divided by `n`. */
  function Below(x: nat, n: nat, j: nat): nat
    requires j < n
  {
    (x + n - 1 - j) / n
  }

  lemma BelowIs(x: nat, n: nat, j: nat)
    requires j < n
    ensures Below(x, n, j) == x / n + if x % n > j then 1 else 0
  {
    DivMod(x, n);
    SumOf(n, x / n, x % n, 0, n - 1 - j);
  }

  lemma BelowStep(x: nat, n: nat, j: nat)
    requires j < n
    ensures Below(x + 1, n, j) == Below(x, n, j) + if x % n == j then 1 else 0
  {
    BelowIs(x, n, j);
    BelowIs(x + 1, n, j);
    DivNext(x, n);
  }

  lemma {:induction false} TurnsAre(counter: nat, k: nat, n: nat, j: nat, modulus: nat)
    requires j < n && modulus > 0
    requires forall i :: 0 <= i < k ==> Advance(counter, i, modulus) % n == (counter + i) % n
    ensures Turns(counter, k, n, j, modulus) == Below(counter + k, n, j) - Below(counter, n, j)
  {
    if k > 0 {
      TurnsAre(counter, k - 1, n, j, modulus);
      assert Advance(counter, k - 1, modulus) % n == (counter + (k - 1)) % n;
      BelowStep(counter + k - 1, n, j);
    }
  }

  lemma EvenIfPlain(counter: nat, k: nat, n: nat, modulus: nat)
    requires n > 0 && modulus > 0
    requires forall i :: 0 <= i < k ==> Advance(counter, i, modulus) % n == (counter + i) % n
    ensures Even(counter, k, n, modulus)
  {
    forall j | 0 <= j < n
      ensures k / n <= Turns(counter, k, n, j, modulus) <= (k + n - 1) / n
    {
      TurnsAre(counter, k, n, j, modulus);
      DivApart(counter + n - 1 - j, k, n);
    }
  }

  /** Any run of turns in which the counter does not wrap is even. */
  lemma EvenWithoutWrap(counter: nat, k: nat, n: nat, modulus: nat)
    requires n > 0 && modulus > 0 && counter + k <= modulus
    ensures Even(counter, k, n, modulus)
  {
    forall i | 0 <= i < k
      ensures Advance(counter, i, modulus) % n == (counter + i) % n
    {
      DivIs(counter + i, modulus, 0, counter + i);
    }
    EvenIfPlain(counter, k, n, modulus);
  }

  /** Every run of turns is even, wherever the counter stands, if and only if the
      healthy count divides how many values the counter has: otherwise the turn
      at which it wraps gives the first backend one too many. */
  lemma AlwaysEvenIff(n: nat, modulus: nat)
    requires 0 < n <= modulus
    ensures (forall counter: nat, k: nat :: counter < modulus ==> Even(counter, k, n, modulus)) <==> modulus % n == 0
  {
    if modulus % n == 0 {
      forall counter: nat, k: nat | counter < modulus
        ensures Even(counter, k, n, modulus)
      {
        forall i | 0 <= i < k
          ensures Advance(counter, i, modulus) % n == (counter + i) % n
        {
          ModOfMod(counter + i, modulus, n);
        }
        EvenIfPlain(counter, k, n, modulus);
      }
    } else {
      UnevenAtWrap(n, modulus);
    }
  }

  lemma UnevenAtWrap(n: nat, modulus: nat)
    requires 0 < n <= modulus && modulus % n != 0
    ensures var r := modulus % n; !Even(modulus - r, r + 1, n, modulus)
  {
    var r, q := modulus % n, modulus / n;
    var counter := modulus - r;
    DivMod(modulus, n);
    DivIs(counter, n, q, 0);
    DivIs(counter, modulus, 0, counter);
    DivIs(modulus, modulus, 1, 0);
    DivIs(0, n, 0, 0);
    assert Advance(counter, 0, modulus) % n == 0;
    assert Advance(counter, r, modulus) % n == 0;
    FirstTurnCounts(counter, r, n, 0, modulus);
    assert Turns(counter, r + 1, n, 0, modulus) >= 2;
    DivIs(r + 1 + n - 1, n, 1, r);
  }

  lemma {:induction false} FirstTurnCounts(counter: nat, k: nat, n: nat, j: nat, modulus: nat)
    requires n > 0 && modulus > 0 && k > 0 && Advance(counter, 0, modulus) % n == j
    ensures Turns(counter, k, n, j, modulus) >= 1
  {
    if k > 1 {
      FirstTurnCounts(counter, k - 1, n, j, modulus);
    }
  }

  // ---------------------------------------------------------------------------
  // The counter of a pool

  function CountIn(picks: seq<nat>, idx: nat): nat {
    if picks == [] then 0
    else CountIn(picks[..|picks| - 1], idx) + if picks[|picks| - 1] == idx then 1 else 0
  }

  type Counter = n: nat | n < TWO_TO_THE_64

  class RoundRobin {
    /** A 64-bit atomic, which wraps. */
    var counter: Counter

    constructor ()
      ensures counter == 0
    {
      counter := 0;
    }

    /** `round_robin` over backends of equal weight (or all of no weight). */
    method Next(healthy: seq<nat>) returns (picked: nat)
      requires healthy != []
      modifies this
      ensures counter == Advance(old(counter), 1, TWO_TO_THE_64)
      ensures picked == healthy[old(counter) % |healthy|]
    {
      var n := counter;
      counter := (counter + 1) % TWO_TO_THE_64;
      picked := healthy[n % |healthy|];
    }

    /** `k` requests in a row, the healthy set staying as it is: each backend is
        picked as often as `Turns` says, which `AlwaysEvenIff` and
        `EvenWithoutWrap` are about. */
    method Run(healthy: seq<nat>, k: nat) returns (picks: seq<nat>)
      requires healthy != []
      requires forall i, j :: 0 <= i < j < |healthy| ==> healthy[i] != healthy[j]
      modifies this
      ensures |picks| == k
      ensures forall j :: 0 <= j < |healthy| ==>
                CountIn(picks, healthy[j]) == Turns(old(counter), k, |healthy|, j, TWO_TO_THE_64)
      ensures old(counter) + k <= TWO_TO_THE_64 ==>
                forall j :: 0 <= j < |healthy| ==>
                  k / |healthy| <= CountIn(picks, healthy[j]) <= (k + |healthy| - 1) / |healthy|
    {
      picks := [];
      ghost var start := counter;
      DivIs(start, TWO_TO_THE_64, 0, start);
      for i := 0 to k
        invariant |picks| == i && counter == Advance(start, i, TWO_TO_THE_64)
        invariant forall j :: 0 <= j < |healthy| ==>
                    CountIn(picks, healthy[j]) == Turns(start, i, |healthy|, j, TWO_TO_THE_64)
      {
        ghost var before := picks;
        var picked := Next(healthy);
        picks := picks + [picked];
        assert picks[..|picks| - 1] == before;
        AdvanceNext(start, i, TWO_TO_THE_64);
      }
      if start + k <= TWO_TO_THE_64 {
        EvenWithoutWrap(start, k, |healthy|, TWO_TO_THE_64);
      }
    }
  }

  lemma AdvanceNext(counter: nat, i: nat, modulus: nat)
    requires modulus > 0
    ensures Advance(Advance(counter, i, modulus), 1, modulus) == Advance(counter, i + 1, modulus)
  {
    var x := counter + i;
    DivNext(x, modulus);
    var r := x % modulus;
    if r + 1 < modulus {
      DivIs(r + 1, modulus, 0, r + 1);
    } else {
      DivIs(r + 1, modulus, 1, 0);
    }
  }
}

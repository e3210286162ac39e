/** Rust's stable `sort_by_key`, and what stability gives. */
module StableSort {

  function Insert<T>(x: T, s: seq<T>, key: T -> int): seq<T> {
    if s == [] || key(x) <= key(s[0]) then [x] + s else [s[0]] + Insert(x, s[1..], key)
  }

  function Sort<T>(s: seq<T>, key: T -> int): seq<T> {
    if s == [] then [] else Insert(s[0], Sort(s[1..], key), key)
  }

  function Filter<T>(s: seq<T>, p: T -> bool): seq<T> {
    if s == [] then []
    else if p(s[0]) then [s[0]] + Filter(s[1..], p)
    else Filter(s[1..], p)
  }

  ghost predicate Sorted<T>(s: seq<T>, key: T -> int) {
    forall i, j :: 0 <= i < j < |s| ==> key(s[i]) <= key(s[j])
  }

  ghost predicate AtLeast<T>(s: seq<T>, key: T -> int, bound: int) {
    forall i :: 0 <= i < |s| ==> bound <= key(s[i])
  }

  lemma {:induction false} InsertContents<T>(x: T, s: seq<T>, key: T -> int)
    ensures multiset(Insert(x, s, key)) == multiset{x} + multiset(s)
  {
    if s != [] && key(x) > key(s[0]) {
      InsertContents(x, s[1..], key);
      assert s == [s[0]] + s[1..];
    }
  }

  lemma {:induction false} InsertSorted<T>(x: T, s: seq<T>, key: T -> int)
    requires Sorted(s, key)
    ensures Sorted(Insert(x, s, key), key)
  {
    if s != [] && key(x) > key(s[0]) {
      InsertSorted(x, s[1..], key);
      InsertAtLeast(x, s[1..], key, key(s[0]));
    }
  }

  lemma {:induction false} InsertAtLeast<T>(x: T, s: seq<T>, key: T -> int, bound: int)
    requires bound <= key(x) && AtLeast(s, key, bound)
    ensures AtLeast(Insert(x, s, key), key, bound)
  {
    if s != [] && key(x) > key(s[0]) {
      InsertAtLeast(x, s[1..], key, bound);
    }
  }

  lemma {:induction false} SortContents<T>(s: seq<T>, key: T -> int)
    ensures multiset(Sort(s, key)) == multiset(s)
    ensures Sorted(Sort(s, key), key)
  {
    if s != [] {
      SortContents(s[1..], key);
      InsertContents(s[0], Sort(s[1..], key), key);
      InsertSorted(s[0], Sort(s[1..], key), key);
      assert s == [s[0]] + s[1..];
    }
  }

  lemma SortMembers<T>(s: seq<T>, key: T -> int)
    ensures |Sort(s, key)| == |s|
    ensures forall x :: x in Sort(s, key) <==> x in s
  {
    SortContents(s, key);
    assert |multiset(Sort(s, key))| == |multiset(s)|;
    forall x
      ensures x in Sort(s, key) <==> x in s
    {
      assert x in multiset(Sort(s, key)) <==> x in multiset(s);
    }
  }

  lemma {:induction false} FilterAtLeast<T>(s: seq<T>, p: T -> bool, key: T -> int, bound: int)
    requires AtLeast(s, key, bound)
    ensures AtLeast(Filter(s, p), key, bound)
  {
    if s != [] {
      FilterAtLeast(s[1..], p, key, bound);
    }
  }

  lemma {:induction false} FilterInsert<T>(x: T, s: seq<T>, p: T -> bool, key: T -> int)
    requires Sorted(s, key)
    ensures Filter(Insert(x, s, key), p) == if p(x) then Insert(x, Filter(s, p), key) else Filter(s, p)
  {
    if s == [] || key(x) <= key(s[0]) {
      assert AtLeast(s, key, key(x));
      FilterAtLeast(s, p, key, key(x));
      assert ([x] + s)[1..] == s;
    } else {
      FilterInsert(x, s[1..], p, key);
      var inserted := [s[0]] + Insert(x, s[1..], key);
      assert inserted[1..] == Insert(x, s[1..], key);
      if p(s[0]) {
        assert Filter(s, p)[1..] == Filter(s[1..], p);
      }
    }
  }

  /** Stability: sorting and then leaving elements out is leaving them out and
      then sorting, ties included. */
  lemma {:induction false} FilterSort<T>(s: seq<T>, p: T -> bool, key: T -> int)
    ensures Filter(Sort(s, key), p) == Sort(Filter(s, p), key)
  {
    if s != [] {
      FilterSort(s[1..], p, key);
      SortContents(s[1..], key);
      FilterInsert(s[0], Sort(s[1..], key), p, key);
      if p(s[0]) {
        assert Filter(s, p)[1..] == Filter(s[1..], p);
      }
    }
  }

  // ---------------------------------------------------------------------------
  // The first element of what is collected and sorted

  /** `f` of the elements of `s` that satisfy `p`, in order. */
  function Collect<R, C>(s: seq<R>, p: R -> bool, f: R -> C): seq<C> {
    if s == [] then []
    else if p(s[0]) then [f(s[0])] + Collect(s[1..], p, f)
    else Collect(s[1..], p, f)
  }

  lemma {:induction false} CollectPush<R, C>(s: seq<R>, x: R, p: R -> bool, f: R -> C)
    ensures Collect(s + [x], p, f) == Collect(s, p, f) + if p(x) then [f(x)] else []
  {
    if s == [] {
      assert ([] + [x])[1..] == [];
    } else {
      assert (s + [x])[1..] == s[1..] + [x];
      CollectPush(s[1..], x, p, f);
    }
  }

  function Both<R, C>(p: R -> bool, f: R -> C, q: C -> bool): R -> bool {
    (r: R) => p(r) && q(f(r))
  }

  lemma {:induction false} FilterCollect<R, C>(s: seq<R>, p: R -> bool, f: R -> C, q: C -> bool)
    ensures Filter(Collect(s, p, f), q) == Collect(s, Both(p, f, q), f)
  {
    if s != [] {
      FilterCollect(s[1..], p, f, q);
      if p(s[0]) {
        assert Collect(s, p, f)[1..] == Collect(s[1..], p, f);
      }
    }
  }

  predicate NoLaterThan<R>(s: seq<R>, rank: R -> int, i: nat, j: nat)
    requires i < |s| && j < |s|
  {
    rank(s[i]) < rank(s[j]) || (rank(s[i]) == rank(s[j]) && i <= j)
  }

  /** Of the elements that satisfy `p`, `i` is the first of the least rank. */
  ghost predicate FirstLeast<R>(s: seq<R>, p: R -> bool, rank: R -> int, i: nat) {
    && i < |s| && p(s[i])
    && forall j :: 0 <= j < |s| && p(s[j]) ==> NoLaterThan(s, rank, i, j)
  }

  lemma FirstLeastNext<R>(s: seq<R>, p: R -> bool, rank: R -> int, rest: nat)
    requires s != [] && FirstLeast(s[1..], p, rank, rest)
    ensures if p(s[0]) && rank(s[0]) <= rank(s[rest + 1])
            then FirstLeast(s, p, rank, 0)
            else FirstLeast(s, p, rank, rest + 1)
  {
    forall j | 0 < j < |s| && p(s[j])
      ensures NoLaterThan(s, rank, rest + 1, j)
    {
      assert s[j] == s[1..][j - 1];
      assert NoLaterThan(s[1..], rank, rest, j - 1);
    }
  }

  lemma {:induction false} HeadOfSorted<R, C>(s: seq<R>, p: R -> bool, f: R -> C, key: C -> int, rank: R -> int)
    returns (i: nat)
    requires forall r :: rank(r) == key(f(r))
    ensures var sorted := Sort(Collect(s, p, f), key);
            && (sorted == [] ==> forall j :: 0 <= j < |s| ==> !p(s[j]))
            && (sorted != [] ==> FirstLeast(s, p, rank, i) && sorted[0] == f(s[i]))
  {
    i := 0;
    if s != [] {
      var rest := HeadOfSorted(s[1..], p, f, key, rank);
      var tail := Sort(Collect(s[1..], p, f), key);
      if p(s[0]) {
        assert Collect(s, p, f)[1..] == Collect(s[1..], p, f);
      }
      if tail == [] {
        assert forall j :: 0 < j < |s| ==> s[j] == s[1..][j - 1];
      } else {
        FirstLeastNext(s, p, rank, rest);
        if !p(s[0]) || rank(s[0]) > rank(s[rest + 1]) {
          i := rest + 1;
        }
      }
    }
  }

  // ---------------------------------------------------------------------------
  // The best of several tiers

  /** Of the elements that satisfy `m`, `i` is of the lowest tier, then of the
      least rank, then the first. */
  ghost predicate Best<R>(s: seq<R>, m: R -> bool, tier: R -> nat, rank: R -> int, i: nat) {
    && i < |s| && m(s[i])
    && forall j :: 0 <= j < |s| && m(s[j]) ==>
         tier(s[i]) < tier(s[j]) || (tier(s[i]) == tier(s[j]) && NoLaterThan(s, rank, i, j))
  }

  function AtTier<R>(m: R -> bool, tier: R -> nat, k: nat): R -> bool {
    (r: R) => m(r) && tier(r) == k
  }

  /** `found` and `i` are the answer of one tier. */
  ghost predicate TierAnswer<R>(s: seq<R>, m: R -> bool, tier: R -> nat, rank: R -> int, k: nat, found: bool, i: nat) {
    if found then FirstLeast(s, AtTier(m, tier, k), rank, i)
    else forall j :: 0 <= j < |s| ==> !AtTier(m, tier, k)(s[j])
  }

  lemma LowestTierIsBest<R>(
    s: seq<R>, m: R -> bool, tier: R -> nat, rank: R -> int, k: nat, found: bool, i: nat)
    requires TierAnswer(s, m, tier, rank, k, found, i)
    requires forall j :: 0 <= j < |s| && m(s[j]) ==> k <= tier(s[j])
    ensures found ==> Best(s, m, tier, rank, i)
    ensures !found ==> forall j :: 0 <= j < |s| && m(s[j]) ==> k < tier(s[j])
  {
    forall j | 0 <= j < |s| && m(s[j])
      ensures AtTier(m, tier, k)(s[j]) || k < tier(s[j])
    {
    }
  }
}

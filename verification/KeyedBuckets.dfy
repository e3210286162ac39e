/** A bounded table with a bucket for each key, against an unbounded one that never
    forgets a key. */
module KeyedBuckets {
  import opened Prelude
  import opened TokenBucket

  const SWEEP_INTERVAL: nat := 1_000_000_000

  datatype Limits = Limits(rate: Count, burst: Count, capacity: nat)

  /** How a call was answered: against the key's bucket, or let through without
      counting because the table was full. */
  datatype Answer = Counted(granted: bool) | LetThrough {
    predicate Granted() {
      LetThrough? || granted
    }
  }

  datatype Table<K(==)> = Table(levels: map<K, Level>, sweptAt: Option<int>, untracked: nat) {

    predicate SweptRecently(now: int) {
      sweptAt.Some? && Elapsed(sweptAt.value, now) < SWEEP_INTERVAL
    }

    function ForgetIdle(l: Limits, now: int): Table<K> {
      if SweptRecently(now) then this
      else
        Table(
          map k | k in levels && !levels[k].Refill(now, l.rate, l.burst).IsFull(l.burst)
            :: levels[k].Refill(now, l.rate, l.burst),
          Some(now),
          untracked)
    }

    function Charge(l: Limits, key: K, level: Level, now: int): (Table<K>, Answer) {
      var (next, granted) := level.Take(now, l.rate, l.burst);
      (this.(levels := levels[key := next]), Counted(granted))
    }

    function ChargeNew(l: Limits, key: K, now: int): (Table<K>, Answer) {
      if |levels| >= l.capacity then (this.(untracked := untracked + 1), LetThrough)
      else Charge(l, key, FullLevel(l.burst), now)
    }

    function TryAcquire(l: Limits, key: K, now: int): (Table<K>, Answer) {
      if key in levels then Charge(l, key, levels[key], now)
      else (if |levels| >= l.capacity then ForgetIdle(l, now) else this).ChargeNew(l, key, now)
    }
  }

  function Empty<K(==)>(): Table<K> {
    Table(map[], None, 0)
  }

  /** What is kept of `levels` once all but `left` have been looked at. */
  ghost predicate Retained<K>(l: Limits, levels: map<K, Level>, now: int, left: set<K>, kept: map<K, Level>) {
    && (forall k :: k in kept ==> k in levels && k !in left && kept[k] == levels[k].Refill(now, l.rate, l.burst))
    && (forall k :: k in levels && k !in left ==>
          (k in kept <==> !levels[k].Refill(now, l.rate, l.burst).IsFull(l.burst)))
  }

  /** The table, updated in place under the source's mutex. */
  class Buckets<K(==)> {
    const limits: Limits
    var levels: map<K, Level>
    var sweptAt: Option<int>
    var untracked: nat

    constructor (limits: Limits)
      ensures this.limits == limits && Value() == Empty()
    {
      this.limits := limits;
      levels, sweptAt, untracked := map[], None, 0;
    }

    function Value(): Table<K>
      reads this
    {
      Table(levels, sweptAt, untracked)
    }

    method ForgetIdle(now: int)
      modifies this`levels, this`sweptAt
      ensures Value() == old(Value()).ForgetIdle(limits, now)
    {
      if sweptAt.Some? && Elapsed(sweptAt.value, now) < SWEEP_INTERVAL {
        return;
      }
      sweptAt := Some(now);
      // `retain`: every level is refilled, and the ones then full are dropped.
      var kept, left := map[], levels.Keys;
      while left != {}
        invariant left <= levels.Keys && Retained(limits, levels, now, left, kept)
      {
        var k :| k in left;
        var level := levels[k].Refill(now, limits.rate, limits.burst);
        if !level.IsFull(limits.burst) {
          kept := kept[k := level];
        }
        left := left - {k};
      }
      levels := kept;
    }

    method TryAcquire(key: K, now: int) returns (granted: bool)
      modifies this
      ensures var (after, answer) := old(Value()).TryAcquire(limits, key, now);
              Value() == after && granted == answer.Granted()
    {
      if key in levels {
        var (next, taken) := levels[key].Take(now, limits.rate, limits.burst);
        levels := levels[key := next];
        return taken;
      }
      if |levels| >= limits.capacity {
        ForgetIdle(now);
      }
      if |levels| >= limits.capacity {
        untracked := untracked + 1;
        return true;
      }
      var (next, taken) := FullLevel(limits.burst).Take(now, limits.rate, limits.burst);
      levels := levels[key := next];
      granted := taken;
    }
  }

  // ---------------------------------------------------------------------------
  // The table that never forgets

  type Ideal<!K(==)> = map<K, Level>

  function IdealLevel<K(==)>(ideal: Ideal<K>, burst: Count, key: K): Level {
    if key in ideal then ideal[key] else FullLevel(burst)
  }

  function IdealTake<K(==)>(ideal: Ideal<K>, l: Limits, key: K, now: int): (Ideal<K>, bool) {
    var (next, granted) := IdealLevel(ideal, l.burst, key).Take(now, l.rate, l.burst);
    (ideal[key := next], granted)
  }

  datatype Call<K> = Call(key: K, now: int)

  ghost predicate Ordered<K>(since: int, calls: seq<Call<K>>)
    decreases |calls|
  {
    calls == [] || (since <= calls[0].now && Ordered(calls[0].now, calls[1..]))
  }

  /** Call by call, the table answers as the ideal one does; a call it lets
      through uncounted is charged to neither, raises `untracked` by one and is
      one the ideal would have granted too. */
  ghost predicate AnswersAgree<K(!new)>(l: Limits, t: Table<K>, ideal: Ideal<K>, calls: seq<Call<K>>)
    decreases |calls|
  {
    calls == [] || (
      var Call(key, now) := calls[0];
      var (t', answer) := t.TryAcquire(l, key, now);
      var (ideal', granted) := IdealTake(ideal, l, key, now);
      && answer.Granted() == granted
      && |t'.levels| <= l.capacity
      && t'.untracked == t.untracked + (if answer.LetThrough? then 1 else 0)
      && AnswersAgree(l, t', if answer.LetThrough? then ideal else ideal', calls[1..]))
  }

  /** As of `now`, a remembered key's bucket and the ideal one are the same once
      refilled, and a key not remembered has a full ideal bucket. */
  ghost predicate Simulates<K(!new)>(l: Limits, t: Table<K>, ideal: Ideal<K>, now: int) {
    && |t.levels| <= l.capacity
    && (forall k :: Current(l, IdealLevel(ideal, l.burst, k), now))
    && (forall k :: k in t.levels ==>
          Current(l, t.levels[k], now) && SameAsOf(l, t.levels[k], IdealLevel(ideal, l.burst, k), now))
    && (forall k :: k !in t.levels ==> SameAsOf(l, FullLevel(l.burst), IdealLevel(ideal, l.burst, k), now))
  }

  ghost predicate Current(l: Limits, level: Level, now: int) {
    level.Valid(l.burst) && (level.refilledAt.Some? ==> level.refilledAt.value <= now)
  }

  ghost predicate SameAsOf(l: Limits, a: Level, b: Level, now: int) {
    a.Refill(now, l.rate, l.burst) == b.Refill(now, l.rate, l.burst)
  }

  lemma SameLater(l: Limits, a: Level, b: Level, now: int, later: int)
    requires a.Valid(l.burst) && b.Valid(l.burst) && now <= later && SameAsOf(l, a, b, now)
    ensures SameAsOf(l, a, b, later)
  {
    RefillTwice(a, now, later, l.rate, l.burst);
    RefillTwice(b, now, later, l.rate, l.burst);
  }

  lemma StillSimulates<K(!new)>(l: Limits, t: Table<K>, ideal: Ideal<K>, now: int, later: int)
    requires Simulates(l, t, ideal, now) && now <= later
    ensures Simulates(l, t, ideal, later)
  {
    forall k | k in t.levels
      ensures SameAsOf(l, t.levels[k], IdealLevel(ideal, l.burst, k), later)
    {
      SameLater(l, t.levels[k], IdealLevel(ideal, l.burst, k), now, later);
    }
    forall k | k !in t.levels
      ensures SameAsOf(l, FullLevel(l.burst), IdealLevel(ideal, l.burst, k), later)
    {
      SameLater(l, FullLevel(l.burst), IdealLevel(ideal, l.burst, k), now, later);
    }
  }

  /** Forgetting keeps the simulation: only a key whose bucket is full goes, and
      a full bucket is that of a key never seen. */
  lemma ForgettingSimulates<K(!new)>(l: Limits, t: Table<K>, ideal: Ideal<K>, now: int)
    requires Simulates(l, t, ideal, now)
    ensures Simulates(l, t.ForgetIdle(l, now), ideal, now)
    ensures t.ForgetIdle(l, now).levels.Keys <= t.levels.Keys
  {
    var t' := t.ForgetIdle(l, now);
    assert t'.levels.Keys <= t.levels.Keys;
    SubsetSize(t'.levels.Keys, t.levels.Keys);
    if !t.SweptRecently(now) {
      forall k | k in t.levels
        ensures RefilledAlike(l, t.levels[k], IdealLevel(ideal, l.burst, k), now)
      {
        RefillingKeepsAlike(l, t.levels[k], IdealLevel(ideal, l.burst, k), now);
      }
    }
  }

  /** What a sweep makes of a level: the same, refilled; and full only if the
      ideal one is. */
  ghost predicate RefilledAlike(l: Limits, level: Level, ideal: Level, now: int) {
    var refilled := level.Refill(now, l.rate, l.burst);
    && Current(l, refilled, now) && SameAsOf(l, refilled, ideal, now)
    && (refilled.IsFull(l.burst) ==> SameAsOf(l, FullLevel(l.burst), ideal, now))
  }

  lemma RefillingKeepsAlike(l: Limits, level: Level, ideal: Level, now: int)
    requires Current(l, level, now) && SameAsOf(l, level, ideal, now)
    ensures RefilledAlike(l, level, ideal, now)
  {
    RefillKeepsValid(level, now, l.rate, l.burst);
    RefillTwice(level, now, now, l.rate, l.burst);
  }

  lemma SubsetSize<K>(a: set<K>, b: set<K>)
    requires a <= b
    ensures |a| <= |b|
  {
    assert b == a + (b - a);
  }

  lemma ChargingSimulates<K(!new)>(l: Limits, t: Table<K>, ideal: Ideal<K>, key: K, level: Level, now: int)
    requires Simulates(l, t, ideal, now)
    requires Current(l, level, now) && SameAsOf(l, level, IdealLevel(ideal, l.burst, key), now)
    requires key in t.levels || |t.levels| < l.capacity
    ensures var (t', answer) := t.Charge(l, key, level, now);
            var (ideal', granted) := IdealTake(ideal, l, key, now);
            answer == Counted(granted) && Simulates(l, t', ideal', now)
  {
    TakenAlike(l, level, IdealLevel(ideal, l.burst, key), now);
    var t' := t.Charge(l, key, level, now).0;
    var ideal' := IdealTake(ideal, l, key, now).0;
    assert t'.levels.Keys == t.levels.Keys + {key};
    forall k
      ensures Current(l, IdealLevel(ideal', l.burst, k), now)
    {
      assert k != key ==> IdealLevel(ideal', l.burst, k) == IdealLevel(ideal, l.burst, k);
    }
    forall k | k in t'.levels
      ensures Current(l, t'.levels[k], now) && SameAsOf(l, t'.levels[k], IdealLevel(ideal', l.burst, k), now)
    {
      assert k != key ==> t'.levels[k] == t.levels[k];
      assert k != key ==> IdealLevel(ideal', l.burst, k) == IdealLevel(ideal, l.burst, k);
    }
    forall k | k !in t'.levels
      ensures SameAsOf(l, FullLevel(l.burst), IdealLevel(ideal', l.burst, k), now)
    {
      assert IdealLevel(ideal', l.burst, k) == IdealLevel(ideal, l.burst, k);
    }
  }

  /** Two levels that are the same once refilled are the same once asked. */
  lemma TakenAlike(l: Limits, a: Level, b: Level, now: int)
    requires Current(l, a, now) && Current(l, b, now) && SameAsOf(l, a, b, now)
    ensures a.Take(now, l.rate, l.burst) == b.Take(now, l.rate, l.burst)
    ensures Current(l, a.Take(now, l.rate, l.burst).0, now)
  {
    RefillKeepsValid(a, now, l.rate, l.burst);
  }

  /** A call answered with `result`: the answer is the ideal one, and the table
      that is left still simulates the ideal that is left. */
  ghost predicate Agrees<K(!new)>(
    l: Limits, untracked: nat, result: (Table<K>, Answer), ideal: Ideal<K>, key: K, now: int)
  {
    var (t', answer) := result;
    var (ideal', granted) := IdealTake(ideal, l, key, now);
    && answer.Granted() == granted
    && t'.untracked == untracked + (if answer.LetThrough? then 1 else 0)
    && Simulates(l, t', if answer.LetThrough? then ideal else ideal', now)
  }

  lemma NewKeyAgrees<K(!new)>(l: Limits, t: Table<K>, ideal: Ideal<K>, key: K, now: int)
    requires Simulates(l, t, ideal, now) && key !in t.levels
    ensures Agrees(l, t.untracked, t.ChargeNew(l, key, now), ideal, key, now)
  {
    if |t.levels| >= l.capacity {
      TakenAlike(l, FullLevel(l.burst), IdealLevel(ideal, l.burst, key), now);
      RefusedIffEmpty(FullLevel(l.burst), now, l.rate, l.burst);
    } else {
      ChargingSimulates(l, t, ideal, key, FullLevel(l.burst), now);
    }
  }

  lemma CallAgrees<K(!new)>(l: Limits, t: Table<K>, ideal: Ideal<K>, key: K, now: int)
    requires Simulates(l, t, ideal, now)
    ensures Agrees(l, t.untracked, t.TryAcquire(l, key, now), ideal, key, now)
  {
    if key in t.levels {
      ChargingSimulates(l, t, ideal, key, t.levels[key], now);
    } else {
      ForgettingSimulates(l, t, ideal, now);
      NewKeyAgrees(l, if |t.levels| >= l.capacity then t.ForgetIdle(l, now) else t, ideal, key, now);
    }
  }

  /** The bounded table refines the one that never forgets, for every sequence
      of calls whose times do not go back. */
  lemma {:induction false} Refines<K(!new)>(l: Limits, t: Table<K>, ideal: Ideal<K>, since: int, calls: seq<Call<K>>)
    requires Simulates(l, t, ideal, since) && Ordered(since, calls)
    ensures AnswersAgree(l, t, ideal, calls)
    decreases |calls|
  {
    if calls != [] {
      var Call(key, now) := calls[0];
      StillSimulates(l, t, ideal, since, now);
      CallAgrees(l, t, ideal, key, now);
      var (t', answer) := t.TryAcquire(l, key, now);
      var ideal' := IdealTake(ideal, l, key, now).0;
      Refines(l, t', if answer.LetThrough? then ideal else ideal', now, calls[1..]);
    }
  }

  /** From a new table, against an ideal one that has seen no key. */
  lemma NewTableRefines<K(!new)>(l: Limits, calls: seq<Call<K>>)
    requires calls != [] ==> Ordered(calls[0].now, calls)
    ensures AnswersAgree(l, Empty(), map[], calls)
  {
    if calls != [] {
      Refines(l, Empty(), map[], calls[0].now, calls);
    }
  }

  // ---------------------------------------------------------------------------
  // When the table has room, and when time goes back

  ghost predicate AllCounted<K(!new)>(l: Limits, t: Table<K>, calls: seq<Call<K>>)
    decreases |calls|
  {
    calls == [] || (
      var (t', answer) := t.TryAcquire(l, calls[0].key, calls[0].now);
      answer.Counted? && AllCounted(l, t', calls[1..]))
  }

  /** With room for every key, no call goes uncounted, whatever the times. */
  lemma {:induction false} RoomForEveryKey<K(!new)>(l: Limits, t: Table<K>, calls: seq<Call<K>>, keys: set<K>)
    requires t.levels.Keys <= keys && |keys| <= l.capacity
    requires forall i :: 0 <= i < |calls| ==> calls[i].key in keys
    ensures AllCounted(l, t, calls)
    decreases |calls|
  {
    if calls != [] {
      var Call(key, now) := calls[0];
      if key !in t.levels {
        SubsetSize(t.levels.Keys + {key}, keys);
      }
      var t' := t.TryAcquire(l, key, now).0;
      assert t'.levels.Keys <= keys;
      RoomForEveryKey(l, t', calls[1..], keys);
    }
  }

  /** What it takes for forgetting a bucket to go unseen by the next call for
      its key: that by then it had refilled, and its own time was not ahead. */
  lemma ForgottenUnseenIff(l: Limits, level: Level, now: int)
    requires level.Valid(l.burst)
    ensures level.Take(now, l.rate, l.burst) == FullLevel(l.burst).Take(now, l.rate, l.burst)
            <==> level.refilledAt.None?
                 || (level.refilledAt.value <= now && level.units + level.Earned(now, l.rate) >= Full(l.burst))
  {
    RefillKeepsValid(level, now, l.rate, l.burst);
    RefillKeepsValid(FullLevel(l.burst), now, l.rate, l.burst);
  }

  /** So time must not go back: here a key forgotten when full again is asked
      for at an earlier time, and granted what its bucket would refuse. */
  lemma TimeGoingBackShows()
    ensures var l := Limits(1, 1, 2);
            var second := UNITS_PER_PERMIT;
            !AnswersAgree(l, Empty(), map[], [Call(0, 0), Call(1, 0), Call(2, second), Call(0, 0)])
  {
    var l := Limits(1, 1, 2);
    var second := UNITS_PER_PERMIT;
    var spent, later := Level(0, Some(0)), Level(0, Some(second));
    var calls := [Call(0, 0), Call(1, 0), Call(2, second), Call(0, 0)];
    var t1, i1 := Table(map[0 := spent], None, 0), map[0 := spent];
    var t2, i2 := Table(map[0 := spent, 1 := spent], None, 0), map[0 := spent, 1 := spent];
    var t3, i3 := Table(map[2 := later], Some(second), 0), i2[2 := later];
    ForgottenAtTheSecond(l, t2, second);
    RefusedStill(l, i3);
    assert calls[1..][1..] == calls[2..] && calls[2..][1..] == calls[3..];
    assert !AnswersAgree(l, t3, i3, calls[3..]);
    FirstTwoSpent(l, spent);
    DisagreesLater(l, t2, i2, calls[2..], t3, i3);
    DisagreesLater(l, t1, i1, calls[1..], t2, i2);
    DisagreesLater(l, Empty(), map[], calls, t1, i1);
  }

  lemma FirstTwoSpent(l: Limits, spent: Level)
    requires l == Limits(1, 1, 2) && spent == Level(0, Some(0))
    ensures var t := Table(map[0 := spent], None, 0);
            && Empty().TryAcquire(l, 0, 0) == (t, Counted(true))
            && t.TryAcquire(l, 1, 0) == (Table(map[0 := spent, 1 := spent], None, 0), Counted(true))
  {
  }

  lemma DisagreesLater(
    l: Limits, t: Table<int>, ideal: Ideal<int>, calls: seq<Call<int>>, t': Table<int>, ideal': Ideal<int>)
    requires calls != [] && t.TryAcquire(l, calls[0].key, calls[0].now) == (t', Counted(true))
    requires IdealTake(ideal, l, calls[0].key, calls[0].now).0 == ideal' && !AnswersAgree(l, t', ideal', calls[1..])
    ensures !AnswersAgree(l, t, ideal, calls)
  {
  }

  /** A second on, both buckets have refilled and are forgotten, and the first
      key is granted anew. */
  lemma ForgottenAtTheSecond(l: Limits, t: Table<int>, second: int)
    requires l == Limits(1, 1, 2) && second == UNITS_PER_PERMIT
    requires t == Table(map[0 := Level(0, Some(0)), 1 := Level(0, Some(0))], None, 0)
    ensures var swept := Table(map[2 := Level(0, Some(second))], Some(second), 0);
            t.TryAcquire(l, 2, second) == (swept, Counted(true)) && swept.TryAcquire(l, 0, 0).1 == Counted(true)
  {
    assert t.ForgetIdle(l, second) == Table(map[], Some(second), 0);
  }

  lemma RefusedStill(l: Limits, ideal: Ideal<int>)
    requires l == Limits(1, 1, 2) && 0 in ideal && ideal[0] == Level(0, Some(0))
    ensures !IdealTake(ideal, l, 0, 0).1
  {
  }
}

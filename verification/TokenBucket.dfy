/** A bucket that earns permits at a rate and holds at most a burst of them. Times
    are nanoseconds on the caller's clock. */
module TokenBucket {
  import opened Prelude

  const UNITS_PER_PERMIT: nat := 1_000_000_000

  /** A 32-bit count that is not zero. */
  type Count = n: nat | 0 < n < TWO_TO_THE_32 witness 1

  /** The longest a `Duration` can be, in nanoseconds. */
  const MAX_DURATION: nat := TWO_TO_THE_64 * 1_000_000_000 - 1

  function Full(burst: Count): nat {
    burst * UNITS_PER_PERMIT
  }

  /** The time from `since` to `now`, none if `now` is the earlier. */
  function Elapsed(since: int, now: int): nat {
    Max(now - since, 0)
  }

  /** What a bucket holds, in billionths of a permit, and as of when. */
  datatype Level = Level(units: nat, refilledAt: Option<int>) {

    predicate Valid(burst: Count) {
      units <= Full(burst) && (refilledAt.None? ==> units == Full(burst))
    }

    function Earned(now: int, rate: Count): nat {
      if refilledAt.None? then 0 else Elapsed(refilledAt.value, now) * rate
    }

    /** Nothing here overflows: see `RefillFitsItsTypes`. */
    function Refill(now: int, rate: Count, burst: Count): Level {
      var at := if refilledAt.None? || now > refilledAt.value then now else refilledAt.value;
      var sum := units + Earned(now, rate);
      Level(if sum < TWO_TO_THE_64 then Min(sum, Full(burst)) else Full(burst), Some(at))
    }

    /** One permit taken as of `now`, if the refilled level has one. */
    function Take(now: int, rate: Count, burst: Count): (Level, bool) {
      var refilled := Refill(now, rate, burst);
      if refilled.units >= UNITS_PER_PERMIT
      then (refilled.(units := refilled.units - UNITS_PER_PERMIT), true)
      else (refilled, false)
    }

    predicate IsFull(burst: Count) {
      units == Full(burst)
    }
  }

  function FullLevel(burst: Count): Level {
    Level(Full(burst), None)
  }

  /** The bucket, its level updated in place under the source's mutex. */
  class Bucket {
    const rate: Count
    const burst: Count
    var level: Level

    constructor (rate: Count, burst: Count)
      ensures this.rate == rate && this.burst == burst && level == FullLevel(burst)
    {
      this.rate, this.burst := rate, burst;
      level := Level(burst * UNITS_PER_PERMIT, None);
    }

    method Refill(now: int)
      modifies this
      ensures level == old(level).Refill(now, rate, burst)
    {
      var elapsed := if level.refilledAt.None? then 0 else Elapsed(level.refilledAt.value, now);
      if level.refilledAt.None? || now > level.refilledAt.value {
        level := level.(refilledAt := Some(now));
      }
      var units := level.units + elapsed * rate;
      level := level.(units := if units < TWO_TO_THE_64 then Min(units, Full(burst)) else Full(burst));
    }

    method TryAcquire(now: int) returns (granted: bool)
      modifies this
      ensures (level, granted) == old(level).Take(now, rate, burst)
    {
      Refill(now);
      granted := level.units >= UNITS_PER_PERMIT;
      if granted {
        level := level.(units := level.units - UNITS_PER_PERMIT);
      }
    }
  }

  // ---------------------------------------------------------------------------
  // One call

  lemma MulMono(a: nat, b: nat, c: nat)
    requires a <= b
    ensures a * c <= b * c
  {
  }

  /** However long the wait, no intermediate value leaves the integer type the
      source computes it in: 64 bits for a full level, 128 for what is earned. */
  lemma RefillFitsItsTypes(level: Level, now: int, rate: Count, burst: Count)
    requires level.Valid(burst)
    requires level.refilledAt.Some? ==> now - level.refilledAt.value <= MAX_DURATION
    ensures Full(burst) < TWO_TO_THE_64
    ensures level.Earned(now, rate) + level.units < TWO_TO_THE_64 * TWO_TO_THE_64
  {
    if level.refilledAt.Some? {
      var elapsed := Elapsed(level.refilledAt.value, now);
      MulMono(elapsed, MAX_DURATION, rate);
      MulMono(rate, TWO_TO_THE_32, MAX_DURATION);
    }
  }

  lemma RefillKeepsValid(level: Level, now: int, rate: Count, burst: Count)
    requires level.Valid(burst)
    ensures level.Refill(now, rate, burst).Valid(burst)
    ensures level.Take(now, rate, burst).0.Valid(burst)
    ensures level.Refill(now, rate, burst).units == Min(level.units + level.Earned(now, rate), Full(burst))
  {
  }

  /** A call is refused exactly when what the bucket held and what it has
      earned since make less than a permit; so never once a permit's worth of
      time has passed since the bucket's own. */
  lemma RefusedIffEmpty(level: Level, now: int, rate: Count, burst: Count)
    requires level.Valid(burst)
    ensures level.Take(now, rate, burst).1 <==> level.units + level.Earned(now, rate) >= UNITS_PER_PERMIT
    ensures level.refilledAt.None? ==> level.Take(now, rate, burst).1
    ensures level.refilledAt.Some? && Elapsed(level.refilledAt.value, now) * rate >= UNITS_PER_PERMIT ==>
              level.Take(now, rate, burst).1
  {
    assert Full(burst) >= UNITS_PER_PERMIT;
  }

  /** Refilling on the way does not change what a later refill finds. */
  lemma RefillTwice(level: Level, first: int, second: int, rate: Count, burst: Count)
    requires level.Valid(burst) && first <= second
    ensures level.Refill(first, rate, burst).Refill(second, rate, burst) == level.Refill(second, rate, burst)
  {
    var once := level.Refill(first, rate, burst);
    RefillKeepsValid(level, first, rate, burst);
    RefillKeepsValid(level, second, rate, burst);
    RefillKeepsValid(once, second, rate, burst);
    if level.refilledAt.Some? {
      EarnedTwice(level, once, first, second, rate, burst);
    }
  }

  lemma EarnedTwice(level: Level, once: Level, first: int, second: int, rate: Count, burst: Count)
    requires level.Valid(burst) && level.refilledAt.Some? && first <= second && once == level.Refill(first, rate, burst)
    ensures level.Earned(first, rate) + once.Earned(second, rate) == level.Earned(second, rate)
  {
    var since := level.refilledAt.value;
    var a, b := Elapsed(since, first), Elapsed(once.refilledAt.value, second);
    assert Elapsed(since, second) == a + b;
    MulDist(a, b, rate);
  }

  lemma MulDist(a: nat, b: nat, c: nat)
    ensures a * c + b * c == (a + b) * c
  {
  }

  // ---------------------------------------------------------------------------
  // Whole call sequences

  /** The level after calls at `times`, and how many of them were granted. */
  function Calls(level: Level, times: seq<int>, rate: Count, burst: Count): (Level, nat)
    decreases |times|
  {
    if times == [] then (level, 0)
    else
      var (next, granted) := level.Take(times[0], rate, burst);
      var (last, grants) := Calls(next, times[1..], rate, burst);
      (last, grants + if granted then 1 else 0)
  }

  lemma {:induction false} CallsAppend(level: Level, first: seq<int>, second: seq<int>, rate: Count, burst: Count)
    ensures var (mid, before) := Calls(level, first, rate, burst);
            var (end, after) := Calls(mid, second, rate, burst);
            Calls(level, first + second, rate, burst) == (end, before + after)
    decreases |first|
  {
    if first == [] {
      assert first + second == second;
    } else {
      assert (first + second)[0] == first[0] && (first + second)[1..] == first[1..] + second;
      CallsAppend(level.Take(first[0], rate, burst).0, first[1..], second, rate, burst);
    }
  }

  /** When the bucket's time starts, for calls at `times`. */
  function Begun(level: Level, times: seq<int>): int
    requires times != []
  {
    level.refilledAt.GetOr(times[0])
  }

  /** The window bound. Over any calls, their times going back as they may, the
      permits granted are no more than what was held at the start and what the
      advance of the bucket's own time earned; and what was not granted is
      still held, up to the burst. */
  lemma {:induction false} WindowBound(level: Level, times: seq<int>, rate: Count, burst: Count)
    requires level.Valid(burst) && times != []
    ensures var (last, grants) := Calls(level, times, rate, burst);
            && last.Valid(burst) && last.refilledAt.Some?
            && Begun(level, times) <= last.refilledAt.value
            && grants * UNITS_PER_PERMIT + last.units
               <= level.units + rate * (last.refilledAt.value - Begun(level, times))
    decreases |times|
  {
    var next := level.Take(times[0], rate, burst).0;
    RefillKeepsValid(level, times[0], rate, burst);
    var start, mid := Begun(level, times), next.refilledAt.value;
    assert level.Earned(times[0], rate) == rate * (mid - start);
    if |times| > 1 {
      WindowBound(next, times[1..], rate, burst);
      var end := Calls(level, times, rate, burst).0.refilledAt.value;
      assert rate * (mid - start) + rate * (end - mid) == rate * (end - start);
    }
  }

  /** How far the bucket's time can get: to the latest of the calls' times. */
  lemma {:induction false} TimeStaysWithin(level: Level, times: seq<int>, until: int, rate: Count, burst: Count)
    requires times != [] && forall i :: 0 <= i < |times| ==> times[i] <= until
    requires level.refilledAt.Some? ==> level.refilledAt.value <= until
    ensures var last := Calls(level, times, rate, burst).0;
            last.refilledAt.Some? && last.refilledAt.value <= until
    decreases |times|
  {
    if |times| > 1 {
      TimeStaysWithin(level.Take(times[0], rate, burst).0, times[1..], until, rate, burst);
    }
  }

  // ---------------------------------------------------------------------------
  // What a rate promises of a window

  ghost predicate Within(times: seq<int>, from: int, window: nat) {
    forall i :: 0 <= i < |times| ==> from <= times[i] <= from + window
  }

  /** Asking a level first refilled for the first call makes no difference. */
  lemma RefilledFirst(level: Level, times: seq<int>, rate: Count, burst: Count)
    requires level.Valid(burst) && times != []
    ensures Calls(level, times, rate, burst) == Calls(level.Refill(times[0], rate, burst), times, rate, burst)
  {
    RefillTwice(level, times[0], times[0], rate, burst);
  }

  /** The bucket's time moves by no more than the window. */
  lemma AdvanceWithin(level: Level, times: seq<int>, from: int, window: nat, rate: Count, burst: Count)
    requires times != [] && Within(times, from, window)
    requires level.Valid(burst) && level.refilledAt.Some? && level.refilledAt.value >= from
    ensures var last := Calls(level, times, rate, burst).0;
            last.refilledAt.Some? && last.refilledAt.value - level.refilledAt.value <= window
  {
    TimeStaysWithin(level, times, Max(from + window, level.refilledAt.value), rate, burst);
  }

  lemma EarnedWithin(rate: nat, advance: nat, window: nat)
    requires advance <= window
    ensures rate * advance <= rate * window
  {
  }

  /** Whatever a bucket held and whenever it was last asked, calls within a window
      are granted no more than a full bucket and what the window earns. */
  lemma WindowGrants(level: Level, times: seq<int>, from: int, window: nat, rate: Count, burst: Count)
    requires level.Valid(burst) && Within(times, from, window)
    ensures Calls(level, times, rate, burst).1 * UNITS_PER_PERMIT <= Full(burst) + rate * window
  {
    if times != [] {
      var refilled := level.Refill(times[0], rate, burst);
      RefillKeepsValid(level, times[0], rate, burst);
      RefilledFirst(level, times, rate, burst);
      AdvanceWithin(refilled, times, from, window, rate, burst);
      WindowBound(refilled, times, rate, burst);
      var last := Calls(refilled, times, rate, burst).0;
      EarnedWithin(rate, last.refilledAt.value - refilled.refilledAt.value, window);
    }
  }

  /** No bucket of that rate and burst, whatever it held, grants more than `rate`
      of the calls made within `window` of `from`. */
  ghost predicate CapsWindow(rate: Count, from: int, window: nat) {
    forall level: Level, times :: level.Valid(rate) && Within(times, from, window) ==>
      Calls(level, times, rate, rate).1 <= rate
  }

  lemma {:induction false} Drained(level: Level, from: int, n: nat, rate: Count)
    requires level.Valid(rate) && level.units >= n * UNITS_PER_PERMIT
    requires level.refilledAt.Some? ==> level.refilledAt == Some(from)
    ensures var (last, grants) := Calls(level, seq(n, _ => from), rate, rate);
            grants == n && last.units == level.units - n * UNITS_PER_PERMIT
            && (n > 0 ==> last.refilledAt == Some(from))
    decreases n
  {
    if n > 0 {
      assert n * UNITS_PER_PERMIT == (n - 1) * UNITS_PER_PERMIT + UNITS_PER_PERMIT;
      var next := level.Take(from, rate, rate).0;
      assert seq(n, _ => from)[1..] == seq(n - 1, _ => from);
      Drained(next, from, n - 1, rate);
    }
  }

  /** A pool's rate is a bucket whose burst is its rate. That caps a window at
      the rate if and only if the window is too short to earn a permit: over a
      whole second it never does. */
  lemma CapsWindowIffTooShortToEarn(rate: Count, from: int, window: nat)
    ensures CapsWindow(rate, from, window) <==> rate * window < UNITS_PER_PERMIT
    ensures !CapsWindow(rate, from, 1_000_000_000)
  {
    OneMoreThanTheRate(rate, from, window);
    OneMoreThanTheRate(rate, from, 1_000_000_000);
    assert rate * 1_000_000_000 >= UNITS_PER_PERMIT;
    if rate * window < UNITS_PER_PERMIT {
      forall level: Level, times | level.Valid(rate) && Within(times, from, window)
        ensures Calls(level, times, rate, rate).1 <= rate
      {
        WindowGrants(level, times, from, window, rate, rate);
        FewerPermits(Calls(level, times, rate, rate).1, rate);
      }
    }
  }

  lemma FewerPermits(grants: nat, rate: nat)
    requires grants * UNITS_PER_PERMIT < (rate + 1) * UNITS_PER_PERMIT
    ensures grants <= rate
  {
  }

  lemma FullThenEmpty(rate: Count, from: int)
    ensures var (empty, grants) := Calls(FullLevel(rate), seq(rate, _ => from), rate, rate);
            empty == Level(0, Some(from)) && grants == rate
  {
    Drained(FullLevel(rate), from, rate, rate);
  }

  lemma OneMoreThanTheRate(rate: Count, from: int, window: nat)
    ensures rate * window >= UNITS_PER_PERMIT ==> !CapsWindow(rate, from, window)
  {
    if rate * window >= UNITS_PER_PERMIT {
      var burst := seq(rate, _ => from);
      FullThenEmpty(rate, from);
      EarnsOneMore(rate, from, window);
      CallsAppend(FullLevel(rate), burst, [from + window], rate, rate);
      assert Within(burst + [from + window], from, window);
      assert FullLevel(rate).Valid(rate);
    }
  }

  lemma EarnsOneMore(rate: Count, from: int, window: nat)
    requires rate * window >= UNITS_PER_PERMIT
    ensures Calls(Level(0, Some(from)), [from + window], rate, rate).1 == 1
  {
    RefusedIffEmpty(Level(0, Some(from)), from + window, rate, rate);
  }

  /** Twice the rate is the most any second admits, whatever came before it, and a
      second on a quiet pool can admit as many. */
  lemma SecondAdmitsAtMostTwice(level: Level, rate: Count, from: int, times: seq<int>)
    requires level.Valid(rate) && Within(times, from, 1_000_000_000)
    ensures Calls(level, times, rate, rate).1 <= 2 * rate
    ensures exists all :: Within(all, from, 1_000_000_000) && Calls(FullLevel(rate), all, rate, rate).1 == 2 * rate
  {
    WindowGrants(level, times, from, 1_000_000_000, rate, rate);
    FewerPermits(Calls(level, times, rate, rate).1, 2 * rate);
    var again := from + 1_000_000_000;
    var first, second := seq(rate, _ => from), seq(rate, _ => again);
    FullThenEmpty(rate, from);
    RefilledInASecond(rate, from);
    CallsAppend(FullLevel(rate), first, second, rate, rate);
    assert Within(first + second, from, 1_000_000_000);
  }

  lemma RefilledInASecond(rate: Count, from: int)
    ensures var again := from + 1_000_000_000;
            Calls(Level(0, Some(from)), seq(rate, _ => again), rate, rate).1 == rate
  {
    var again := from + 1_000_000_000;
    var empty, times := Level(0, Some(from)), seq(rate, _ => again);
    RefilledFirst(empty, times, rate, rate);
    RefillKeepsValid(empty, again, rate, rate);
    Drained(empty.Refill(again, rate, rate), again, rate, rate);
  }
}

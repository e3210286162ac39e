/** What holds of a served connection over whole runs of its loop: what its
    timers may do, and how long it can last. */
module Lifetime {
  import opened Prelude
  import opened Division
  import opened Activity
  import opened Serve

  // ---------------------------------------------------------------------------
  // Over every run, however late the runtime is

  /** What every turn of the loop keeps. */
  ghost predicate Inv(o: Options, w: World) {
    && w.activity.headerTimeout == o.headerTimeout
    && w.activity.idleTimeout == o.idleTimeout
    && w.activity.acceptedAt <= w.lastEnd <= w.now
    && w.activity.inFlight <= w.activity.requests
    && (w.Idle() ==> w.activity.idleSinceMs == WholeMillis(w.lastEnd - w.activity.acceptedAt))
    && w.shutdowns == (if w.shutDownFor.Some? then 1 else 0)
    && (w.shutDownFor.Some? ==> w.shutDownFor.value in {Drain, IdleClose})
    && (w.shutDownFor == Some(IdleClose) ==> w.activity.requests > 0)
    && (w.leaveBy.Some? ==> w.draining)
    && (w.draining && w.shutDownFor.None? ==> w.leaveBy.Some? && w.watchdog <= w.leaveBy.value)
  }

  lemma StartInv(o: Options, acceptedAt: int, armedAt: int)
    requires acceptedAt <= armedAt
    ensures Inv(o, Start(o, acceptedAt, armedAt))
  {
  }

  lemma StepInv(o: Options, w: World, e: Timed)
    requires Inv(o, w) && CanHappen(w, e)
    ensures Inv(o, Step(o, w, e).world)
    ensures ShutDownKept(w, Step(o, w, e).world)
  {
    match e.event
    case RequestBegins(_) =>
    case RequestEnds =>
    case ResponseReady(_, _) =>
    case DrainSeen(drainingNow) => DrainInv(o, w.(now := e.time), e.time, drainingNow);
    case WatchdogFires => WatchdogInv(o, w.(now := e.time), e.time);
    case ConnectionEnds(_) =>
  }

  lemma DrainInv(o: Options, w: World, time: int, drainingNow: bool)
    requires Inv(o, w) && !w.draining
    ensures Inv(o, OnDrain(o, w, time, drainingNow))
    ensures ShutDownKept(w, OnDrain(o, w, time, drainingNow))
  {
  }

  lemma WatchdogInv(o: Options, w: World, time: int)
    requires Inv(o, w)
    ensures Inv(o, OnWatchdog(w, time).world)
    ensures ShutDownKept(w, OnWatchdog(w, time).world)
  {
    AskInv(o, w, time);
    VerdictInv(o, AskToLeave(w, time), time);
  }

  lemma AskInv(o: Options, w: World, time: int)
    requires Inv(o, w)
    ensures Inv(o, AskToLeave(w, time)) && ShutDownKept(w, AskToLeave(w, time))
  {
  }

  lemma VerdictInv(o: Options, w: World, time: int)
    requires Inv(o, w)
    ensures Inv(o, OnVerdict(w, time).world) && ShutDownKept(w, OnVerdict(w, time).world)
  {
  }

  /** The connection is asked to shut down at most once, and what it was asked
      for never changes. */
  ghost predicate ShutDownKept(before: World, after: World) {
    && after.shutdowns <= 1
    && (before.shutDownFor.Some? ==> after.shutDownFor == before.shutDownFor)
    && before.activity.requests <= after.activity.requests
    && (before.draining ==> after.draining && (before.leaveBy.Some? ==> after.leaveBy == before.leaveBy))
  }

  lemma {:induction false} RunKeepsShutDown(o: Options, w: World, events: seq<Timed>)
    requires Inv(o, w) && Legal(o, w, events)
    ensures Inv(o, Run(o, w, events).world)
    ensures ShutDownKept(w, Run(o, w, events).world)
    decreases |events|
  {
    if events != [] {
      StepInv(o, w, events[0]);
      var next := Step(o, w, events[0]);
      if next.Serving? {
        RunKeepsShutDown(o, next.world, events[1..]);
      }
    }
  }

  /** The watchdog is always armed again strictly in the future, and never past
      the end of a drain's grace that nothing has ended yet. */
  lemma RearmedAhead(o: Options, w: World, time: int)
    requires o.Valid() && Inv(o, w) && CanHappen(w, At(time, WatchdogFires))
    ensures var next := Step(o, w, At(time, WatchdogFires));
            next.Serving? ==>
              && time < next.world.watchdog
              && (next.world.leaveBy.Some? && next.world.shutDownFor.None? ==>
                    next.world.watchdog <= next.world.leaveBy.value)
  {
  }

  /** A timer closes a connection only with no request in flight, and only
      when what it is closed for is due: the header timeout exactly, the idle
      timeout to within the millisecond its start is kept in (as long as that
      start fits 64 bits of milliseconds), and an idle one only after asking. */
  ghost predicate TimerExitIsDue(o: Options, end: Outcome)
    requires end.Ended?
  {
    var w := end.world;
    && w.activity.inFlight == 0
    && (|| (end.reason == HeaderClose && w.activity.requests == 0
            && w.activity.acceptedAt + o.headerTimeout <= w.now)
        || (end.reason == IdleClose && w.activity.requests > 0 && w.shutdowns == 1
            && (|| w.lastEnd + o.idleTimeout - NANOS_PER_MS < w.now
                || w.lastEnd - w.activity.acceptedAt >= TWO_TO_THE_64 * NANOS_PER_MS)))
  }

  lemma {:induction false} TimersCloseOnlyWhatIsDue(o: Options, w: World, events: seq<Timed>)
    requires Inv(o, w) && Legal(o, w, events)
    ensures var end := Run(o, w, events); end.Ended? && end.byTimer ==> TimerExitIsDue(o, end)
    decreases |events|
  {
    if events != [] {
      StepInv(o, w, events[0]);
      var next := Step(o, w, events[0]);
      if next.Serving? {
        TimersCloseOnlyWhatIsDue(o, next.world, events[1..]);
      } else if next.byTimer {
        WatchdogExitIsDue(o, w, events[0]);
      }
    }
  }

  lemma WatchdogExitIsDue(o: Options, w: World, e: Timed)
    requires Inv(o, w) && CanHappen(w, e) && Step(o, w, e).Ended? && Step(o, w, e).byTimer
    ensures TimerExitIsDue(o, Step(o, w, e))
  {
    var end := Step(o, w, e);
    assert e.event == WatchdogFires;
    assert end.world.activity == w.activity && end.world.lastEnd == w.lastEnd;
    if w.activity.requests > 0 {
      var elapsed := w.lastEnd - w.activity.acceptedAt;
      var ms := WholeMillis(elapsed);
      assert w.activity.IdleDeadline() <= e.time;
      if elapsed < TWO_TO_THE_64 * NANOS_PER_MS {
        assert elapsed < (ms + 1) * NANOS_PER_MS;
      }
    }
  }

  // ---------------------------------------------------------------------------
  // With a watchdog that fires when it is due

  /** Nothing happens after the watchdog's deadline before it fires, so it fires
      exactly then. */
  ghost predicate Punctual(o: Options, w: World, events: seq<Timed>)
    requires Legal(o, w, events)
    decreases |events|
  {
    events == [] || (
      && events[0].time <= w.watchdog
      && var next := Step(o, w, events[0]);
         next.Serving? ==> Punctual(o, next.world, events[1..]))
  }

  /** By when a connection that has had no request is closed: `header_timeout`
      from when it is served, as far as the timer armed for it allows. */
  function HeaderBound(o: Options, acceptedAt: int, armedAt: int): (bound: int)
    ensures acceptedAt <= armedAt ==> bound <= armedAt + o.headerTimeout
  {
    Max(acceptedAt + o.headerTimeout, armedAt + Min(o.headerTimeout, o.idleTimeout))
  }

  /** By when `w` will have been closed if no request begins any more. */
  function ClosedBy(o: Options, w: World, headerBound: int): int {
    if w.activity.requests == 0 then headerBound
    else (if w.activity.inFlight == 0 then w.lastEnd else w.now) + o.idleTimeout + CLOSE_GRACE
  }

  /** Since when the connection has had nothing in flight, for all it knows. */
  function QuietSince(w: World): int {
    if w.Idle() then w.lastEnd else w.now
  }

  /** The latest the watchdog can be armed for. */
  function LatestCheck(o: Options, w: World): int {
    QuietSince(w) + o.idleTimeout + (if w.shutDownFor == Some(IdleClose) then CLOSE_GRACE else 0)
  }

  ghost predicate Armed(o: Options, w: World, headerBound: int) {
    && w.now <= w.watchdog <= LatestCheck(o, w)
    && (w.activity.requests == 0 ==> w.watchdog <= headerBound)
  }

  ghost predicate TimelyInv(o: Options, w: World, headerBound: int) {
    && Inv(o, w)
    && Armed(o, w, headerBound)
    && w.activity.acceptedAt + o.headerTimeout <= headerBound
  }

  lemma StepTimely(o: Options, w: World, e: Timed, headerBound: int)
    requires o.Valid() && TimelyInv(o, w, headerBound) && CanHappen(w, e) && e.time <= w.watchdog
    ensures var next := Step(o, w, e);
            && next.world.now <= ClosedBy(o, next.world, headerBound)
            && (next.Serving? ==> TimelyInv(o, next.world, headerBound))
  {
    StepInv(o, w, e);
    if e.event.WatchdogFires? {
      WatchdogArmed(o, w, e.time, headerBound);
    } else {
      OtherArmed(o, w, e, headerBound);
    }
  }

  lemma OtherArmed(o: Options, w: World, e: Timed, headerBound: int)
    requires o.Valid() && Inv(o, w) && Armed(o, w, headerBound) && CanHappen(w, e) && e.time <= w.watchdog
    requires !e.event.WatchdogFires?
    ensures Armed(o, Step(o, w, e).world, headerBound)
    ensures Step(o, w, e).world.activity.acceptedAt == w.activity.acceptedAt
  {
  }

  lemma WatchdogArmed(o: Options, w: World, time: int, headerBound: int)
    requires o.Valid() && TimelyInv(o, w, headerBound) && time == w.watchdog
    ensures var next := OnWatchdog(w.(now := time), time);
            && next.world.now == time <= ClosedBy(o, next.world, headerBound)
            && next.world.activity == w.activity
            && (next.Serving? ==> Armed(o, next.world, headerBound))
  {
    var asked := AskToLeave(w.(now := time), time);
    AskInv(o, w.(now := time), time);
    assert TimelyInv(o, asked, headerBound);
    VerdictArmed(o, asked, time, headerBound);
  }

  lemma VerdictArmed(o: Options, w: World, time: int, headerBound: int)
    requires o.Valid() && TimelyInv(o, w, headerBound) && time == w.watchdog == w.now
    ensures var next := OnVerdict(w, time);
            && next.world.now == time <= ClosedBy(o, next.world, headerBound)
            && next.world.activity == w.activity
            && (next.Serving? ==> Armed(o, next.world, headerBound))
  {
    if w.Idle() {
      assert w.activity.IdleDeadline() <= w.lastEnd + o.idleTimeout;
    }
  }

  /** Bounded lifetime. In every punctual run a connection whose last request
      ended at `e`, with none begun since, is over by `e + idle_timeout +
      CLOSE_GRACE`, and one that never had a request by `header_timeout` after
      serving began, drained or not: whatever the run's last event was, it was
      no later, and neither is the watchdog that comes next. */
  lemma {:induction false} BoundedLifetime(o: Options, acceptedAt: int, armedAt: int, events: seq<Timed>)
    requires o.Valid() && acceptedAt <= armedAt
    requires var w := Start(o, acceptedAt, armedAt); Legal(o, w, events) && Punctual(o, w, events)
    ensures var end := Run(o, Start(o, acceptedAt, armedAt), events);
            var bound := ClosedBy(o, end.world, HeaderBound(o, acceptedAt, armedAt));
            && end.world.now <= bound
            && (end.Serving? ==> end.world.watchdog <= bound)
  {
    var w := Start(o, acceptedAt, armedAt);
    var headerBound := HeaderBound(o, acceptedAt, armedAt);
    StartInv(o, acceptedAt, armedAt);
    RunTimely(o, w, events, headerBound);
  }

  lemma {:induction false} RunTimely(o: Options, w: World, events: seq<Timed>, headerBound: int)
    requires o.Valid() && TimelyInv(o, w, headerBound) && Legal(o, w, events) && Punctual(o, w, events)
    ensures var end := Run(o, w, events);
            && end.world.now <= ClosedBy(o, end.world, headerBound)
            && (end.Serving? ==> TimelyInv(o, end.world, headerBound))
    decreases |events|
  {
    if events != [] {
      StepTimely(o, w, events[0], headerBound);
      var next := Step(o, w, events[0]);
      if next.Serving? {
        RunTimely(o, next.world, events[1..], headerBound);
      }
    }
  }

  function Fires(events: seq<Timed>): nat {
    if events == [] then 0 else (if events[0].event.WatchdogFires? then 1 else 0) + Fires(events[1..])
  }

  ghost predicate NoRequestBegins(events: seq<Timed>) {
    forall i :: 0 <= i < |events| ==> !events[i].event.RequestBegins?
  }

  /** How often the watchdog can still fire on an idle connection: to reach the
      idle deadline, to ask for a drain, to ask for idleness, to close. */
  function Rank(w: World): (rank: nat)
    ensures rank <= 5
  {
    var early := w.watchdog < w.activity.IdleDeadline();
    if w.shutDownFor.Some? then (if early then 2 else 1)
    else if !w.draining then (if early then 5 else 4)
    else if early && w.now < w.leaveBy.GetOr(w.now) && w.watchdog < w.leaveBy.GetOr(w.now) then 3
    else 2
  }

  lemma StepLowersRank(o: Options, w: World, e: Timed)
    requires o.Valid() && Inv(o, w) && w.Idle() && CanHappen(w, e) && !e.event.RequestBegins?
    ensures var next := Step(o, w, e);
            next.Serving? ==>
              next.world.Idle() && Rank(next.world) <= Rank(w) - (if e.event.WatchdogFires? then 1 else 0)
  {
  }

  /** The loop does end. Whatever else happens on an idle connection, as long
      as no request begins, the watchdog fires at most five times before the
      connection is over; punctually, that is by `ClosedBy`. */
  lemma {:induction false} IdleConnectionEnds(o: Options, w: World, events: seq<Timed>)
    requires o.Valid() && Inv(o, w) && w.Idle() && Legal(o, w, events) && NoRequestBegins(events)
    ensures Run(o, w, events).Serving? ==> Fires(events) < Rank(w)
    decreases |events|
  {
    if events != [] {
      StepInv(o, w, events[0]);
      StepLowersRank(o, w, events[0]);
      var next := Step(o, w, events[0]);
      if next.Serving? {
        IdleConnectionEnds(o, next.world, events[1..]);
      }
    }
  }

  // A connection without a request is looked at once every idle timeout until
  // its header deadline, and once or twice more for a drain.

  /** How many laps it takes to cover `gap`. */
  function Laps(gap: int, lap: nat): nat
    requires lap > 0
    decreases if gap > 0 then gap else 0
  {
    if gap <= 0 then 0 else 1 + Laps(gap - lap, lap)
  }

  lemma {:induction false} LapsMono(a: int, b: int, lap: nat)
    requires lap > 0 && a <= b
    ensures Laps(a, lap) <= Laps(b, lap)
    decreases if a > 0 then a else 0
  {
    if a > 0 {
      LapsMono(a - lap, b - lap, lap);
    }
  }

  lemma {:induction false} LapsWithin(gap: int, lap: nat)
    requires lap > 0
    ensures Laps(gap, lap) * lap <= Max(gap + lap - 1, 0)
    decreases if gap > 0 then gap else 0
  {
    if gap > 0 {
      LapsWithin(gap - lap, lap);
      assert Laps(gap, lap) * lap == Laps(gap - lap, lap) * lap + lap;
    }
  }

  function ToHeaderDeadline(o: Options, w: World): int {
    w.activity.acceptedAt + o.headerTimeout - w.watchdog
  }

  /** The firings a drain can still add: one to come to its deadline, and two laps
      that are cut short. */
  function DrainFirings(w: World): nat {
    if w.shutDownFor.Some? then 0
    else if !w.draining then 3
    else if w.leaveBy == Some(w.watchdog) then 1
    else 2
  }

  function SilentRank(o: Options, w: World): nat
    requires o.idleTimeout > 0
  {
    1 + Laps(ToHeaderDeadline(o, w), o.idleTimeout) + DrainFirings(w)
  }

  ghost predicate Silent(o: Options, w: World) {
    Inv(o, w) && w.activity.requests == 0 && w.watchdog <= w.now + o.idleTimeout
  }

  lemma StepLowersSilentRank(o: Options, w: World, e: Timed)
    requires o.Valid() && Silent(o, w) && CanHappen(w, e) && !e.event.RequestBegins?
    ensures var next := Step(o, w, e);
            next.Serving? ==>
              && Silent(o, next.world)
              && SilentRank(o, next.world) <= SilentRank(o, w) - (if e.event.WatchdogFires? then 1 else 0)
  {
    StepInv(o, w, e);
    match e.event
    case WatchdogFires => FiringLowersSilentRank(o, w, e.time);
    case DrainSeen(drainingNow) => DrainLowersSilentRank(o, w, e.time, drainingNow);
    case _ =>
  }

  lemma DrainLowersSilentRank(o: Options, w: World, time: int, drainingNow: bool)
    requires o.Valid() && Silent(o, w) && CanHappen(w, At(time, DrainSeen(drainingNow)))
    ensures var next := OnDrain(o, w.(now := time), time, drainingNow);
            SilentRank(o, next) <= SilentRank(o, w) && next.watchdog <= time + o.idleTimeout
  {
    var next := OnDrain(o, w.(now := time), time, drainingNow);
    LapsMono(ToHeaderDeadline(o, next), ToHeaderDeadline(o, w) + o.idleTimeout, o.idleTimeout);
  }

  lemma FiringLowersSilentRank(o: Options, w: World, time: int)
    requires o.Valid() && Silent(o, w) && CanHappen(w, At(time, WatchdogFires))
    ensures var next := OnWatchdog(w.(now := time), time);
            next.Serving? ==>
              SilentRank(o, next.world) < SilentRank(o, w) && next.world.watchdog <= time + o.idleTimeout
  {
    var next := OnWatchdog(w.(now := time), time);
    if next.Serving? {
      var gap := ToHeaderDeadline(o, w);
      LapsMono(ToHeaderDeadline(o, next.world), gap, o.idleTimeout);
      if next.world.watchdog >= Min(w.activity.acceptedAt + o.headerTimeout, time + o.idleTimeout) {
        LapsMono(ToHeaderDeadline(o, next.world), Max(gap - o.idleTimeout, 0), o.idleTimeout);
      }
    }
  }

  lemma {:induction false} SilentFirings(o: Options, w: World, events: seq<Timed>)
    requires o.Valid() && Silent(o, w) && Legal(o, w, events) && NoRequestBegins(events)
    ensures Run(o, w, events).Serving? ==> Fires(events) < SilentRank(o, w)
    decreases |events|
  {
    if events != [] {
      StepLowersSilentRank(o, w, events[0]);
      var next := Step(o, w, events[0]);
      if next.Serving? {
        SilentFirings(o, next.world, events[1..]);
      }
    }
  }

  /** The same for a connection that never has a request, however late the
      watchdog: it survives at most as many firings as idle timeouts fit in its
      header timeout, and three more. */
  lemma SilentConnectionEnds(o: Options, acceptedAt: int, armedAt: int, events: seq<Timed>)
    requires o.Valid() && acceptedAt <= armedAt
    requires Legal(o, Start(o, acceptedAt, armedAt), events) && NoRequestBegins(events)
    ensures Run(o, Start(o, acceptedAt, armedAt), events).Serving? ==>
              Fires(events) <= o.headerTimeout / o.idleTimeout + 3
  {
    var w := Start(o, acceptedAt, armedAt);
    SilentFirings(o, w, events);
    var gap := o.headerTimeout - Min(o.headerTimeout, o.idleTimeout);
    LapsMono(ToHeaderDeadline(o, w), gap, o.idleTimeout);
    LapsWithin(gap, o.idleTimeout);
    if gap > 0 {
      AtMostQuotient(Laps(gap, o.idleTimeout), o.idleTimeout, o.headerTimeout);
    }
  }

  /** Draining asks a connection to go no later than its grace allows: in a
      punctual run, until it has been it is no later than that, and the watchdog
      that fires then asks it. */
  lemma {:induction false} AskedToLeaveByTheGrace(o: Options, acceptedAt: int, armedAt: int, events: seq<Timed>)
    requires o.Valid() && acceptedAt <= armedAt
    requires var w := Start(o, acceptedAt, armedAt); Legal(o, w, events) && Punctual(o, w, events)
    ensures var end := Run(o, Start(o, acceptedAt, armedAt), events);
            end.Serving? && end.world.draining && end.world.shutDownFor.None? ==>
              && end.world.leaveBy.Some?
              && end.world.now <= end.world.watchdog <= end.world.leaveBy.value
              && Step(o, end.world, At(end.world.leaveBy.value, WatchdogFires)).world.shutDownFor.Some?
  {
    var w := Start(o, acceptedAt, armedAt);
    StartInv(o, acceptedAt, armedAt);
    RunTimely(o, w, events, HeaderBound(o, acceptedAt, armedAt));
  }
}

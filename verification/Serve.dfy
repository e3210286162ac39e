/** What a connection's timers go by: how many requests it has had, how many it has
    now, and since when none. Times are nanoseconds on tokio's clock. */
module Activity {
  import opened Prelude

  const NANOS_PER_MS: nat := 1_000_000

  datatype Verdict = HeaderTimeout | IdleTimeout | CheckAgainAt(at: int)

  /** What a connection's activity record holds at one moment. */
  datatype Facts = Facts(
    acceptedAt: int,
    headerTimeout: nat,
    idleTimeout: nat,
    requests: nat,
    inFlight: nat,
    idleSinceMs: nat)
  {
    function Begun(): Facts {
      this.(requests := requests + 1, inFlight := inFlight + 1)
    }

    /** The guard of one request is dropped at `now`, as one step. */
    function Ended(now: int): Facts
      requires inFlight > 0
    {
      this.(idleSinceMs := WholeMillis(now - acceptedAt), inFlight := inFlight - 1)
    }

    /** When, by the record, the connection has been idle for too long. */
    function IdleDeadline(): int {
      acceptedAt + idleSinceMs * NANOS_PER_MS + idleTimeout
    }

    function VerdictAt(now: int): Verdict {
      if requests == 0 then
        var deadline := acceptedAt + headerTimeout;
        if now < deadline then CheckAgainAt(Min(deadline, now + idleTimeout)) else HeaderTimeout
      else if inFlight > 0 then
        CheckAgainAt(now + idleTimeout)
      else if now < IdleDeadline() then
        CheckAgainAt(IdleDeadline())
      else
        IdleTimeout
    }
  }

  /** `elapsed` in whole milliseconds: a negative one is zero, and a 64-bit
      counter that would overflow stays at its largest value. */
  function WholeMillis(elapsed: int): (ms: nat)
    ensures elapsed >= 0 ==> ms * NANOS_PER_MS <= elapsed
    ensures 0 <= elapsed < TWO_TO_THE_64 * NANOS_PER_MS ==> elapsed < (ms + 1) * NANOS_PER_MS
  {
    if elapsed < 0 then 0 else Min(elapsed / NANOS_PER_MS, TWO_TO_THE_64 - 1)
  }

  class ConnActivity {
    const acceptedAt: int
    const headerTimeout: nat
    const idleTimeout: nat
    var requests: nat
    var inFlight: nat
    var idleSinceMs: nat

    constructor (acceptedAt: int, headerTimeout: nat, idleTimeout: nat)
      ensures Value() == Facts(acceptedAt, headerTimeout, idleTimeout, 0, 0, 0)
    {
      this.acceptedAt := acceptedAt;
      this.headerTimeout := headerTimeout;
      this.idleTimeout := idleTimeout;
      requests, inFlight, idleSinceMs := 0, 0, 0;
    }

    function Value(): Facts
      reads this
    {
      Facts(acceptedAt, headerTimeout, idleTimeout, requests, inFlight, idleSinceMs)
    }

    method BeginRequest()
      modifies this
      ensures Value() == old(Value()).Begun()
    {
      requests := requests + 1;
      inFlight := inFlight + 1;
    }

    /** `RequestGuard::drop` at `now`. */
    method EndRequest(now: int)
      requires inFlight > 0
      modifies this
      ensures Value() == old(Value()).Ended(now)
    {
      idleSinceMs := WholeMillis(now - acceptedAt);
      inFlight := inFlight - 1;
    }

    method Check(now: int) returns (verdict: Verdict)
      ensures verdict == Value().VerdictAt(now)
    {
      var deadline;
      if requests == 0 {
        deadline := acceptedAt + headerTimeout;
      } else if inFlight > 0 {
        return CheckAgainAt(now + idleTimeout);
      } else {
        deadline := acceptedAt + idleSinceMs * NANOS_PER_MS + idleTimeout;
      }
      if now < deadline && requests == 0 {
        verdict := CheckAgainAt(Min(deadline, now + idleTimeout));
      } else if now < deadline {
        verdict := CheckAgainAt(deadline);
      } else if requests == 0 {
        verdict := HeaderTimeout;
      } else {
        verdict := IdleTimeout;
      }
    }
  }
}

/** Serving one connection until it ends: the select loop over what the
    connection, the drain channel and the watchdog timer report. */
module Serve {
  import opened Prelude
  import opened Activity

  /** What an idle connection is given between being asked to go and being cut. */
  const CLOSE_GRACE: nat := 5_000_000_000

  const MIN_HEADER_BYTES: nat := 8192

  datatype Options = Options(
    headerTimeout: nat,
    idleTimeout: nat,
    keepAliveTimeout: nat,
    drainIdleGrace: nat,
    maxHeaderBytes: nat,
    maxConcurrentStreams: nat)
  {
    predicate Valid() {
      && headerTimeout > 0
      && idleTimeout > 0
      && keepAliveTimeout > 0
      && drainIdleGrace > 0
      && maxHeaderBytes >= MIN_HEADER_BYTES
      && maxConcurrentStreams > 0
    }
  }

  datatype CloseReason =
    | Closed | Drain | IdleClose | HeaderClose | ClientAbort | ClientUnresponsive | ProtocolError | Error

  /** How hyper's connection future can resolve. `cancelled` marks the error it
      gives when shut down with no byte of a protocol seen. */
  datatype ConnResult =
    | Finished
    | Failed(cancelled: bool, kind: ErrorKind)

  datatype ErrorKind = TimedOut | Unparsable | Incomplete | Reset | TransportTimedOut | OtherError

  function ErrorCloseReason(kind: ErrorKind, http2: bool): CloseReason {
    match kind
    case TimedOut => if http2 then ClientUnresponsive else IdleClose
    case Unparsable => ProtocolError
    case Incomplete => ClientAbort
    case Reset => ClientAbort
    case TransportTimedOut => ClientUnresponsive
    case OtherError => Error
  }

  datatype Event =
    | RequestBegins(isHttp2: bool)
    | RequestEnds
    /** A handler's response is ready while the drain channel reads `channelDraining`. */
    | ResponseReady(isHttp1: bool, channelDraining: bool)
    /** The drain branch runs and finds the channel closed or reading `drainingNow`. */
    | DrainSeen(drainingNow: bool)
    | WatchdogFires
    | ConnectionEnds(result: ConnResult)

  datatype Timed = At(time: int, event: Event)

  /** The loop's variables, and what an observer of the connection would have
      noted: the time of the last event, when the last request to end did, and
      how often the connection was asked to shut down gracefully. */
  datatype World = World(
    activity: Facts,
    watchdog: int,
    shutDownFor: Option<CloseReason>,
    draining: bool,
    leaveBy: Option<int>,
    toldToClose: bool,
    http2: bool,
    now: int,
    lastEnd: int,
    shutdowns: nat)
  {
    predicate Idle() {
      activity.requests > 0 && activity.inFlight == 0
    }

    predicate Asked(time: int) {
      shutDownFor.None? && leaveBy.Some? && time >= leaveBy.value
    }
  }

  datatype Outcome =
    | Serving(world: World)
    | Ended(world: World, reason: CloseReason, byTimer: bool)

  /** The loop's variables as it is entered: serving is accounted from
      `acceptedAt`, and the watchdog armed at `armedAt`, no earlier. */
  function Start(o: Options, acceptedAt: int, armedAt: int): World {
    World(
      Facts(acceptedAt, o.headerTimeout, o.idleTimeout, 0, 0, 0),
      armedAt + Min(o.headerTimeout, o.idleTimeout),
      None, false, None, false, false, armedAt, armedAt, 0)
  }

  function OnDrain(o: Options, w: World, time: int, drainingNow: bool): World {
    var w := w.(draining := drainingNow);
    if drainingNow && w.shutDownFor.None? then
      if w.activity.inFlight > 0 then
        w.(shutDownFor := Some(Drain), shutdowns := w.shutdowns + 1)
      else
        var deadline := time + o.drainIdleGrace;
        w.(leaveBy := Some(deadline), watchdog := Min(deadline, w.watchdog))
    else
      w
  }

  function Rearmed(w: World, nextCheck: int): World {
    w.(watchdog :=
      if w.leaveBy.Some? && w.shutDownFor.None? then Min(nextCheck, w.leaveBy.value) else nextCheck)
  }

  /** A connection whose drain's grace has run out is asked to leave. */
  function AskToLeave(w: World, time: int): World {
    if w.Asked(time) then w.(shutDownFor := Some(Drain), shutdowns := w.shutdowns + 1) else w
  }

  function OnWatchdog(w: World, time: int): Outcome {
    OnVerdict(AskToLeave(w, time), time)
  }

  function OnVerdict(w: World, time: int): Outcome {
    match w.activity.VerdictAt(time)
    case CheckAgainAt(at) => Serving(Rearmed(w, at))
    case IdleTimeout =>
      if w.shutDownFor.None? then
        Serving(Rearmed(w.(shutDownFor := Some(IdleClose), shutdowns := w.shutdowns + 1), time + CLOSE_GRACE))
      else
        Ended(w, IdleClose, true)
    case HeaderTimeout => Ended(w, HeaderClose, true)
  }

  function EndReason(w: World, result: ConnResult): CloseReason {
    match result
    case Finished =>
      if w.toldToClose then Drain else if w.shutDownFor.Some? then w.shutDownFor.value else Closed
    case Failed(cancelled, kind) =>
      if w.shutDownFor.Some? && cancelled then w.shutDownFor.value else ErrorCloseReason(kind, w.http2)
  }

  /** What can happen next: time does not go back, only a request in flight
      ends, the drain branch is off once draining, and the watchdog fires at
      its deadline or, when the runtime is late, after it. */
  predicate CanHappen(w: World, e: Timed) {
    && w.now <= e.time
    && (e.event.RequestEnds? ==> w.activity.inFlight > 0)
    && (e.event.DrainSeen? ==> !w.draining)
    && (e.event.WatchdogFires? ==> w.watchdog <= e.time)
  }

  function Step(o: Options, w: World, e: Timed): Outcome
    requires CanHappen(w, e)
  {
    var w := w.(now := e.time);
    match e.event
    case RequestBegins(isHttp2) => Serving(w.(activity := w.activity.Begun(), http2 := w.http2 || isHttp2))
    case RequestEnds => Serving(w.(activity := w.activity.Ended(e.time), lastEnd := e.time))
    case ResponseReady(isHttp1, channelDraining) =>
      Serving(w.(toldToClose := w.toldToClose || (isHttp1 && channelDraining)))
    case DrainSeen(drainingNow) => Serving(OnDrain(o, w, e.time, drainingNow))
    case WatchdogFires => OnWatchdog(w, e.time)
    case ConnectionEnds(result) => Ended(w, EndReason(w, result), false)
  }

  ghost predicate Legal(o: Options, w: World, events: seq<Timed>)
    decreases |events|
  {
    events == [] || (
      && CanHappen(w, events[0])
      && var next := Step(o, w, events[0]);
         next.Serving? ==> Legal(o, next.world, events[1..]))
  }

  /** The loop over `events`; what comes after it ended does not reach it. */
  ghost function Run(o: Options, w: World, events: seq<Timed>): Outcome
    requires Legal(o, w, events)
    decreases |events|
  {
    if events == [] then Serving(w)
    else
      var next := Step(o, w, events[0]);
      if next.Serving? then Run(o, next.world, events[1..]) else next
  }

  /** The loop's variables, updated branch by branch. */
  class Loop {
    const options: Options
    const activity: ConnActivity
    var watchdog: int
    var shutDownFor: Option<CloseReason>
    var draining: bool
    var leaveBy: Option<int>
    var toldToClose: bool
    var http2: bool
    var now: int
    var lastEnd: int
    var shutdowns: nat

    constructor (o: Options, acceptedAt: int, armedAt: int)
      ensures options == o && fresh(activity)
      ensures Value() == Start(o, acceptedAt, armedAt)
    {
      options := o;
      activity := new ConnActivity(acceptedAt, o.headerTimeout, o.idleTimeout);
      watchdog := armedAt + Min(o.headerTimeout, o.idleTimeout);
      shutDownFor, draining, leaveBy := None, false, None;
      toldToClose, http2 := false, false;
      now, lastEnd, shutdowns := armedAt, armedAt, 0;
    }

    function Value(): World
      reads this, activity
    {
      World(activity.Value(), watchdog, shutDownFor, draining, leaveBy, toldToClose, http2, now, lastEnd, shutdowns)
    }

    method GracefulShutdown(reason: CloseReason)
      modifies this`shutDownFor, this`shutdowns
      ensures shutDownFor == Some(reason) && shutdowns == old(shutdowns) + 1
    {
      shutDownFor := Some(reason);
      shutdowns := shutdowns + 1;
    }

    method DrainBranch(time: int, drainingNow: bool)
      modifies this
      ensures Value() == OnDrain(options, old(Value()), time, drainingNow)
    {
      draining := drainingNow;
      if draining && shutDownFor.None? {
        if activity.inFlight > 0 {
          GracefulShutdown(Drain);
        } else {
          var deadline := time + options.drainIdleGrace;
          leaveBy := Some(deadline);
          if deadline < watchdog {
            watchdog := deadline;
          }
        }
      }
    }

    method WatchdogBranch(time: int) returns (ended: Option<CloseReason>)
      modifies this
      ensures OnWatchdog(old(Value()), time) ==
              if ended.Some? then Ended(Value(), ended.value, true) else Serving(Value())
    {
      if shutDownFor.None? && leaveBy.Some? && time >= leaveBy.value {
        GracefulShutdown(Drain);
      }
      var nextCheck;
      var verdict := activity.Check(time);
      match verdict {
        case CheckAgainAt(at) =>
          nextCheck := at;
        case IdleTimeout =>
          if shutDownFor.Some? {
            return Some(IdleClose);
          }
          GracefulShutdown(IdleClose);
          nextCheck := time + CLOSE_GRACE;
        case HeaderTimeout =>
          return Some(HeaderClose);
      }
      if leaveBy.Some? && shutDownFor.None? {
        nextCheck := Min(nextCheck, leaveBy.value);
      }
      watchdog := nextCheck;
      ended := None;
    }

    /** One turn of the loop: the branch that is ready runs. */
    method Turn(e: Timed) returns (outcome: Outcome)
      requires CanHappen(Value(), e)
      modifies this, activity
      ensures outcome == Step(options, old(Value()), e)
      ensures outcome.world == Value()
    {
      now := e.time;
      match e.event {
        case RequestBegins(isHttp2) =>
          activity.BeginRequest();
          http2 := http2 || isHttp2;
        case RequestEnds =>
          activity.EndRequest(e.time);
          lastEnd := e.time;
        case ResponseReady(isHttp1, channelDraining) =>
          toldToClose := toldToClose || (isHttp1 && channelDraining);
        case DrainSeen(drainingNow) =>
          DrainBranch(e.time, drainingNow);
        case WatchdogFires =>
          var ended := WatchdogBranch(e.time);
          if ended.Some? {
            return Ended(Value(), ended.value, true);
          }
        case ConnectionEnds(result) =>
          return Ended(Value(), EndReason(Value(), result), false);
      }
      outcome := Serving(Value());
    }
  }

  /** The source's loop. What the environment reports is `events`; when it has
      reported them all and the connection has not ended, it is still served. */
  method ServeConnection(o: Options, acceptedAt: int, armedAt: int, events: seq<Timed>)
    returns (outcome: Outcome)
    requires o.Valid() ==> Legal(o, Start(o, acceptedAt, armedAt), events)
    ensures !o.Valid() ==> outcome == Ended(Start(o, acceptedAt, armedAt), Error, false)
    ensures o.Valid() ==> outcome == Run(o, Start(o, acceptedAt, armedAt), events)
  {
    var loop := new Loop(o, acceptedAt, armedAt);
    ghost var start := loop.Value();
    if !o.Valid() {
      return Ended(loop.Value(), Error, false);
    }
    outcome := Serving(loop.Value());
    var i := 0;
    while i < |events| && outcome.Serving?
      invariant 0 <= i <= |events|
      invariant loop.options == o && fresh(loop) && fresh(loop.activity)
      invariant outcome.world == loop.Value()
      invariant outcome.Serving? ==>
                  Legal(o, outcome.world, events[i..]) && Run(o, start, events) == Run(o, outcome.world, events[i..])
      invariant outcome.Ended? ==> Run(o, start, events) == outcome
    {
      assert events[i..][0] == events[i] && events[i..][1..] == events[i + 1..];
      outcome := loop.Turn(events[i]);
      i := i + 1;
    }
  }
}

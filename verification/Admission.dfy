/** Two counters every connection passes through on its way in and out, and one
    waiter for the last of them to go: each atomic operation of the accept loops,
    of the connections' tasks and of the waiter is a step, in any order. */
module Admission {
  import opened ConcurrencyLimits

  /** How far a connection has got, on the loop that accepted it and then in its
      own task. */
  datatype Stage =
    | Outside
    /** Counted in the total, which was `already` before. */
    | TotalAdded(already: nat)
    | TotalRefusing
    | TotalHeld
    /** Counted on its listener too, which had `already` before. */
    | HereAdded(hereAlready: nat)
    /** Over the listener's cap: the listener's place goes first, then the total's. */
    | HereRefusing
    | HereRefused
    | Serving
    /** `Slot::drop`: the total's place is back, the listener's not yet. */
    | Closing
    /** Both are back; whoever waits is still to be told. */
    | Notifying

  datatype Conn = Conn(listener: nat, stage: Stage)

  /** `all_closed`, on its way round its loop. `woken`: a notification came since
      it registered. */
  datatype Waiter = Starting | Registered(woken: bool) | Parked(woken: bool) | Returned

  datatype System = System(
    maxTotal: nat,
    maxHere: nat,
    total: nat,
    here: map<nat, nat>,
    conns: map<nat, Conn>,
    waiter: Waiter)

  datatype Step =
    | Arrive(conn: nat, listener: nat)
    | Advance(conn: nat)
    | Wait

  function Here(s: System, listener: nat): nat {
    if listener in s.here then s.here[listener] else 0
  }

  function StageOf(s: System, c: nat): Stage {
    if c in s.conns then s.conns[c].stage else Outside
  }

  predicate Enabled(s: System, step: Step) {
    match step
    case Arrive(c, _) => StageOf(s, c).Outside?
    case Advance(c) => !StageOf(s, c).Outside?
    case Wait => !s.waiter.Returned? && s.waiter != Parked(false)
  }

  function Minus(n: nat): nat {
    if n > 0 then n - 1 else 0
  }

  function Move(s: System, c: nat, stage: Stage): System
    requires c in s.conns
  {
    s.(conns := s.conns[c := s.conns[c].(stage := stage)])
  }

  function SetHere(s: System, listener: nat, n: nat): System {
    s.(here := s.here[listener := n])
  }

  function Notified(w: Waiter): Waiter {
    match w
    case Registered(_) => Registered(true)
    case Parked(_) => Parked(true)
    case _ => w
  }

  function AdvanceConn(s: System, c: nat): System
    requires Enabled(s, Advance(c))
  {
    var l := s.conns[c].listener;
    match s.conns[c].stage
    case TotalAdded(already) => Move(s, c, if already >= s.maxTotal then TotalRefusing else TotalHeld)
    case TotalRefusing => Move(s, c, Outside).(total := Minus(s.total))
    case TotalHeld => SetHere(Move(s, c, HereAdded(Here(s, l))), l, Here(s, l) + 1)
    case HereAdded(already) => Move(s, c, if already >= s.maxHere then HereRefusing else Serving)
    case HereRefusing => SetHere(Move(s, c, HereRefused), l, Minus(Here(s, l)))
    case HereRefused => Move(s, c, Outside).(total := Minus(s.total))
    case Serving => Move(s, c, Closing).(total := Minus(s.total))
    case Closing => SetHere(Move(s, c, Notifying), l, Minus(Here(s, l)))
    case Notifying => Move(s, c, Outside).(waiter := Notified(s.waiter))
  }

  function AdvanceWaiter(s: System): Waiter {
    match s.waiter
    case Starting => Registered(false)
    case Registered(woken) => if s.total == 0 then Returned else Parked(woken)
    case Parked(woken) => if woken then Starting else Parked(false)
    case Returned => Returned
  }

  function Next(s: System, step: Step): System
    requires Enabled(s, step)
  {
    match step
    case Arrive(c, l) =>
      s.(total := s.total + 1, conns := s.conns[c := Conn(l, TotalAdded(s.total))])
    case Advance(c) => AdvanceConn(s, c)
    case Wait => s.(waiter := AdvanceWaiter(s))
  }

  ghost predicate Possible(s: System, steps: seq<Step>)
    decreases |steps|
  {
    steps == [] || (Enabled(s, steps[0]) && Possible(Next(s, steps[0]), steps[1..]))
  }

  ghost function Run(s: System, steps: seq<Step>): System
    requires Possible(s, steps)
    decreases |steps|
  {
    if steps == [] then s else Run(Next(s, steps[0]), steps[1..])
  }

  function Start(maxTotal: nat, maxHere: nat): System {
    System(maxTotal, maxHere, 0, map[], map[], Starting)
  }

  // ---------------------------------------------------------------------------
  // The caps

  function InTotal(): Conn -> bool {
    (c: Conn) => !(c.stage.Outside? || c.stage.Closing? || c.stage.Notifying?)
  }

  function OnListener(l: nat): Conn -> bool {
    (c: Conn) =>
      c.listener == l && (c.stage.HereAdded? || c.stage.HereRefusing? || c.stage.Serving? || c.stage.Closing?)
  }

  function Served(): Conn -> bool {
    (c: Conn) => c.stage.Serving?
  }

  function ServedOn(l: nat): Conn -> bool {
    (c: Conn) => c.listener == l && c.stage.Serving?
  }

  /** Past the total's cap, or bound to be. */
  function UnderTotal(max: nat): Conn -> bool {
    (c: Conn) => InTotal()(c) && !c.stage.TotalRefusing? && (c.stage.TotalAdded? ==> c.stage.already < max)
  }

  function UnderHere(l: nat, max: nat): Conn -> bool {
    (c: Conn) => OnListener(l)(c) && !c.stage.HereRefusing? && (c.stage.HereAdded? ==> c.stage.hereAlready < max)
  }

  ghost predicate Inv(s: System) {
    && InvTotal(s)
    && forall l :: InvHere(s, l)
  }

  ghost predicate InvHere(s: System, l: nat) {
    && Here(s, l) == Count(s.conns, OnListener(l))
    && Count(s.conns, UnderHere(l, s.maxHere)) <= s.maxHere
  }

  lemma NextInv(s: System, step: Step)
    requires Inv(s) && Enabled(s, step)
    ensures Inv(Next(s, step))
  {
    if step.Wait? {
      forall l ensures InvHere(Next(s, step), l) { assert InvHere(s, l); }
    } else {
      TotalInv(s, step);
      forall l ensures InvHere(Next(s, step), l) {
        assert InvHere(s, l);
        HereInv(s, step, l);
      }
    }
  }

  ghost predicate InvTotal(s: System) {
    s.total == Count(s.conns, InTotal()) && Count(s.conns, UnderTotal(s.maxTotal)) <= s.maxTotal
  }

  lemma TotalInv(s: System, step: Step)
    requires Enabled(s, step) && !step.Wait? && InvTotal(s)
    ensures InvTotal(Next(s, step))
  {
    var c := step.conn;
    var v := Next(s, step).conns[c];
    CountSet(s.conns, c, v, InTotal());
    CountSet(s.conns, c, v, UnderTotal(s.maxTotal));
    CountWithin(s.conns, UnderTotal(s.maxTotal), InTotal());
    if step.Advance? {
      if InTotal()(s.conns[c]) {
        CountSome(s.conns, InTotal());
      }
      TotalMoves(s, c);
    }
  }

  /** Whether something counts, as the number 0 or 1. */
  function One(b: bool): nat {
    if b then 1 else 0
  }

  /** The total moves as the connections it counts do, and none comes to be under
      its cap by moving on. */
  lemma TotalMoves(s: System, c: nat)
    requires Enabled(s, Advance(c)) && (InTotal()(s.conns[c]) ==> s.total > 0)
    ensures var s' := AdvanceConn(s, c);
            var u, v := s.conns[c], s'.conns[c];
            && s'.maxTotal == s.maxTotal && s'.conns == s.conns[c := v]
            && s'.total == s.total + One(InTotal()(v)) - One(InTotal()(u))
            && (UnderTotal(s.maxTotal)(v) ==> UnderTotal(s.maxTotal)(u))
  {
  }

  lemma HereInv(s: System, step: Step, l: nat)
    requires Enabled(s, step) && !step.Wait? && InvHere(s, l)
    ensures InvHere(Next(s, step), l)
  {
    var c := step.conn;
    var s' := Next(s, step);
    var v := s'.conns[c];
    CountSet(s.conns, c, v, OnListener(l));
    CountSet(s.conns, c, v, UnderHere(l, s.maxHere));
    CountWithin(s.conns, UnderHere(l, s.maxHere), OnListener(l));
    if step.Advance? {
      if OnListener(l)(s.conns[c]) {
        CountSome(s.conns, OnListener(l));
      }
      if s.conns[c].listener == l {
        HereMoves(s, c);
      } else {
        MovesElsewhere(s, c, l);
      }
    }
  }

  /** A listener's counter moves as the connections it counts do, and one comes
      to be under its cap only while the counter is. */
  lemma HereMoves(s: System, c: nat)
    requires Enabled(s, Advance(c))
    requires OnListener(s.conns[c].listener)(s.conns[c]) ==> Here(s, s.conns[c].listener) > 0
    ensures var s' := AdvanceConn(s, c);
            var u, v, l := s.conns[c], s'.conns[c], s.conns[c].listener;
            && s'.maxHere == s.maxHere && s'.conns == s.conns[c := v]
            && Here(s', l) == Here(s, l) + One(OnListener(l)(v)) - One(OnListener(l)(u))
            && (UnderHere(l, s.maxHere)(v) ==> UnderHere(l, s.maxHere)(u) || Here(s, l) < s.maxHere)
  {
  }

  lemma MovesElsewhere(s: System, c: nat, l: nat)
    requires Enabled(s, Advance(c)) && s.conns[c].listener != l
    ensures var s' := AdvanceConn(s, c);
            && s'.maxHere == s.maxHere && s'.conns == s.conns[c := s'.conns[c]]
            && s'.conns[c].listener != l && Here(s', l) == Here(s, l)
  {
  }

  lemma {:induction false} RunInv(s: System, steps: seq<Step>)
    requires Inv(s) && Possible(s, steps)
    ensures Inv(Run(s, steps))
    ensures Run(s, steps).maxTotal == s.maxTotal && Run(s, steps).maxHere == s.maxHere
    decreases |steps|
  {
    if steps != [] {
      NextInv(s, steps[0]);
      RunInv(Next(s, steps[0]), steps[1..]);
    }
  }

  lemma StartInv(maxTotal: nat, maxHere: nat)
    ensures Inv(Start(maxTotal, maxHere))
  {
    var s := Start(maxTotal, maxHere);
    forall l ensures InvHere(s, l) {
      assert Where(s.conns, OnListener(l)) == {} && Where(s.conns, UnderHere(l, maxHere)) == {};
    }
    assert Where(s.conns, InTotal()) == {} && Where(s.conns, UnderTotal(maxTotal)) == {};
  }

  ghost predicate NoAttemptUnderWay(s: System) {
    forall c :: c in s.conns ==> s.conns[c].stage in {Outside, Serving}
  }

  /** In every interleaving, the connections served never exceed either cap, and
      whenever no attempt is on its way in or out both counters are exactly the
      connections served: a refusal, at either cap, has given back all it took. */
  lemma CapsHold(maxTotal: nat, maxHere: nat, steps: seq<Step>, l: nat)
    requires Possible(Start(maxTotal, maxHere), steps)
    ensures var s := Run(Start(maxTotal, maxHere), steps);
            && Count(s.conns, Served()) <= maxTotal
            && Count(s.conns, ServedOn(l)) <= maxHere
            && Count(s.conns, Served()) <= s.total
            && (NoAttemptUnderWay(s) ==>
                  s.total == Count(s.conns, Served()) && Here(s, l) == Count(s.conns, ServedOn(l)))
  {
    StartInv(maxTotal, maxHere);
    RunInv(Start(maxTotal, maxHere), steps);
    var s := Run(Start(maxTotal, maxHere), steps);
    assert InvHere(s, l);
    CountWithin(s.conns, Served(), UnderTotal(s.maxTotal));
    CountWithin(s.conns, ServedOn(l), UnderHere(l, s.maxHere));
    CountWithin(s.conns, Served(), InTotal());
    if NoAttemptUnderWay(s) {
      CountWithin(s.conns, InTotal(), Served());
      CountWithin(s.conns, OnListener(l), ServedOn(l));
      CountWithin(s.conns, ServedOn(l), OnListener(l));
    }
  }

  // ---------------------------------------------------------------------------
  // The wait for the last connection

  /** Will yet tell whoever waits. */
  predicate WillNotify(stage: Stage) {
    stage.Serving? || stage.Closing? || stage.Notifying?
  }

  /** Parked, and nothing is left that could happen but an arrival. */
  ghost predicate Lost(s: System) {
    s.waiter == Parked(false) && forall c :: c in s.conns ==> s.conns[c].stage.Outside?
  }

  /** The accept loops have ended: every connection is in its own task or gone. */
  ghost predicate LoopsEnded(s: System) {
    forall c :: c in s.conns ==> s.conns[c].stage.Outside? || WillNotify(s.conns[c].stage)
  }

  ghost predicate NoArrivals(steps: seq<Step>) {
    forall i :: 0 <= i < |steps| ==> !steps[i].Arrive?
  }

  ghost predicate WakeInv(s: System) {
    && Inv(s) && LoopsEnded(s)
    && (s.waiter == Parked(false) ==> exists c :: c in s.conns && WillNotify(s.conns[c].stage))
  }

  /** Whatever happened before the wait began, it begins with nothing lost. */
  lemma {:induction false} WaitBegins(maxTotal: nat, maxHere: nat, steps: seq<Step>)
    requires Possible(Start(maxTotal, maxHere), steps) && Wait !in steps
    requires LoopsEnded(Run(Start(maxTotal, maxHere), steps))
    ensures WakeInv(Run(Start(maxTotal, maxHere), steps))
  {
    StartInv(maxTotal, maxHere);
    RunInv(Start(maxTotal, maxHere), steps);
    NobodyWaits(Start(maxTotal, maxHere), steps);
  }

  lemma {:induction false} NobodyWaits(s: System, steps: seq<Step>)
    requires Possible(s, steps) && Wait !in steps && s.waiter == Starting
    ensures Run(s, steps).waiter == Starting
    decreases |steps|
  {
    if steps != [] {
      assert steps[0] in steps && forall x :: x in steps[1..] ==> x in steps;
      NobodyWaits(Next(s, steps[0]), steps[1..]);
    }
  }

  lemma NextWakes(s: System, step: Step)
    requires WakeInv(s) && Enabled(s, step) && !step.Arrive?
    ensures WakeInv(Next(s, step))
  {
    NextInv(s, step);
    var s' := Next(s, step);
    if step.Wait? {
      if s'.waiter == Parked(false) {
        CountSome(s.conns, InTotal());
      }
    } else if s'.waiter == Parked(false) {
      var c :| c in s.conns && WillNotify(s.conns[c].stage);
      assert c in s'.conns && WillNotify(s'.conns[c].stage);
    }
  }

  /** No wakeup is lost. Once the accept loops have ended, in every interleaving
      a waiter still parked has somebody left to wake it; and with no connection
      open, that is a connection between giving its places back and telling. */
  lemma {:induction false} NoLostWakeup(s: System, steps: seq<Step>)
    requires WakeInv(s) && Possible(s, steps) && NoArrivals(steps)
    ensures var end := Run(s, steps);
            && WakeInv(end) && !Lost(end)
            && (end.waiter == Parked(false) ==> exists c :: c in end.conns && WillNotify(end.conns[c].stage))
            && (end.waiter == Parked(false) && end.total == 0 ==>
                  exists c :: c in end.conns && (end.conns[c].stage.Closing? || end.conns[c].stage.Notifying?))
    decreases |steps|
  {
    if steps != [] {
      NextWakes(s, steps[0]);
      NoLostWakeup(Next(s, steps[0]), steps[1..]);
    } else if s.waiter == Parked(false) {
      var c :| c in s.conns && WillNotify(s.conns[c].stage);
      CountSome(s.conns, InTotal());
    }
  }

  // ---------------------------------------------------------------------------
  // How much is left to happen

  /** The most steps a connection at `stage` has left. */
  function Left(stage: Stage): nat {
    match stage
    case Outside => 0
    case Notifying => 1
    case Closing => 2
    case Serving => 3
    case TotalRefusing => 1
    case HereRefused => 1
    case HereRefusing => 2
    case HereAdded(_) => 4
    case TotalHeld => 5
    case TotalAdded(_) => 6
  }

  function HasLeft(k: nat): Conn -> bool {
    (c: Conn) => Left(c.stage) >= k
  }

  /** The steps left of all connections: those with one left, those with a second
      left, and so on to the `k`th. */
  function Weight(conns: map<nat, Conn>, k: nat): nat {
    if k == 0 then 0 else Weight(conns, k - 1) + Count(conns, HasLeft(k))
  }

  lemma {:induction false} WeightFalls(conns: map<nat, Conn>, c: nat, v: Conn, k: nat)
    requires c in conns && Left(v.stage) < Left(conns[c].stage)
    ensures Weight(conns[c := v], k) <= Weight(conns, k) - One(k >= Left(conns[c].stage))
  {
    if k > 0 {
      WeightFalls(conns, c, v, k - 1);
      CountSet(conns, c, v, HasLeft(k));
    }
  }

  /** How often the waiter can move before it is parked or back. */
  function Turns(w: Waiter): nat {
    match w
    case Returned => 0
    case Parked(woken) => if woken then 3 else 0
    case Starting => 2
    case Registered(woken) => if woken then 4 else 1
  }

  function Measure(s: System): nat {
    4 * Weight(s.conns, 6) + Turns(s.waiter)
  }

  /** Every step but an arrival brings the end nearer. */
  lemma MeasureFalls(s: System, step: Step)
    requires Enabled(s, step) && !step.Arrive?
    ensures Measure(Next(s, step)) < Measure(s)
  {
    if step.Advance? {
      var c := step.conn;
      Moves(s, c);
      WeightFalls(s.conns, c, Next(s, step).conns[c], 6);
    }
  }

  /** A step of a connection changes it alone, and leaves it fewer to take. */
  lemma Moves(s: System, c: nat)
    requires Enabled(s, Advance(c))
    ensures var s' := Next(s, Advance(c));
            && s'.conns == s.conns[c := s'.conns[c]] && s'.conns[c].listener == s.conns[c].listener
            && Left(s'.conns[c].stage) < Left(s.conns[c].stage)
            && s'.maxTotal == s.maxTotal && s'.maxHere == s.maxHere
            && (s'.waiter == s.waiter || (s.conns[c].stage.Notifying? && s'.waiter == Notified(s.waiter)))
  {
  }

  /** Nothing can happen any more but an arrival. */
  ghost predicate Quiet(s: System) {
    !Enabled(s, Wait) && forall c :: !Enabled(s, Advance(c))
  }

  /** The wait ends. Once the accept loops have ended every run is finite, no
      longer than `Measure` says, and one that cannot go on has the waiter back. */
  lemma {:induction false} WaitEnds(s: System, steps: seq<Step>)
    requires WakeInv(s) && Possible(s, steps) && NoArrivals(steps)
    ensures var end := Run(s, steps);
            && |steps| + Measure(end) <= Measure(s)
            && (Quiet(end) ==> end.waiter == Returned && end.total == 0)
    decreases |steps|
  {
    if steps != [] {
      NextWakes(s, steps[0]);
      MeasureFalls(s, steps[0]);
      WaitEnds(Next(s, steps[0]), steps[1..]);
    } else if Quiet(s) {
      forall c | c in s.conns
        ensures s.conns[c].stage.Outside?
      {
        assert !Enabled(s, Advance(c));
      }
      CountSome(s.conns, InTotal());
    }
  }

  // ---------------------------------------------------------------------------
  // What the accept loops would do to it

  /** Is being refused, or bound to be. */
  predicate Doomed(s: System, c: Conn) {
    match c.stage
    case TotalAdded(already) => already >= s.maxTotal
    case HereAdded(already) => already >= s.maxHere
    case _ => c.stage.TotalRefusing? || c.stage.HereRefusing? || c.stage.HereRefused?
  }

  /** Through the total's cap, or bound to be, and not yet counted on `l`. */
  function Pending(l: nat, maxTotal: nat): Conn -> bool {
    (c: Conn) => c.listener == l && (c.stage.TotalHeld? || (c.stage.TotalAdded? && c.stage.already < maxTotal))
  }

  /** More attempts on `l` than it has places: one of them can be refused. */
  ghost predicate Crowded(s: System, l: nat) {
    var pending := Count(s.conns, Pending(l, s.maxTotal));
    pending > 0 && Count(s.conns, OnListener(l)) + pending > s.maxHere
  }

  /** Somebody is refused, or can be. */
  ghost predicate AtRisk(s: System) {
    (exists c :: c in s.conns && Doomed(s, s.conns[c])) || exists l :: Crowded(s, l)
  }

  /** Some interleaving from `s`, with nothing more accepted, leaves the waiter
      parked for good. */
  ghost predicate CanBeLost(s: System) {
    exists steps :: NoArrivals(steps) && Possible(s, steps) && Lost(Run(s, steps))
  }

  /** A waiter that starts can be left parked for good if and only if an attempt is
      being refused, is bound to be, or can be for want of places on its
      listener: a refusal counts for a moment and tells nobody, which is why the
      accept loops are waited for first. */
  lemma LostIffAtRisk(s: System)
    requires Inv(s) && s.waiter == Starting
    ensures CanBeLost(s) <==> AtRisk(s)
  {
    if AtRisk(s) {
      LoseIt(s);
    } else {
      forall steps | NoArrivals(steps) && Possible(s, steps)
        ensures !Lost(Run(s, steps))
      {
        StaysSafe(s, steps);
      }
    }
  }

  // Nobody at risk: everyone who is in will tell.

  ghost predicate SafeInv(s: System) {
    && Inv(s) && !AtRisk(s)
    && (s.waiter == Parked(false) ==> exists c :: c in s.conns && !s.conns[c].stage.Outside?)
  }

  lemma {:induction false} StaysSafe(s: System, steps: seq<Step>)
    requires SafeInv(s) && Possible(s, steps) && NoArrivals(steps)
    ensures !Lost(Run(s, steps))
    decreases |steps|
  {
    if steps != [] {
      NextSafe(s, steps[0]);
      StaysSafe(Next(s, steps[0]), steps[1..]);
    }
  }

  lemma NextSafe(s: System, step: Step)
    requires SafeInv(s) && Enabled(s, step) && !step.Arrive?
    ensures SafeInv(Next(s, step))
  {
    NextInv(s, step);
    var s' := Next(s, step);
    if step.Wait? {
      WaitKeepsRisk(s);
      if s'.waiter == Parked(false) {
        CountSome(s.conns, InTotal());
      }
    } else {
      AdvanceIsSafe(s, step.conn);
      if s'.waiter == Parked(false) {
        Moves(s, step.conn);
        var c :| c in s.conns && !s.conns[c].stage.Outside?;
        StaysIn(s, step.conn);
        assert c in s'.conns && !s'.conns[c].stage.Outside?;
      }
    }
  }

  lemma WaitKeepsRisk(s: System)
    requires Enabled(s, Wait)
    ensures AtRisk(Next(s, Wait)) ==> AtRisk(s)
  {
    var s' := Next(s, Wait);
    if c :| c in s'.conns && Doomed(s', s'.conns[c]) {
      assert Doomed(s, s.conns[c]);
    } else if l :| Crowded(s', l) {
      assert Crowded(s, l);
    }
  }

  /** Nobody at risk, a connection is out only once it has told. */
  lemma StaysIn(s: System, c: nat)
    requires !AtRisk(s) && Enabled(s, Advance(c))
    ensures Next(s, Advance(c)).conns[c].stage.Outside? ==> s.conns[c].stage.Notifying?
  {
    assert !Doomed(s, s.conns[c]);
  }

  lemma AdvanceIsSafe(s: System, c: nat)
    requires Inv(s) && !AtRisk(s) && Enabled(s, Advance(c))
    ensures !AtRisk(Next(s, Advance(c)))
  {
    var s' := Next(s, Advance(c));
    var u, v := s.conns[c], s'.conns[c];
    Moves(s, c);
    assert !Doomed(s, u) && !Crowded(s, u.listener) && InvHere(s, u.listener);
    if Pending(u.listener, s.maxTotal)(u) {
      CountSome(s.conns, Pending(u.listener, s.maxTotal));
    }
    assert !Doomed(s', v);
    forall d | d in s'.conns
      ensures !Doomed(s', s'.conns[d])
    {
      assert d != c ==> !Doomed(s, s.conns[d]);
    }
    forall l
      ensures !Crowded(s', l)
    {
      assert !Crowded(s, l);
      CountSet(s.conns, c, v, OnListener(l));
      CountSet(s.conns, c, v, Pending(l, s.maxTotal));
      NoMoreThere(s, c, l);
      CountSome(s.conns, Pending(l, s.maxTotal));
      CountSome(s'.conns, Pending(l, s.maxTotal));
    }
  }

  /** An attempt passes from pending to counted; it never adds to both together. */
  lemma NoMoreThere(s: System, c: nat, l: nat)
    requires Enabled(s, Advance(c)) && !Doomed(s, s.conns[c])
    ensures var u, v := s.conns[c], Next(s, Advance(c)).conns[c];
            && One(OnListener(l)(v)) + One(Pending(l, s.maxTotal)(v))
               <= One(OnListener(l)(u)) + One(Pending(l, s.maxTotal)(u))
            && (Pending(l, s.maxTotal)(v) ==> Pending(l, s.maxTotal)(u))
  {
  }

  // Somebody at risk: a run that loses the waiter.

  /** A run, with nothing accepted, from `s` to `end`. */
  ghost predicate Leads(s: System, steps: seq<Step>, end: System) {
    NoArrivals(steps) && Possible(s, steps) && Run(s, steps) == end
  }

  lemma LeadsStep(s: System, step: Step, steps: seq<Step>, end: System)
    requires Enabled(s, step) && !step.Arrive? && Leads(Next(s, step), steps, end)
    ensures Leads(s, [step] + steps, end)
  {
    assert ([step] + steps)[1..] == steps;
  }

  lemma {:induction false} LeadsOn(s: System, a: seq<Step>, mid: System, b: seq<Step>, end: System)
    requires Leads(s, a, mid) && Leads(mid, b, end)
    ensures Leads(s, a + b, end)
    decreases |a|
  {
    if a == [] {
      assert a + b == b;
    } else {
      LeadsOn(Next(s, a[0]), a[1..], mid, b, end);
      LeadsStep(s, a[0], a[1..] + b, end);
      assert [a[0]] + (a[1..] + b) == a + b;
    }
  }

  lemma LoseIt(s: System)
    requires Inv(s) && s.waiter == Starting && AtRisk(s)
    ensures CanBeLost(s)
  {
    var first, doomed, c := MakeDoomed(s);
    var second, alone := LetFinish(doomed, c);
    var third, lost := ParkAndLeave(alone, c);
    LeadsOn(doomed, second, alone, third, lost);
    LeadsOn(s, first, doomed, second + third, lost);
  }

  /** If nobody is refused yet, the attempts on a crowded listener are let try one
      after the other, until one finds it full. */
  lemma MakeDoomed(s: System) returns (steps: seq<Step>, end: System, c: nat)
    requires Inv(s) && s.waiter == Starting && AtRisk(s)
    ensures Leads(s, steps, end) && Inv(end) && end.waiter == Starting
    ensures c in end.conns && Doomed(end, end.conns[c])
  {
    if d :| d in s.conns && Doomed(s, s.conns[d]) {
      steps, end, c := [], s, d;
    } else {
      var l :| Crowded(s, l);
      steps, end, c := TryInTurn(s, l);
    }
  }

  lemma {:induction false} TryInTurn(s: System, l: nat) returns (steps: seq<Step>, end: System, c: nat)
    requires Inv(s) && s.waiter == Starting && Crowded(s, l)
    ensures Leads(s, steps, end) && Inv(end) && end.waiter == Starting
    ensures c in end.conns && Doomed(end, end.conns[c])
    decreases Count(s.conns, Pending(l, s.maxTotal))
  {
    CountSome(s.conns, Pending(l, s.maxTotal));
    var d :| d in s.conns && Pending(l, s.maxTotal)(s.conns[d]);
    var toTry, tried := TryOne(s, d);
    c := d;
    if Doomed(tried, tried.conns[d]) {
      steps, end := toTry, tried;
    } else {
      CountSet(s.conns, d, tried.conns[d], OnListener(l));
      CountSet(s.conns, d, tried.conns[d], Pending(l, s.maxTotal));
      var rest;
      rest, end, c := TryInTurn(tried, l);
      steps := toTry + rest;
      LeadsOn(s, toTry, tried, rest, end);
    }
  }

  /** A pending attempt is counted on its listener, and found what was there. */
  lemma TryOne(s: System, d: nat) returns (steps: seq<Step>, end: System)
    requires Inv(s) && s.waiter == Starting && d in s.conns && Pending(s.conns[d].listener, s.maxTotal)(s.conns[d])
    ensures Leads(s, steps, end) && Inv(end) && end.waiter == Starting
    ensures end.maxTotal == s.maxTotal && end.maxHere == s.maxHere
    ensures var l := s.conns[d].listener;
            end.conns == s.conns[d := Conn(l, HereAdded(Count(s.conns, OnListener(l))))]
  {
    var l := s.conns[d].listener;
    var held := if s.conns[d].stage.TotalAdded? then Next(s, Advance(d)) else s;
    assert InvHere(s, l);
    if s.conns[d].stage.TotalAdded? {
      NextInv(s, Advance(d));
    }
    end := Next(held, Advance(d));
    NextInv(held, Advance(d));
    assert Leads(end, [], end);
    LeadsStep(held, Advance(d), [], end);
    steps := [Advance(d)] + [];
    if s.conns[d].stage.TotalAdded? {
      LeadsStep(s, Advance(d), steps, end);
      steps := [Advance(d)] + steps;
    }
  }

  /** Everybody but `c` is let go on until it is out, the waiter not having
      registered yet. */
  lemma {:induction false} LetFinish(s: System, c: nat) returns (steps: seq<Step>, end: System)
    requires Inv(s) && s.waiter == Starting && c in s.conns && Doomed(s, s.conns[c])
    ensures Leads(s, steps, end) && Inv(end) && end.waiter == Starting
    ensures c in end.conns && Doomed(end, end.conns[c])
    ensures forall d :: d in end.conns && d != c ==> end.conns[d].stage.Outside?
    decreases Measure(s)
  {
    if d :| d in s.conns && d != c && !s.conns[d].stage.Outside? {
      var next := Next(s, Advance(d));
      NextInv(s, Advance(d));
      Moves(s, d);
      MeasureFalls(s, Advance(d));
      var rest;
      rest, end := LetFinish(next, c);
      steps := [Advance(d)] + rest;
      LeadsStep(s, Advance(d), rest, end);
    } else {
      steps, end := [], s;
    }
  }

  /** The waiter finds `c` in the total and parks; `c` is refused, and tells
      nobody. */
  lemma ParkAndLeave(s: System, c: nat) returns (steps: seq<Step>, end: System)
    requires Inv(s) && s.waiter == Starting && c in s.conns && Doomed(s, s.conns[c])
    requires forall d :: d in s.conns && d != c ==> s.conns[d].stage.Outside?
    ensures Leads(s, steps, end) && Lost(end)
  {
    CountSome(s.conns, InTotal());
    assert InTotal()(s.conns[c]);
    var registered := Next(s, Wait);
    var parked := Next(registered, Wait);
    steps, end := BeRefused(parked, c);
    LeadsStep(registered, Wait, steps, end);
    LeadsStep(s, Wait, [Wait] + steps, end);
    steps := [Wait] + ([Wait] + steps);
  }

  lemma {:induction false} BeRefused(s: System, c: nat) returns (steps: seq<Step>, end: System)
    requires s.waiter == Parked(false) && c in s.conns && (Doomed(s, s.conns[c]) || s.conns[c].stage.Outside?)
    requires forall d :: d in s.conns && d != c ==> s.conns[d].stage.Outside?
    ensures Leads(s, steps, end) && Lost(end)
    decreases Left(s.conns[c].stage)
  {
    if s.conns[c].stage.Outside? {
      steps, end := [], s;
    } else {
      Moves(s, c);
      steps, end := BeRefused(Next(s, Advance(c)), c);
      LeadsStep(s, Advance(c), steps, end);
      steps := [Advance(c)] + steps;
    }
  }
}

/** `Admission::admit` on the objects it uses, with no other thread about. */
module AdmitOne {
  import opened Prelude
  import opened ConcurrencyLimits
  import KeyedBuckets

  datatype Limit = ConnectionsPerPeer | MaxConnections | MaxConnectionsPerListener

  /** The peer's rate is asked first, then the total, then the listener; whatever
      refuses, neither counter is left changed. */
  method Admit<P(==)>(
    rate: Option<KeyedBuckets.Buckets<P>>, total: ConcurrencyLimit, here: ConcurrencyLimit, peer: P, now: int)
    returns (refused: Option<Limit>)
    requires total != here
    modifies total, here, if rate.Some? then {rate.value} else {}
    ensures refused.None? ==> total.inUse == old(total.inUse) + 1 && here.inUse == old(here.inUse) + 1
    ensures refused.Some? ==> total.inUse == old(total.inUse) && here.inUse == old(here.inUse)
    ensures refused == Some(ConnectionsPerPeer) <==>
              rate.Some? && !old(rate.value.Value()).TryAcquire(rate.value.limits, peer, now).1.Granted()
    ensures rate.Some? ==> rate.value.Value() == old(rate.value.Value()).TryAcquire(rate.value.limits, peer, now).0
    ensures refused != Some(ConnectionsPerPeer) ==>
              && (refused == Some(MaxConnections) <==> Over(old(total.inUse), total.max))
              && (refused == Some(MaxConnectionsPerListener) <==>
                    !Over(old(total.inUse), total.max) && Over(old(here.inUse), here.max))
  {
    if rate.Some? {
      var granted := rate.value.TryAcquire(peer, now);
      if !granted {
        return Some(ConnectionsPerPeer);
      }
    }
    var inTotal := total.TryAcquire();
    if !inTotal {
      return Some(MaxConnections);
    }
    var inHere := here.TryAcquire();
    if !inHere {
      total.Release();
      return Some(MaxConnectionsPerListener);
    }
    refused := None;
  }
}

/** A counter with a cap: permits are taken from it and come back when dropped. */
module ConcurrencyLimits {
  import opened Prelude

  /** Whether an attempt that found `already` in use is over the cap. */
  predicate Over(already: nat, max: Option<nat>) {
    max.Some? && already >= max.value
  }

  /** The counter, as one thread uses it when no other does. How threads get in
      each other's way is `Admission`'s and `Gates`'s subject. */
  class ConcurrencyLimit {
    const max: Option<nat>
    var inUse: nat

    constructor (max: Option<nat>)
      ensures this.max == max && inUse == 0
    {
      this.max := max;
      inUse := 0;
    }

    method FetchAdd() returns (already: nat)
      modifies this
      ensures already == old(inUse) && inUse == old(inUse) + 1
    {
      already := inUse;
      inUse := inUse + 1;
    }

    /** `Permit::drop`. */
    method Release()
      requires inUse > 0
      modifies this
      ensures inUse == old(inUse) - 1
    {
      inUse := inUse - 1;
    }

    method TryAcquire() returns (granted: bool)
      modifies this
      ensures granted <==> max.None? || old(inUse) < max.value
      ensures inUse == old(inUse) + if granted then 1 else 0
    {
      var already := FetchAdd();
      granted := !Over(already, max);
      if !granted {
        Release();
      }
    }
  }

  // ---------------------------------------------------------------------------
  // Counting the threads in some state

  function Where<V>(threads: map<nat, V>, p: V -> bool): set<nat> {
    set t | t in threads && p(threads[t])
  }

  function Count<V>(threads: map<nat, V>, p: V -> bool): nat {
    |Where(threads, p)|
  }

  lemma CountSet<V>(threads: map<nat, V>, t: nat, v: V, p: V -> bool)
    ensures Count(threads[t := v], p) ==
            Count(threads, p) + (if p(v) then 1 else 0) - (if t in threads && p(threads[t]) then 1 else 0)
  {
    var before, others := Where(threads, p), Where(threads, p) - {t};
    assert before == if t in before then others + {t} else others;
    assert Where(threads[t := v], p) == if p(v) then others + {t} else others;
  }

  lemma CountWithin<V>(threads: map<nat, V>, p: V -> bool, q: V -> bool)
    requires forall t :: t in threads && p(threads[t]) ==> q(threads[t])
    ensures Count(threads, p) <= Count(threads, q)
  {
    var a, b := Where(threads, p), Where(threads, q);
    assert a <= b && b == a + (b - a);
  }

  lemma CountSome<V>(threads: map<nat, V>, p: V -> bool)
    ensures Count(threads, p) > 0 <==> exists t :: t in threads && p(threads[t])
  {
    var a := Where(threads, p);
    if exists t :: t in threads && p(threads[t]) {
      var t :| t in threads && p(threads[t]);
      assert t in a;
    }
    if |a| > 0 {
      var t :| t in a;
    }
  }
}

/** One counter under any number of threads: the limit on its own, and the
    `max_in_flight` of a pool, whose place is given back too when its rate then
    refuses the request. Each atomic operation is one step. */
module Gates {
  import opened Prelude
  import opened ConcurrencyLimits

  datatype Attempt = Outside | Added(already: nat) | Refusing | Holding

  datatype Gate = Gate(inUse: nat, max: Option<nat>, threads: map<nat, Attempt>)

  function At(g: Gate, t: nat): Attempt {
    if t in g.threads then g.threads[t] else Outside
  }

  /** The next atomic step of thread `t`: add one and see how many there were,
      decide, or give back what was added. */
  function Step(g: Gate, t: nat): Gate {
    match At(g, t)
    case Outside => g.(inUse := g.inUse + 1, threads := g.threads[t := Added(g.inUse)])
    case Added(already) => g.(threads := g.threads[t := if Over(already, g.max) then Refusing else Holding])
    case _ => g.(inUse := if g.inUse > 0 then g.inUse - 1 else 0, threads := g.threads[t := Outside])
  }

  function Run(g: Gate, schedule: seq<nat>): Gate {
    if schedule == [] then g else Step(Run(g, schedule[..|schedule| - 1]), schedule[|schedule| - 1])
  }

  function Counts(): Attempt -> bool {
    (a: Attempt) => !a.Outside?
  }

  function Holds(): Attempt -> bool {
    (a: Attempt) => a.Holding?
  }

  function BeingRefused(max: Option<nat>): Attempt -> bool {
    (a: Attempt) => a.Refusing? || (a.Added? && Over(a.already, max))
  }

  function Admitted(max: Option<nat>): Attempt -> bool {
    (a: Attempt) => a.Holding? || (a.Added? && !Over(a.already, max))
  }

  ghost predicate Inv(g: Gate) {
    && g.inUse == Count(g.threads, Counts())
    && g.inUse == Count(g.threads, Admitted(g.max)) + Count(g.threads, BeingRefused(g.max))
    && (g.max.Some? ==> Count(g.threads, Admitted(g.max)) <= g.max.value)
  }

  lemma StepInv(g: Gate, t: nat)
    requires Inv(g)
    ensures Inv(Step(g, t))
  {
    var v := Step(g, t).threads[t];
    CountSet(g.threads, t, v, Counts());
    CountSet(g.threads, t, v, Admitted(g.max));
    CountSet(g.threads, t, v, BeingRefused(g.max));
  }

  /** Under every schedule of any threads, the permits held are never more than
      the cap, and the counter is them and the attempts on their way in or out:
      it exceeds the cap only by attempts being refused. */
  lemma {:induction false} NeverOverAdmits(max: Option<nat>, schedule: seq<nat>)
    ensures var g := Run(Gate(0, max, map[]), schedule);
            && g.max == max && Inv(g)
            && (max.Some? ==> Count(g.threads, Holds()) <= max.value)
            && (max.Some? ==> g.inUse <= max.value + Count(g.threads, BeingRefused(max)))
  {
    if schedule != [] {
      NeverOverAdmits(max, schedule[..|schedule| - 1]);
      StepInv(Run(Gate(0, max, map[]), schedule[..|schedule| - 1]), schedule[|schedule| - 1]);
    }
    CountWithin(Run(Gate(0, max, map[]), schedule).threads, Holds(), Admitted(max));
  }

  lemma RunPush(g: Gate, schedule: seq<nat>, t: nat)
    ensures Run(g, schedule + [t]) == Step(Run(g, schedule), t)
  {
    assert (schedule + [t])[..|schedule|] == schedule;
  }

  /** After any schedule, a thread that tries is refused if and only if the
      permits held, the attempts bound to be given one and those being refused
      come to the cap. With nobody being refused, that is when no permit is left;
      otherwise it can be sooner. */
  lemma RefusedIff(max: Option<nat>, schedule: seq<nat>, t: nat)
    ensures var g := Run(Gate(0, max, map[]), schedule);
            var admitted, refused := Count(g.threads, Admitted(max)), Count(g.threads, BeingRefused(max));
            At(g, t).Outside? ==>
              && (At(Step(Step(g, t), t), t).Refusing? <==> max.Some? && admitted + refused >= max.value)
              && (refused == 0 ==> (At(Step(Step(g, t), t), t).Refusing? <==> max == Some(admitted)))
  {
    NeverOverAdmits(max, schedule);
  }

  /** Sooner here: thread 2 is refused with no permit held at all. */
  lemma MayRefuseBelowTheCap()
    ensures var g := Run(Gate(0, Some(1), map[]), [0] + [0] + [1] + [0] + [2] + [2]);
            At(g, 2) == Refusing && Count(g.threads, Holds()) == 0
  {
    var g0 := Gate(0, Some(1), map[]);
    RunPush(g0, [], 0);
    RunPush(g0, [0], 0);
    RunPush(g0, [0] + [0], 1);
    RunPush(g0, [0] + [0] + [1], 0);
    RunPush(g0, [0] + [0] + [1] + [0], 2);
    RunPush(g0, [0] + [0] + [1] + [0] + [2], 2);
    assert [] + [0] == [0];
    var g3 := Gate(2, Some(1), map[0 := Holding, 1 := Added(1)]);
    assert Run(g0, [0] + [0] + [1]) == g3;
    var g6 := Gate(2, Some(1), map[0 := Outside, 1 := Added(1), 2 := Refusing]);
    assert Run(g0, [0] + [0] + [1] + [0] + [2] + [2]) == g6;
    assert Where(g6.threads, Holds()) == {};
  }
}

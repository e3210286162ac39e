/** The sockets a process accepts on, brought in line with a config in two phases:
    get what is missing, then switch. */
module Listeners {
  import opened Prelude

  /** What names a listener's socket: the address in the config. */
  type Addr = string

  /** A socket of the kernel, and an accept loop, by identity. */
  type Socket = nat
  type AcceptLoop = nat

  datatype Running<T> = Running(attached: T, socket: Socket, acceptLoop: AcceptLoop)

  /** What the kernel would answer: the socket binding an address gives, if it
      can be bound, and whether a socket handed over can be listened on. */
  datatype Kernel = Kernel(bind: Addr -> Option<Socket>, usable: Socket -> bool)

  datatype Staged<T> = Staged(desired: seq<(Addr, T)>, bound: map<Addr, Socket>)

  datatype Failure = NamedTwice | NoSocket(addr: Addr)

  /** The set at one moment: what accepts, and what was handed over and not used
      yet. `spawned` accept loops have been started so far. */
  datatype Set<T> = Set(running: map<Addr, Running<T>>, adopted: map<Addr, Socket>, spawned: nat)

  function Names<T>(desired: seq<(Addr, T)>): set<Addr> {
    set i | 0 <= i < |desired| :: desired[i].0
  }

  ghost predicate Distinct<T>(desired: seq<(Addr, T)>) {
    forall i, j :: 0 <= i < j < |desired| ==> desired[i].0 != desired[j].0
  }

  /** Whether a socket can be had for `addr`: the one adopted for it, or a new one. */
  predicate Available<T>(set_: Set<T>, kernel: Kernel, addr: Addr) {
    if addr in set_.adopted then kernel.usable(set_.adopted[addr]) else kernel.bind(addr).Some?
  }

  function SocketFor<T>(set_: Set<T>, kernel: Kernel, addr: Addr): Socket
    requires Available(set_, kernel, addr)
  {
    if addr in set_.adopted then set_.adopted[addr] else kernel.bind(addr).value
  }

  /** `staged` holds a socket for exactly the addresses of `desired` not yet
      accepting: the adopted one where there is one. */
  ghost predicate StagedFrom<T>(set_: Set<T>, kernel: Kernel, desired: seq<(Addr, T)>, staged: Staged<T>) {
    && staged.desired == desired
    && staged.bound.Keys == Names(desired) - set_.running.Keys
    && forall a :: a in staged.bound ==> Available(set_, kernel, a) && staged.bound[a] == SocketFor(set_, kernel, a)
  }

  ghost predicate CanStage<T>(set_: Set<T>, kernel: Kernel, desired: seq<(Addr, T)>) {
    Distinct(desired) && forall a :: a in Names(desired) && a !in set_.running ==> Available(set_, kernel, a)
  }

  /** What is attached to `addr`: the last entry that names it. */
  ghost predicate AttachedTo<T>(desired: seq<(Addr, T)>, addr: Addr, attached: T) {
    exists i :: 0 <= i < |desired| && desired[i] == (addr, attached)
                && forall j :: i < j < |desired| ==> desired[j].0 != addr
  }

  /** `after` is `before` with `staged` committed: a kept address has its socket
      and its accept loop, an added one the staged socket and a new loop, each
      has what the config attaches, and nothing is left adopted. An address with
      no socket either way is not accepted on. */
  ghost predicate CommittedTo<T>(before: Set<T>, staged: Staged<T>, after: Set<T>) {
    && after.adopted == map[]
    && before.spawned <= after.spawned
    && after.running.Keys == Names(staged.desired) * (before.running.Keys + staged.bound.Keys)
    && forall a :: a in after.running ==>
         && AttachedTo(staged.desired, a, after.running[a].attached)
         && (if a in before.running then
               && after.running[a].socket == before.running[a].socket
               && after.running[a].acceptLoop == before.running[a].acceptLoop
             else
               && after.running[a].socket == staged.bound[a]
               && before.spawned <= after.running[a].acceptLoop < after.spawned)
  }

  class ListenerSet<T> {
    var running: map<Addr, Running<T>>
    var adopted: map<Addr, Socket>
    var spawned: nat

    constructor ()
      ensures Value() == Set(map[], map[], 0)
    {
      running, adopted, spawned := map[], map[], 0;
    }

    ghost function Value(): Set<T>
      reads this
    {
      Set(running, adopted, spawned)
    }

    method Adopt(sockets: seq<(Addr, Socket)>)
      modifies this`adopted
      ensures adopted.Keys == old(adopted).Keys + Names(sockets)
      ensures forall a :: a in adopted ==>
                if a in Names(sockets) then AttachedTo(sockets, a, adopted[a])
                else a in old(adopted) && adopted[a] == old(adopted)[a]
    {
      for i := 0 to |sockets|
        invariant adopted.Keys == old(adopted).Keys + Names(sockets[..i])
        invariant forall a :: a in adopted ==>
                    if a in Names(sockets[..i]) then AttachedTo(sockets[..i], a, adopted[a])
                    else a in old(adopted) && adopted[a] == old(adopted)[a]
      {
        var (addr, socket) := sockets[i];
        ghost var before := adopted;
        adopted := adopted[addr := socket];
        NamesPush(sockets[..i], sockets[i]);
        assert sockets[..i + 1] == sockets[..i] + [sockets[i]];
        forall a | a in adopted && a in Names(sockets[..i + 1])
          ensures AttachedTo(sockets[..i + 1], a, adopted[a])
        {
          AttachedPush(sockets[..i], sockets[i], a, adopted[a]);
        }
      }
      assert sockets[..|sockets|] == sockets;
    }

    /** Fails, without touching what accepts, exactly if two entries have one address
        or one has no socket to be had. */
    method Stage(desired: seq<(Addr, T)>, kernel: Kernel) returns (result: Result<Staged<T>, Failure>)
      modifies this`adopted
      ensures result.Ok? <==> CanStage(old(Value()), kernel, desired)
      ensures result.Ok? ==>
                && StagedFrom(old(Value()), kernel, desired, result.value)
                && adopted == old(adopted) - result.value.bound.Keys
      ensures adopted.Keys <= old(adopted).Keys && forall a :: a in adopted ==> adopted[a] == old(adopted)[a]
      ensures result == Err(NamedTwice) ==> !Distinct(desired) && adopted == old(adopted)
    {
      var twice := NamesTwice(desired);
      if twice {
        return Err(NamedTwice);
      }
      ghost var before := Value();
      var bound: map<Addr, Socket> := map[];
      assert desired[..0] == [];
      for i := 0 to |desired|
        invariant Value() == before.(adopted := adopted) && PartlyStaged(before, kernel, desired, i, adopted, bound)
      {
        var addr := desired[i].0;
        StagedNext(before, kernel, desired, i, adopted, bound);
        if addr in running {
          continue;
        }
        var socket := TakeSocket(addr, kernel);
        if socket.None? {
          assert desired[i].0 in Names(desired) && !Available(before, kernel, addr);
          return Err(NoSocket(addr));
        }
        bound := bound[addr := socket.value];
      }
      assert desired[..|desired|] == desired;
      result := Ok(Staged(desired, bound));
    }

    /** The socket adopted for `addr`, if there is one and it can be used, or else a
        new one, if it can be bound. */
    method TakeSocket(addr: Addr, kernel: Kernel) returns (socket: Option<Socket>)
      modifies this`adopted
      ensures adopted == old(adopted) - {addr}
      ensures socket.Some? <==> Available(old(Value()), kernel, addr)
      ensures socket.Some? ==> socket.value == SocketFor(old(Value()), kernel, addr)
    {
      if addr in adopted {
        socket := if kernel.usable(adopted[addr]) then Some(adopted[addr]) else None;
        adopted := adopted - {addr};
      } else {
        socket := kernel.bind(addr);
      }
    }

    /** `raced` are the addresses "committed without a socket". */
    method Commit(staged: Staged<T>) returns (raced: set<Addr>)
      modifies this
      ensures CommittedTo(old(Value()), staged, Value())
      ensures raced == Names(staged.desired) - old(running).Keys - staged.bound.Keys
    {
      ghost var before := Value();
      var named := Names(staged.desired);
      running := map a | a in running && a in named :: running[a];
      raced := {};
      assert staged.desired[..0] == [];
      for i := 0 to |staged.desired|
        invariant before.spawned <= spawned
        invariant PartlyCommitted(before, staged, i, running, spawned)
        invariant forall a :: a in raced <==>
                    a in Names(staged.desired[..i]) && a !in before.running && a !in staged.bound
      {
        var (addr, attached) := staged.desired[i];
        NamesPush(staged.desired[..i], staged.desired[i]);
        assert staged.desired[..i + 1] == staged.desired[..i] + [staged.desired[i]];
        assert addr in named;
        PartlyCommittedNext(before, staged, i, running, spawned);
        var startedOrKept := StartOrKeep(addr, attached, staged);
        if !startedOrKept {
          raced := raced + {addr};
        }
      }
      assert staged.desired[..|staged.desired|] == staged.desired;
      AllCommitted(before, staged, running, spawned);
      adopted := map[];
    }

    method StartOrKeep(addr: Addr, attached: T, staged: Staged<T>) returns (done: bool)
      modifies this`running, this`spawned
      ensures (running, spawned) == CommitEntry(staged.bound, addr, attached, old(running), old(spawned))
      ensures done <==> addr in old(running) || addr in staged.bound
    {
      done := true;
      if addr in running {
        running := running[addr := running[addr].(attached := attached)];
      } else if addr in staged.bound {
        running := running[addr := Running(attached, staged.bound[addr], spawned)];
        spawned := spawned + 1;
      } else {
        done := false;
      }
    }
  }

  /** What has been taken for the first `i` entries of `desired`. */
  ghost predicate PartlyStaged<T>(
    before: Set<T>, kernel: Kernel, desired: seq<(Addr, T)>, i: nat,
    adopted: map<Addr, Socket>, bound: map<Addr, Socket>)
    requires i <= |desired|
  {
    && bound.Keys == Names(desired[..i]) - before.running.Keys
    && adopted == before.adopted - bound.Keys
    && forall a :: a in bound ==> Available(before, kernel, a) && bound[a] == SocketFor(before, kernel, a)
  }

  /** The next entry is accepting already, or its socket is there to take as it was
      from the start. */
  lemma StagedNext<T>(
    before: Set<T>, kernel: Kernel, desired: seq<(Addr, T)>, i: nat,
    adopted: map<Addr, Socket>, bound: map<Addr, Socket>)
    requires i < |desired| && Distinct(desired) && PartlyStaged(before, kernel, desired, i, adopted, bound)
    ensures var a, now := desired[i].0, before.(adopted := adopted);
            if a in before.running then PartlyStaged(before, kernel, desired, i + 1, adopted, bound)
            else
              && (Available(now, kernel, a) <==> Available(before, kernel, a))
              && (Available(now, kernel, a) ==>
                    var socket := SocketFor(now, kernel, a);
                    PartlyStaged(before, kernel, desired, i + 1, adopted - {a}, bound[a := socket]))
  {
    var a := desired[i].0;
    NamesPush(desired[..i], desired[i]);
    assert desired[..i + 1] == desired[..i] + [desired[i]];
    assert a !in Names(desired[..i]);
    if a !in before.running && Available(before, kernel, a) {
      var more := bound[a := SocketFor(before, kernel, a)];
      assert more.Keys == bound.Keys + {a};
      assert adopted - {a} == before.adopted - more.Keys;
    }
  }

  /** The set once the first `i` entries of `staged` have been gone through. */
  ghost predicate PartlyCommitted<T>(
    before: Set<T>, staged: Staged<T>, i: nat, running: map<Addr, Running<T>>, spawned: nat)
    requires i <= |staged.desired|
  {
    && running.Keys == before.running.Keys * Names(staged.desired) + Names(staged.desired[..i]) * staged.bound.Keys
    && forall a :: a in running ==> EntryCommitted(before, staged, i, a, running[a], spawned)
  }

  ghost predicate EntryCommitted<T>(
    before: Set<T>, staged: Staged<T>, i: nat, a: Addr, entry: Running<T>, spawned: nat)
    requires i <= |staged.desired|
  {
    && (a in Names(staged.desired[..i]) ==> AttachedTo(staged.desired[..i], a, entry.attached))
    && if a in before.running then
         entry.socket == before.running[a].socket && entry.acceptLoop == before.running[a].acceptLoop
       else
         a in staged.bound && entry.socket == staged.bound[a] && before.spawned <= entry.acceptLoop < spawned
  }

  function CommitEntry<T>(
    bound: map<Addr, Socket>, addr: Addr, attached: T, running: map<Addr, Running<T>>, spawned: nat)
    : (map<Addr, Running<T>>, nat)
  {
    if addr in running then (running[addr := running[addr].(attached := attached)], spawned)
    else if addr in bound then (running[addr := Running(attached, bound[addr], spawned)], spawned + 1)
    else (running, spawned)
  }

  lemma AllCommitted<T>(before: Set<T>, staged: Staged<T>, running: map<Addr, Running<T>>, spawned: nat)
    requires before.spawned <= spawned && PartlyCommitted(before, staged, |staged.desired|, running, spawned)
    ensures CommittedTo(before, staged, Set(running, map[], spawned))
  {
    assert staged.desired[..|staged.desired|] == staged.desired;
  }

  lemma PartlyCommittedNext<T>(
    before: Set<T>, staged: Staged<T>, i: nat, running: map<Addr, Running<T>>, spawned: nat)
    requires i < |staged.desired| && before.spawned <= spawned && PartlyCommitted(before, staged, i, running, spawned)
    ensures var (addr, attached) := staged.desired[i];
            var (running', spawned') := CommitEntry(staged.bound, addr, attached, running, spawned);
            PartlyCommitted(before, staged, i + 1, running', spawned')
  {
    var (running', spawned') := CommitEntry(staged.bound, staged.desired[i].0, staged.desired[i].1, running, spawned);
    assert staged.desired[..i + 1] == staged.desired[..i] + [staged.desired[i]];
    NamesPush(staged.desired[..i], staged.desired[i]);
    assert staged.desired[i].0 in Names(staged.desired);
    forall a | a in running'
      ensures EntryCommitted(before, staged, i + 1, a, running'[a], spawned')
    {
      EntryCommittedNext(before, staged, i, running, spawned, a);
    }
  }

  lemma EntryCommittedNext<T>(
    before: Set<T>, staged: Staged<T>, i: nat, running: map<Addr, Running<T>>, spawned: nat, a: Addr)
    requires i < |staged.desired| && before.spawned <= spawned && PartlyCommitted(before, staged, i, running, spawned)
    requires a in CommitEntry(staged.bound, staged.desired[i].0, staged.desired[i].1, running, spawned).0
    ensures var (addr, attached) := staged.desired[i];
            var (running', spawned') := CommitEntry(staged.bound, addr, attached, running, spawned);
            EntryCommitted(before, staged, i + 1, a, running'[a], spawned')
  {
    var (running', spawned') := CommitEntry(staged.bound, staged.desired[i].0, staged.desired[i].1, running, spawned);
    var entry, earlier := staged.desired[i], staged.desired[..i];
    assert staged.desired[..i + 1] == earlier + [entry];
    NamesPush(earlier, entry);
    AttachedPush(earlier, entry, a, running'[a].attached);
    assert a in running ==> EntryCommitted(before, staged, i, a, running[a], spawned);
    assert entry.0 in Names(staged.desired);
  }

  lemma NamesPush<T>(desired: seq<(Addr, T)>, entry: (Addr, T))
    ensures Names(desired + [entry]) == Names(desired) + {entry.0}
  {
    var more := desired + [entry];
    assert forall i :: 0 <= i < |desired| ==> more[i] == desired[i];
    assert more[|desired|] == entry;
    forall a | a in Names(desired) ensures a in Names(more) {
      var i :| 0 <= i < |desired| && desired[i].0 == a;
      assert more[i].0 == a;
    }
  }

  lemma AttachedPush<T>(desired: seq<(Addr, T)>, entry: (Addr, T), addr: Addr, attached: T)
    ensures entry == (addr, attached) ==> AttachedTo(desired + [entry], addr, attached)
    ensures entry.0 != addr && AttachedTo(desired, addr, attached) ==> AttachedTo(desired + [entry], addr, attached)
  {
    var more := desired + [entry];
    if entry == (addr, attached) {
      assert more[|desired|] == entry;
    }
    if entry.0 != addr && AttachedTo(desired, addr, attached) {
      var i :| 0 <= i < |desired| && desired[i] == (addr, attached)
               && forall j :: i < j < |desired| ==> desired[j].0 != addr;
      assert more[i] == desired[i];
    }
  }

  method NamesTwice<T>(desired: seq<(Addr, T)>) returns (twice: bool)
    ensures twice <==> !Distinct(desired)
  {
    var named: set<Addr> := {};
    for i := 0 to |desired|
      invariant named == Names(desired[..i])
      invariant Distinct(desired[..i])
    {
      var addr := desired[i].0;
      NamesPush(desired[..i], desired[i]);
      assert desired[..i + 1] == desired[..i] + [desired[i]];
      if addr in named {
        var j :| 0 <= j < i && desired[..i][j].0 == addr;
        assert desired[j].0 == desired[i].0;
        return true;
      }
      named := named + {addr};
    }
    assert desired[..|desired|] == desired;
    twice := false;
  }

  // ---------------------------------------------------------------------------
  // Whole reconciles

  /** One reconcile of `before`: a stage that failed, or one followed by its
      commit. */
  ghost predicate Reconciled<T>(before: Set<T>, kernel: Kernel, desired: seq<(Addr, T)>, after: Set<T>) {
    if CanStage(before, kernel, desired) then
      exists bound :: StagedAndCommitted(before, kernel, Staged(desired, bound), after)
    else
      after.running == before.running && after.spawned == before.spawned && after.adopted.Keys <= before.adopted.Keys
  }

  ghost predicate StagedAndCommitted<T>(before: Set<T>, kernel: Kernel, staged: Staged<T>, after: Set<T>) {
    && StagedFrom(before, kernel, staged.desired, staged)
    && CommittedTo(before.(adopted := before.adopted - staged.bound.Keys), staged, after)
  }

  /** A stage and its commit leave exactly the desired addresses accepting, with
      no address short of a socket. */
  lemma CommitFollowingStage<T>(before: Set<T>, kernel: Kernel, desired: seq<(Addr, T)>, after: Set<T>)
    requires CanStage(before, kernel, desired) && Reconciled(before, kernel, desired, after)
    ensures after.running.Keys == Names(desired) && after.adopted == map[]
    ensures forall a :: a in Names(desired) - before.running.Keys && a in before.adopted ==>
              after.running[a].socket == before.adopted[a]
    ensures forall i :: 0 <= i < |desired| ==> after.running[desired[i].0].attached == desired[i].1
  {
    var bound :| StagedAndCommitted(before, kernel, Staged(desired, bound), after);
    var staged := Staged(desired, bound);
    forall i | 0 <= i < |desired|
      ensures desired[i].0 in after.running && after.running[desired[i].0].attached == desired[i].1
    {
      assert desired[i].0 in Names(desired);
      AttachedOnce(desired, i, after.running[desired[i].0].attached);
    }
  }

  lemma AttachedOnce<T>(desired: seq<(Addr, T)>, i: nat, attached: T)
    requires Distinct(desired) && i < |desired| && AttachedTo(desired, desired[i].0, attached)
    ensures attached == desired[i].1
  {
    var k :| 0 <= k < |desired| && desired[k] == (desired[i].0, attached);
  }

  /** One step of the process's life as its listeners go: a config, and what the
      kernel answered. */
  datatype Reload<T> = Reload(kernel: Kernel, desired: seq<(Addr, T)>)

  ghost predicate History<T>(states: seq<Set<T>>, reloads: seq<Reload<T>>) {
    && |states| == |reloads| + 1
    && forall i :: 0 <= i < |reloads| ==> Reconciled(states[i], reloads[i].kernel, reloads[i].desired, states[i + 1])
  }

  /** An address that accepts, and that no config applied since leaves out, is
      accepted on with the same socket by the same loop, through any number of
      reloads that apply and reloads that fail. */
  lemma {:induction false} KeptThroughReloads<T>(states: seq<Set<T>>, reloads: seq<Reload<T>>, addr: Addr, n: nat)
    requires History(states, reloads) && n <= |reloads| && addr in states[0].running
    requires forall i :: 0 <= i < |reloads| && CanStage(states[i], reloads[i].kernel, reloads[i].desired) ==>
               addr in Names(reloads[i].desired)
    ensures addr in states[n].running
    ensures states[n].running[addr].socket == states[0].running[addr].socket
    ensures states[n].running[addr].acceptLoop == states[0].running[addr].acceptLoop
  {
    if n > 0 {
      KeptThroughReloads(states, reloads, addr, n - 1);
      var Reload(kernel, desired) := reloads[n - 1];
      var before, after := states[n - 1], states[n];
      assert Reconciled(before, kernel, desired, states[n - 1 + 1]);
      if CanStage(before, kernel, desired) {
        CommitFollowingStage(before, kernel, desired, after);
      }
    }
  }
}

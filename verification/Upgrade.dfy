/** A chain of processes taking over from each other: nodes, the successors they
    start, and the channel between each pair, as a system of steps. A successor may
    be upgraded in turn, so there can be any number of processes. */
module Upgrade {
  import opened Prelude

  type Addr = string

  /** A listening socket of the kernel. It stays open as long as a process has it. */
  type Socket = nat

  type Pid = nat

  datatype Phase =
    /** Started by its predecessor, whose sockets are on their way to it. */
    | Starting
    /** Has the sockets, and has said so. */
    | Received
    /** Accepts on its listeners, and has not said so. */
    | Accepting
    /** Has released its predecessor, or had none: waits for signals. */
    | Serving
    /** No longer accepts; its open connections finish. */
    | Leaving
    | Dead

  datatype Word = Receipt(pid: Pid) | Ready

  /** What a node's upgrade waits for. */
  datatype Waiting = Nothing | ForReceipt(successor: Pid) | ForReady(successor: Pid)

  datatype Process = Process(
    phase: Phase,
    parent: Option<Pid>,
    /** The sockets it listens on, or, until it does, was handed. */
    sockets: map<Addr, Socket>,
    waiting: Waiting,
    /** What the successor it waits for has written and it has not read. */
    inbox: seq<Word>,
    /** It told its predecessor it accepts (or never had one). */
    confirmed: bool,
    /** The successor whose `ready` it read. */
    handedTo: Option<Pid>)

  /** `stopped`: some node was told to stop. `crashed`: one died on its own while
      it was serving, and no successor of it had said that it accepts. */
  datatype World = World(procs: seq<Process>, stopped: bool, crashed: bool)

  datatype Step =
    /** A reload changes what a serving node listens on. */
    | Reconcile(pid: Pid, sockets: map<Addr, Socket>)
    | StartSuccessor(pid: Pid)
    | TakeSockets(pid: Pid)
    | StartListening(pid: Pid, sockets: map<Addr, Socket>)
    | Release(pid: Pid)
    | ReadReceipt(pid: Pid)
    | ReadReady(pid: Pid)
    /** The deadline passes: a successor is killed if its process id is known. */
    | TimeOut(pid: Pid)
    /** The successor's end of the channel is closed and everything was read. */
    | SeeItGone(pid: Pid)
    | Stop(pid: Pid)
    | Crash(pid: Pid)
    /** Drained, or unable to start. */
    | Exit(pid: Pid)

  predicate Live(w: World, p: Pid) {
    p < |w.procs| && !w.procs[p].phase.Dead?
  }

  predicate In(w: World, p: Pid, phase: Phase) {
    p < |w.procs| && w.procs[p].phase == phase
  }

  /** Whether `c` can still be heard by the node that started it. */
  predicate Heard(w: World, c: Pid) {
    c < |w.procs| && w.procs[c].parent.Some? &&
    var p := w.procs[c].parent.value;
    p < |w.procs| && !w.procs[p].phase.Dead? && w.procs[p].waiting in {ForReceipt(c), ForReady(c)}
  }

  /** A process keeps, of the addresses in `shared`, the sockets it has. */
  predicate Keeps(shared: set<Addr>, before: map<Addr, Socket>, after: map<Addr, Socket>) {
    forall a :: a in shared && a in before ==> a in after && after[a] == before[a]
  }

  predicate Enabled(shared: set<Addr>, w: World, step: Step) {
    match step
    // What `Listeners.KeptThroughReloads` and `Listeners.CommitFollowingStage` say of a
    // config that names every shared address.
    case Reconcile(p, sockets) => In(w, p, Serving) && Keeps(shared, w.procs[p].sockets, sockets)
    case StartListening(c, sockets) => In(w, c, Received) && Keeps(shared, w.procs[c].sockets, sockets)
    case StartSuccessor(p) => In(w, p, Serving) && w.procs[p].waiting.Nothing?
    case TakeSockets(c) => In(w, c, Starting)
    case Release(c) => In(w, c, Accepting)
    case ReadReceipt(p) => In(w, p, Serving) && w.procs[p].waiting.ForReceipt? && w.procs[p].inbox != []
    case ReadReady(p) => In(w, p, Serving) && w.procs[p].waiting.ForReady? && w.procs[p].inbox != []
    case TimeOut(p) => In(w, p, Serving) && !w.procs[p].waiting.Nothing?
    case SeeItGone(p) =>
      In(w, p, Serving) && !w.procs[p].waiting.Nothing? && w.procs[p].inbox == []
      && !Live(w, w.procs[p].waiting.successor)
    case Stop(p) => In(w, p, Serving)
    case Crash(p) => Live(w, p)
    case Exit(p) => Live(w, p) && w.procs[p].phase in {Starting, Received, Leaving}
  }

  function Set(w: World, p: Pid, process: Process): World
    requires p < |w.procs|
  {
    w.(procs := w.procs[p := process])
  }

  function Kill(w: World, c: Pid): World {
    if c < |w.procs| then Set(w, c, w.procs[c].(phase := Dead)) else w
  }

  /** `c` writes a word to the node that started it, which fails if that node
      listens no more: `c` then gives up. */
  function Tell(w: World, c: Pid, word: Word, then_: Process): World
    requires c < |w.procs|
  {
    if Heard(w, c) then
      var p := w.procs[c].parent.value;
      Set(Set(w, p, w.procs[p].(inbox := w.procs[p].inbox + [word])), c, then_)
    else Kill(w, c)
  }

  function GiveUp(w: World, p: Pid): World
    requires p < |w.procs|
  {
    Set(w, p, w.procs[p].(waiting := Nothing, inbox := []))
  }

  function Next(shared: set<Addr>, w: World, step: Step): World
    requires Enabled(shared, w, step)
  {
    var me := w.procs[step.pid];
    match step
    case Reconcile(p, sockets) => Set(w, p, me.(sockets := sockets))
    case StartSuccessor(p) =>
      var child := Process(Starting, Some(p), me.sockets, Nothing, [], false, None);
      var w := Set(w, p, me.(waiting := ForReceipt(|w.procs|), inbox := []));
      w.(procs := w.procs + [child])
    case TakeSockets(c) => Tell(w, c, Receipt(c), me.(phase := Received))
    case StartListening(c, sockets) => Set(w, c, me.(phase := Accepting, sockets := sockets))
    case Release(c) => Tell(w, c, Ready, me.(phase := Serving, confirmed := true))
    case ReadReceipt(p) =>
      if me.inbox[0].Receipt? then Set(w, p, me.(waiting := ForReady(me.waiting.successor), inbox := me.inbox[1..]))
      else GiveUp(w, p)
    case ReadReady(p) =>
      if me.inbox[0].Ready? then
        Set(w, p, me.(phase := Leaving, waiting := Nothing, inbox := [], handedTo := Some(me.waiting.successor)))
      else GiveUp(w, p)
    case TimeOut(p) => if me.waiting.ForReady? then Kill(GiveUp(w, p), me.waiting.successor) else GiveUp(w, p)
    case SeeItGone(p) => GiveUp(w, p)
    case Stop(p) =>
      // An upgrade under way is abandoned; a successor that is known is killed.
      var w' := if me.waiting.ForReady? then Kill(GiveUp(w, p), me.waiting.successor) else GiveUp(w, p);
      Set(w', p, w'.procs[p].(phase := Leaving)).(stopped := true)
    case Crash(p) => Kill(w, p).(crashed := w.crashed || (me.phase.Serving? && Ready !in me.inbox))
    case Exit(p) => Kill(w, p)
  }

  /** One node, serving on `sockets`. */
  function FirstNode(sockets: map<Addr, Socket>): World {
    World([Process(Serving, None, sockets, Nothing, [], true, None)], false, false)
  }

  ghost predicate Possible(shared: set<Addr>, w: World, steps: seq<Step>)
    decreases |steps|
  {
    steps == [] || (Enabled(shared, w, steps[0]) && Possible(shared, Next(shared, w, steps[0]), steps[1..]))
  }

  ghost function Run(shared: set<Addr>, w: World, steps: seq<Step>): World
    requires Possible(shared, w, steps)
    decreases |steps|
  {
    if steps == [] then w else Run(shared, Next(shared, w, steps[0]), steps[1..])
  }

  // ---------------------------------------------------------------------------
  // What every step keeps

  /** `p` holds, for every shared address, the socket the first node bound. */
  ghost predicate HoldsShared(shared: set<Addr>, first: map<Addr, Socket>, proc: Process) {
    forall a :: a in shared ==> a in first && a in proc.sockets && proc.sockets[a] == first[a]
  }

  /** Serves, or has handed over to one that does or has, or was told by one that
      it does. */
  predicate CarriesOn(proc: Process) {
    proc.phase.Serving? || proc.handedTo.Some? || Ready in proc.inbox
  }

  ghost predicate ProcessInv(shared: set<Addr>, first: map<Addr, Socket>, w: World, p: Pid)
    requires p < |w.procs|
  {
    var proc := w.procs[p];
    && HoldsShared(shared, first, proc)
    && (proc.parent.Some? ==> proc.parent.value < p)
    && (CarriesOn(proc) ==> proc.confirmed)
    && (proc.phase in {Starting, Received, Accepting} ==> !proc.confirmed)
    && (!proc.waiting.Nothing? ==>
          var c := proc.waiting.successor;
          && proc.confirmed && p < c < |w.procs| && w.procs[c].parent == Some(p)
          && (Ready in proc.inbox ==> w.procs[c].confirmed && (CarriesOn(w.procs[c]) || w.stopped || w.crashed)))
    && (proc.waiting.Nothing? ==> proc.inbox == [])
    && (proc.handedTo.Some? ==>
          var c := proc.handedTo.value;
          && p < c < |w.procs| && w.procs[c].parent == Some(p) && w.procs[c].confirmed
          && !proc.phase.Serving? && proc.waiting.Nothing?
          && (CarriesOn(w.procs[c]) || w.stopped || w.crashed))
  }

  ghost predicate Inv(shared: set<Addr>, first: map<Addr, Socket>, w: World) {
    && w.procs != []
    && (CarriesOn(w.procs[0]) || w.stopped || w.crashed)
    && forall p :: 0 <= p < |w.procs| ==> ProcessInv(shared, first, w, p)
  }

  lemma FirstNodeInv(shared: set<Addr>, sockets: map<Addr, Socket>)
    requires shared <= sockets.Keys
    ensures Inv(shared, sockets, FirstNode(sockets))
  {
  }

  /** No other process counts on `c` having taken over. */
  ghost predicate NobodyRelies(w: World, c: Pid) {
    c != 0 && forall q :: 0 <= q < |w.procs| ==>
      && w.procs[q].handedTo != Some(c)
      && (w.procs[q].waiting in {ForReceipt(c), ForReady(c)} ==> Ready !in w.procs[q].inbox)
  }

  /** One process changes: what the others rely on is who its parent is, that it
      confirmed, and that it carries on. */
  lemma SetInv(
    shared: set<Addr>, first: map<Addr, Socket>, w: World, p: Pid, proc: Process, stopped: bool, crashed: bool)
    requires Inv(shared, first, w) && p < |w.procs|
    requires (w.stopped ==> stopped) && (w.crashed ==> crashed)
    requires proc.parent == w.procs[p].parent && (w.procs[p].confirmed ==> proc.confirmed)
    requires (CarriesOn(w.procs[p]) ==> CarriesOn(proc) || stopped || crashed) || NobodyRelies(w, p)
    requires ProcessInv(shared, first, World(w.procs[p := proc], stopped, crashed), p)
    ensures Inv(shared, first, World(w.procs[p := proc], stopped, crashed))
  {
    var w' := World(w.procs[p := proc], stopped, crashed);
    forall q | 0 <= q < |w'.procs|
      ensures ProcessInv(shared, first, w', q)
    {
      assert ProcessInv(shared, first, w, q);
    }
    assert ProcessInv(shared, first, w, 0);
  }

  /** The same, of a process that dies with nobody relying on it, or that had
      not confirmed. */
  lemma KillInv(shared: set<Addr>, first: map<Addr, Socket>, w: World, c: Pid, stopped: bool, crashed: bool)
    requires Inv(shared, first, w) && c < |w.procs| && (w.stopped ==> stopped) && (w.crashed ==> crashed)
    requires w.procs[c].phase.Serving? && Ready !in w.procs[c].inbox ==> NobodyRelies(w, c) || stopped || crashed
    ensures Inv(shared, first, Kill(w, c).(stopped := stopped, crashed := crashed))
  {
    assert ProcessInv(shared, first, w, c);
    SetInv(shared, first, w, c, w.procs[c].(phase := Dead), stopped, crashed);
  }

  lemma GiveUpInv(shared: set<Addr>, first: map<Addr, Socket>, w: World, p: Pid)
    requires Inv(shared, first, w) && In(w, p, Serving)
    ensures Inv(shared, first, GiveUp(w, p))
  {
    assert ProcessInv(shared, first, w, p);
    SetInv(shared, first, w, p, w.procs[p].(waiting := Nothing, inbox := []), w.stopped, w.crashed);
  }

  /** Once a node has given its upgrade up, nobody relies on the successor. */
  lemma GivenUp(shared: set<Addr>, first: map<Addr, Socket>, w: World, p: Pid)
    requires Inv(shared, first, w) && In(w, p, Serving) && !w.procs[p].waiting.Nothing?
    ensures NobodyRelies(GiveUp(w, p), w.procs[p].waiting.successor)
  {
    var c, w' := w.procs[p].waiting.successor, GiveUp(w, p);
    assert ProcessInv(shared, first, w, p);
    forall q | 0 <= q < |w'.procs|
      ensures w'.procs[q].handedTo != Some(c)
      ensures w'.procs[q].waiting in {ForReceipt(c), ForReady(c)} ==> Ready !in w'.procs[q].inbox
    {
      assert ProcessInv(shared, first, w, q);
    }
  }

  lemma AbandonInv(shared: set<Addr>, first: map<Addr, Socket>, w: World, p: Pid)
    requires Inv(shared, first, w) && In(w, p, Serving) && w.procs[p].waiting.ForReady?
    ensures Inv(shared, first, Kill(GiveUp(w, p), w.procs[p].waiting.successor))
  {
    assert ProcessInv(shared, first, w, p);
    GiveUpInv(shared, first, w, p);
    GivenUp(shared, first, w, p);
    KillInv(shared, first, GiveUp(w, p), w.procs[p].waiting.successor, w.stopped, w.crashed);
  }

  lemma TellInv(shared: set<Addr>, first: map<Addr, Socket>, w: World, c: Pid, word: Word, then_: Process)
    requires Inv(shared, first, w) && c < |w.procs| && !w.procs[c].confirmed
    requires then_.parent == w.procs[c].parent && (word.Ready? ==> then_.confirmed && then_.phase.Serving?)
    requires ProcessInv(shared, first, Set(w, c, then_), c)
    ensures Inv(shared, first, Tell(w, c, word, then_))
  {
    assert ProcessInv(shared, first, w, c);
    if Heard(w, c) {
      var p := w.procs[c].parent.value;
      assert ProcessInv(shared, first, w, p);
      SetInv(shared, first, w, c, then_, w.stopped, w.crashed);
      var w1 := Set(w, c, then_);
      var parent := w.procs[p].(inbox := w.procs[p].inbox + [word]);
      assert ProcessInv(shared, first, w1, p);
      SetInv(shared, first, w1, p, parent, w.stopped, w.crashed);
      assert w1.procs[p := parent] == w.procs[p := parent][c := then_];
    } else {
      KillInv(shared, first, w, c, w.stopped, w.crashed);
    }
  }

  lemma StartSuccessorInv(shared: set<Addr>, first: map<Addr, Socket>, w: World, p: Pid)
    requires Inv(shared, first, w) && Enabled(shared, w, StartSuccessor(p))
    ensures Inv(shared, first, Next(shared, w, StartSuccessor(p)))
  {
    var w' := Next(shared, w, StartSuccessor(p));
    assert ProcessInv(shared, first, w, p);
    forall q | 0 <= q < |w'.procs|
      ensures ProcessInv(shared, first, w', q)
    {
      assert q < |w.procs| ==> ProcessInv(shared, first, w, q);
    }
  }

  lemma ReadReceiptInv(shared: set<Addr>, first: map<Addr, Socket>, w: World, p: Pid)
    requires Inv(shared, first, w) && Enabled(shared, w, ReadReceipt(p))
    ensures Inv(shared, first, Next(shared, w, ReadReceipt(p)))
  {
    var me := w.procs[p];
    assert ProcessInv(shared, first, w, p);
    if me.inbox[0].Receipt? {
      var told := me.(waiting := ForReady(me.waiting.successor), inbox := me.inbox[1..]);
      SetInv(shared, first, w, p, told, w.stopped, w.crashed);
    } else {
      GiveUpInv(shared, first, w, p);
    }
  }

  lemma ReadReadyInv(shared: set<Addr>, first: map<Addr, Socket>, w: World, p: Pid)
    requires Inv(shared, first, w) && Enabled(shared, w, ReadReady(p))
    ensures Inv(shared, first, Next(shared, w, ReadReady(p)))
  {
    var me := w.procs[p];
    assert ProcessInv(shared, first, w, p);
    if me.inbox[0].Ready? {
      assert Ready in me.inbox;
      var leaving := me.(phase := Leaving, waiting := Nothing, inbox := [], handedTo := Some(me.waiting.successor));
      SetInv(shared, first, w, p, leaving, w.stopped, w.crashed);
    } else {
      GiveUpInv(shared, first, w, p);
    }
  }

  lemma StopInv(shared: set<Addr>, first: map<Addr, Socket>, w: World, p: Pid)
    requires Inv(shared, first, w) && Enabled(shared, w, Stop(p))
    ensures Inv(shared, first, Next(shared, w, Stop(p)))
  {
    var me := w.procs[p];
    assert ProcessInv(shared, first, w, p);
    if me.waiting.ForReady? { AbandonInv(shared, first, w, p); } else { GiveUpInv(shared, first, w, p); }
    var w' := if me.waiting.ForReady? then Kill(GiveUp(w, p), me.waiting.successor) else GiveUp(w, p);
    assert ProcessInv(shared, first, w', p);
    SetInv(shared, first, w', p, w'.procs[p].(phase := Leaving), true, w'.crashed);
  }

  lemma ListenInv(shared: set<Addr>, first: map<Addr, Socket>, w: World, step: Step)
    requires Inv(shared, first, w) && Enabled(shared, w, step) && (step.Reconcile? || step.StartListening?)
    ensures Inv(shared, first, Next(shared, w, step))
  {
    var me := w.procs[step.pid];
    assert ProcessInv(shared, first, w, step.pid);
    if step.Reconcile? {
      SetInv(shared, first, w, step.pid, me.(sockets := step.sockets), w.stopped, w.crashed);
    } else {
      SetInv(shared, first, w, step.pid, me.(phase := Accepting, sockets := step.sockets), w.stopped, w.crashed);
    }
  }

  lemma AnswerInv(shared: set<Addr>, first: map<Addr, Socket>, w: World, step: Step)
    requires Inv(shared, first, w) && Enabled(shared, w, step) && (step.TakeSockets? || step.Release?)
    ensures Inv(shared, first, Next(shared, w, step))
  {
    var me := w.procs[step.pid];
    assert ProcessInv(shared, first, w, step.pid);
    if step.TakeSockets? {
      TellInv(shared, first, w, step.pid, Receipt(step.pid), me.(phase := Received));
    } else {
      TellInv(shared, first, w, step.pid, Ready, me.(phase := Serving, confirmed := true));
    }
  }

  lemma DeathInv(shared: set<Addr>, first: map<Addr, Socket>, w: World, step: Step)
    requires Inv(shared, first, w) && Enabled(shared, w, step) && (step.Crash? || step.Exit?)
    ensures Inv(shared, first, Next(shared, w, step))
  {
    assert ProcessInv(shared, first, w, step.pid);
    var me := w.procs[step.pid];
    KillInv(shared, first, w, step.pid, w.stopped,
      w.crashed || (step.Crash? && me.phase.Serving? && Ready !in me.inbox));
  }

  lemma NextInv(shared: set<Addr>, first: map<Addr, Socket>, w: World, step: Step)
    requires Inv(shared, first, w) && Enabled(shared, w, step)
    ensures Inv(shared, first, Next(shared, w, step))
  {
    match step
    case Reconcile(_, _) => ListenInv(shared, first, w, step);
    case StartListening(_, _) => ListenInv(shared, first, w, step);
    case StartSuccessor(p) => StartSuccessorInv(shared, first, w, p);
    case TakeSockets(_) => AnswerInv(shared, first, w, step);
    case Release(_) => AnswerInv(shared, first, w, step);
    case ReadReceipt(p) => ReadReceiptInv(shared, first, w, p);
    case ReadReady(p) => ReadReadyInv(shared, first, w, p);
    case TimeOut(p) =>
      if w.procs[p].waiting.ForReady? { AbandonInv(shared, first, w, p); } else { GiveUpInv(shared, first, w, p); }
    case SeeItGone(p) => GiveUpInv(shared, first, w, p);
    case Stop(p) => StopInv(shared, first, w, p);
    case Crash(_) => DeathInv(shared, first, w, step);
    case Exit(_) => DeathInv(shared, first, w, step);
  }

  lemma {:induction false} RunInv(shared: set<Addr>, first: map<Addr, Socket>, w: World, steps: seq<Step>)
    requires Inv(shared, first, w) && Possible(shared, w, steps)
    ensures Inv(shared, first, Run(shared, w, steps))
    decreases |steps|
  {
    if steps != [] {
      NextInv(shared, first, w, steps[0]);
      RunInv(shared, first, Next(shared, w, steps[0]), steps[1..]);
    }
  }

  // ---------------------------------------------------------------------------
  // The guarantees

  /** `p` accepts on every shared address, on the very sockets the first node
      bound. */
  ghost predicate AcceptsShared(shared: set<Addr>, first: map<Addr, Socket>, w: World, p: Pid) {
    && p < |w.procs| && w.procs[p].phase in {Accepting, Serving}
    && HoldsShared(shared, first, w.procs[p])
  }

  /** The one who carries on is at the end of the handovers. */
  lemma {:induction false} EndOfTheLine(shared: set<Addr>, first: map<Addr, Socket>, w: World, p: Pid) returns (q: Pid)
    requires Inv(shared, first, w) && !w.stopped && !w.crashed && p < |w.procs| && CarriesOn(w.procs[p])
    ensures p <= q < |w.procs| && w.procs[q].phase.Serving?
    decreases |w.procs| - p
  {
    assert ProcessInv(shared, first, w, p);
    if w.procs[p].phase.Serving? {
      q := p;
    } else {
      var next := if w.procs[p].handedTo.Some? then w.procs[p].handedTo.value else w.procs[p].waiting.successor;
      q := EndOfTheLine(shared, first, w, next);
    }
  }

  /** In every run in which no node is told to stop, and none crashes while it
      serves and before a successor has said it accepts, however many upgrades are
      tried, fail, time out or succeed, some live process accepts on every address all configs name, on
      the socket the first node bound: no connection to them is refused, and none
      waiting on them is reset. */
  lemma AlwaysAccepting(shared: set<Addr>, sockets: map<Addr, Socket>, steps: seq<Step>)
    requires shared <= sockets.Keys && Possible(shared, FirstNode(sockets), steps)
    ensures var w := Run(shared, FirstNode(sockets), steps);
            !w.stopped && !w.crashed ==> exists p :: AcceptsShared(shared, sockets, w, p)
  {
    FirstNodeInv(shared, sockets);
    RunInv(shared, sockets, FirstNode(sockets), steps);
    var w := Run(shared, FirstNode(sockets), steps);
    if !w.stopped && !w.crashed {
      var p := EndOfTheLine(shared, sockets, w, 0);
      assert ProcessInv(shared, sockets, w, p);
      assert AcceptsShared(shared, sockets, w, p);
    }
  }

  /** A serving node that was not told to stop and did not crash stops accepting
      only by reading `ready`, and then the successor it started has said it
      accepts, and does, or has been relieved in turn; or by being killed by the
      node it took over from, which never read its `ready` and goes on serving
      (unless it was told to stop). */
  lemma LeavesOnlyOnReady(shared: set<Addr>, first: map<Addr, Socket>, w: World, step: Step, p: Pid)
    requires Inv(shared, first, w) && Enabled(shared, w, step) && In(w, p, Serving)
    requires !In(Next(shared, w, step), p, Serving) && step != Stop(p) && step != Crash(p)
    ensures step.pid == p ==>
              var c := w.procs[p].waiting.successor;
              && step == ReadReady(p) && w.procs[p].inbox[0] == Ready
              && c < |w.procs| && w.procs[c].parent == Some(p) && w.procs[c].confirmed
              && (CarriesOn(w.procs[c]) || w.stopped || w.crashed)
    ensures step.pid != p ==>
              && w.procs[step.pid].waiting == ForReady(p) && w.procs[p].parent == Some(step.pid)
              && (In(Next(shared, w, step), step.pid, Serving) || step.Stop?)
  {
    assert ProcessInv(shared, first, w, p);
    if step.pid == p {
      assert step.ReadReady? && w.procs[p].inbox[0] == Ready;
      assert Ready in w.procs[p].inbox;
    } else {
      KilledByItsParent(shared, first, w, step, p);
    }
  }

  lemma KilledByItsParent(shared: set<Addr>, first: map<Addr, Socket>, w: World, step: Step, p: Pid)
    requires Inv(shared, first, w) && Enabled(shared, w, step) && In(w, p, Serving) && step.pid != p
    requires !In(Next(shared, w, step), p, Serving)
    ensures w.procs[step.pid].waiting == ForReady(p) && w.procs[p].parent == Some(step.pid)
    ensures In(Next(shared, w, step), step.pid, Serving) || step.Stop?
  {
    assert ProcessInv(shared, first, w, step.pid);
    OthersPhase(shared, w, step, p);
  }

  /** What can end the serving of `p`: it is told to stop, it crashes, it reads
      that its successor accepts, or it is killed by the node it took over from,
      which has not read that it does. */
  predicate Ends(w: World, step: Step, p: Pid) {
    || step == Stop(p) || step == Crash(p)
    || (step == ReadReady(p) && p < |w.procs| && w.procs[p].inbox != [] && w.procs[p].inbox[0].Ready?)
    || ((step.TimeOut? || step.Stop?) && step.pid < |w.procs| && w.procs[step.pid].waiting == ForReady(p))
  }

  /** A step of another process leaves the phase of `p` as it is, unless it kills
      `p` for not having said it accepts. */
  lemma OthersPhase(shared: set<Addr>, w: World, step: Step, p: Pid)
    requires Enabled(shared, w, step) && p < |w.procs| && step.pid != p
    ensures var w' := Next(shared, w, step);
            && p < |w'.procs|
            && w'.procs[p].phase ==
               if (step.TimeOut? || step.Stop?) && w.procs[step.pid].waiting == ForReady(p) then Dead
               else w.procs[p].phase
  {
  }

  lemma OwnPhase(shared: set<Addr>, first: map<Addr, Socket>, w: World, step: Step, p: Pid)
    requires Inv(shared, first, w) && Enabled(shared, w, step) && In(w, p, Serving) && step.pid == p
    ensures var w' := Next(shared, w, step);
            && p < |w'.procs|
            && w'.procs[p].phase ==
               if step.Crash? then Dead
               else if step.Stop? || (step.ReadReady? && w.procs[p].inbox[0].Ready?) then Leaving
               else Serving
  {
    assert ProcessInv(shared, first, w, p);
  }

  lemma ServesOnIff(shared: set<Addr>, first: map<Addr, Socket>, w: World, step: Step, p: Pid)
    requires Inv(shared, first, w) && Enabled(shared, w, step) && In(w, p, Serving)
    ensures var w' := Next(shared, w, step);
            && (In(w', p, Serving) <==> !Ends(w, step, p))
            && p < |w'.procs| && (!In(w', p, Serving) ==> w'.procs[p].phase in {Leaving, Dead})
  {
    if step.pid == p {
      OwnPhase(shared, first, w, step, p);
      assert ProcessInv(shared, first, w, p);
    } else {
      OthersPhase(shared, w, step, p);
    }
  }

  /** A process that is leaving or dead never serves again. */
  lemma NeverAgain(shared: set<Addr>, w: World, step: Step, p: Pid)
    requires Enabled(shared, w, step) && p < |w.procs| && w.procs[p].phase in {Leaving, Dead}
    ensures Next(shared, w, step).procs[p].phase in {Leaving, Dead}
  {
    if step.pid != p {
      OthersPhase(shared, w, step, p);
    }
  }

  lemma {:induction false} NeverServesAgain(shared: set<Addr>, w: World, steps: seq<Step>, p: Pid)
    requires Possible(shared, w, steps) && p < |w.procs| && w.procs[p].phase in {Leaving, Dead}
    ensures !In(Run(shared, w, steps), p, Serving)
    decreases |steps|
  {
    if steps != [] {
      NeverAgain(shared, w, steps[0], p);
      NeverServesAgain(shared, Next(shared, w, steps[0]), steps[1..], p);
    }
  }

  /** Some step of the run ends the serving of `p`. */
  ghost predicate SomeEnds(shared: set<Addr>, w: World, steps: seq<Step>, p: Pid)
    requires Possible(shared, w, steps)
    decreases |steps|
  {
    steps != [] && (Ends(w, steps[0], p) || SomeEnds(shared, Next(shared, w, steps[0]), steps[1..], p))
  }

  /** A failed upgrade changes nothing for the node that tried it. In every run,
      whatever upgrades it starts and whatever becomes of them, a node serves at
      the end if and only if none of the four things that end its serving has
      happened; and then it holds every shared socket, and can try again unless
      it is trying. */
  lemma {:induction false} FailedUpgradesChangeNothing(
    shared: set<Addr>, first: map<Addr, Socket>, w: World, steps: seq<Step>, p: Pid)
    requires Inv(shared, first, w) && Possible(shared, w, steps) && In(w, p, Serving)
    ensures var end := Run(shared, w, steps);
            && (In(end, p, Serving) <==> !SomeEnds(shared, w, steps, p))
            && (In(end, p, Serving) ==>
                  && HoldsShared(shared, first, end.procs[p])
                  && (Enabled(shared, end, StartSuccessor(p)) || Enabled(shared, end, TimeOut(p))))
    decreases |steps|
  {
    if steps == [] {
      assert ProcessInv(shared, first, w, p);
    } else {
      var next := Next(shared, w, steps[0]);
      NextInv(shared, first, w, steps[0]);
      ServesOnIff(shared, first, w, steps[0], p);
      if In(next, p, Serving) {
        FailedUpgradesChangeNothing(shared, first, next, steps[1..], p);
      } else {
        NeverServesAgain(shared, next, steps[1..], p);
      }
    }
  }

  /** A successor that is waited for and does not answer in time is dead. */
  lemma TimedOutIsKilled(shared: set<Addr>, first: map<Addr, Socket>, w: World, p: Pid)
    requires Inv(shared, first, w) && Enabled(shared, w, TimeOut(p))
    ensures var w' := Next(shared, w, TimeOut(p));
            && In(w', p, Serving) && w'.procs[p].sockets == w.procs[p].sockets
            && (w.procs[p].waiting.ForReady? ==> !Live(w', w.procs[p].waiting.successor))
  {
    assert ProcessInv(shared, first, w, p);
  }
}

/** The two ends of an upgrade as each process runs through them: waiting for a
    successor, and the loop over signals a node leaves only once. */
module NodeRun {
  import opened Prelude
  import opened HandoverMessages

  datatype Failure =
    | NotLaunched
    | NotSent
    | NoReceipt(receiptError: Option<ReadFailure>)
    | NoConfirmation(error: Option<ReadFailure>)

  /** One attempt at an upgrade, as the world answers it: whether a successor
      starts and is sent the sockets, what is read of its answers and until when,
      and whether the node is told to stop meanwhile. */
  datatype Launch = Launch(launched: bool, sent: bool, attempts: seq<Attempt>, deadline: int, stopped: bool)

  /** The first line read, by then, is `receipt`, and names process `pid`. */
  ghost predicate Acknowledges(l: Launch, isText: string -> bool, receipt: string, used: nat, pid: nat) {
    && l.launched && l.sent
    && Delivers(l.attempts, l.deadline, used, receipt) && isText(receipt) && ParseReceipt(receipt) == Some(pid)
  }

  /** The successor named itself `pid` and then, in time, said it accepts. */
  ghost predicate TakesOver(l: Launch, isText: string -> bool, pid: nat) {
    exists receipt: string, used: nat, later: nat ::
      && Acknowledges(l, isText, receipt, used, pid)
      && Delivers(l.attempts[used..], l.deadline, later, READY) && isText(READY)
  }

  /** The successor named itself `pid`, in time. */
  ghost predicate Named(l: Launch, isText: string -> bool, pid: nat) {
    exists receipt: string, used: nat :: Acknowledges(l, isText, receipt, used, pid)
  }

  /** Whether `pid` can be the id of a process to kill: the kernel's are signed,
      and a 0 would stand for more than one. */
  predicate Killable(pid: nat) {
    0 < pid < TWO_TO_THE_32 / 2
  }

  /** `await_receipt`: the one process id the successor named itself by, or why it
      named none. */
  method AwaitReceipt(l: Launch, isText: string -> bool)
    returns (pid: Result<nat, Option<ReadFailure>>, used: nat)
    requires l.launched && l.sent
    ensures used <= |l.attempts|
    ensures pid.Ok? <==> exists p: nat :: Named(l, isText, p)
    ensures pid.Ok? ==> exists receipt: string :: Acknowledges(l, isText, receipt, used, pid.value)
    ensures forall receipt: string, u: nat, p: nat :: Acknowledges(l, isText, receipt, u, p) ==>
              pid == Ok(p) && used == u
  {
    var receipt;
    receipt, used := ReadLine(l.attempts, l.deadline, isText);
    if receipt.Err? {
      return Err(Some(receipt.error)), used;
    }
    var named := ParseReceipt(receipt.value);
    if named.None? {
      return Err(None), used;
    }
    assert Acknowledges(l, isText, receipt.value, used, named.value);
    assert Named(l, isText, named.value);
    pid := Ok(named.value);
  }

  /** `start_successor`: its successor's process id exactly if that took over;
      otherwise why not, and the process killed for it, which is the one that
      named itself and then let the deadline pass, or was given up on. */
  method StartSuccessor(l: Launch, isText: string -> bool) returns (result: Result<nat, Failure>, killed: Option<nat>)
    ensures forall pid: nat :: result == Ok(pid) <==> TakesOver(l, isText, pid)
    ensures result.Err? && result.error.NoConfirmation? ==> exists pid: nat :: Named(l, isText, pid)
    ensures forall pid: nat :: killed == Some(pid) <==>
              && result.Err? && result.error.NoConfirmation? && (l.stopped || result.error.error == Some(TimedOut))
              && Named(l, isText, pid) && Killable(pid)
  {
    killed := None;
    if !l.launched {
      return Err(NotLaunched), None;
    }
    if !l.sent {
      return Err(NotSent), None;
    }
    var pid, used := AwaitReceipt(l, isText);
    if pid.Err? {
      return Err(NoReceipt(pid.error)), None;
    }
    ghost var receipt :| Acknowledges(l, isText, receipt, used, pid.value);
    assert Named(l, isText, pid.value);
    var ready, more := ReadLine(l.attempts[used..], l.deadline, isText);
    if ready == Ok(READY) {
      assert TakesOver(l, isText, pid.value);
      return Ok(pid.value), None;
    }
    var error := if ready.Err? then Some(ready.error) else None;
    if (error == Some(TimedOut) || l.stopped) && Killable(pid.value) {
      killed := Some(pid.value);
    }
    result := Err(NoConfirmation(error));
  }

  /** A successor that was sent the sockets and whose receipt and `ready` come in
      time, in however many reads, has taken over. */
  lemma AnsweredInTime(l: Launch, isText: string -> bool, pid: nat)
    requires l.launched && l.sent && InTime(l.attempts, l.deadline) && pid < TWO_TO_THE_32
    requires Bytes(l.attempts) == ReceiptOf(pid) + "\n" + (READY + "\n") && isText(ReceiptOf(pid)) && isText(READY)
    ensures TakesOver(l, isText, pid)
  {
    var receipt := ReceiptOf(pid);
    ReceiptIsLine(pid);
    var used, later := TwoLinesDelivered(l.attempts, l.deadline, receipt, READY);
    Acknowledged(l, isText, used, pid);
  }

  lemma Acknowledged(l: Launch, isText: string -> bool, used: nat, pid: nat)
    requires l.launched && l.sent && pid < TWO_TO_THE_32
    requires Delivers(l.attempts, l.deadline, used, ReceiptOf(pid)) && isText(ReceiptOf(pid))
    ensures Acknowledges(l, isText, ReceiptOf(pid), used, pid)
  {
    ReceiptReadsBack(pid);
  }

  datatype Signal = StopSignal | UpgradeSignal(launch: Launch)

  datatype Left = ToldToStop | HandedOver(pid: nat)

  /** A signal the node goes on after: an upgrade that nobody took over in, and
      that was not cut short by a stop. */
  ghost predicate GoesOn(signal: Signal, isText: string -> bool) {
    signal.UpgradeSignal? && !signal.launch.stopped && forall pid: nat :: !TakesOver(signal.launch, isText, pid)
  }

  /** The loop of `run`: a node goes on through every upgrade that nobody takes
      over in, counting it. It leaves at the first other signal: to the successor
      that took over, exactly if one did and no stop came first. */
  method FollowSignals(signals: seq<Signal>, isText: string -> bool) returns (left: Option<Left>, failures: nat)
    ensures failures <= |signals| && forall i :: 0 <= i < failures ==> GoesOn(signals[i], isText)
    ensures left.None? <==> failures == |signals|
    ensures left.Some? ==> !GoesOn(signals[failures], isText)
    ensures forall pid: nat :: left == Some(HandedOver(pid)) <==>
              && failures < |signals| && signals[failures].UpgradeSignal?
              && !signals[failures].launch.stopped && TakesOver(signals[failures].launch, isText, pid)
  {
    failures := 0;
    while failures < |signals|
      invariant failures <= |signals|
      invariant forall i :: 0 <= i < failures ==> GoesOn(signals[i], isText)
    {
      match signals[failures] {
        case StopSignal =>
          return Some(ToldToStop), failures;
        case UpgradeSignal(launch) =>
          var handedOver, killed := StartSuccessor(launch, isText);
          if launch.stopped {
            return Some(ToldToStop), failures;
          }
          if handedOver.Ok? {
            return Some(HandedOver(handedOver.value)), failures;
          }
      }
      failures := failures + 1;
    }
    left := None;
  }
}

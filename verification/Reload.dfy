/** Following the dynamic config: applying one is all or nothing, whatever
    sequence of good and bad ones is deployed. */
module Reload {
  import opened Prelude
  import opened Health
  import opened Pools
  import opened Routing
  import opened Config
  import opened Listeners
  import Validator

  /** The certificates a config names, as their files were when loaded. */
  datatype CertStore = CertStore(specs: seq<CertEntry>, contents: string)

  /** What a file looks like without reading it, if it is there. */
  type Stamp = Option<nat>

  /** Certificate files, as they looked when last looked at. */
  type CertFiles = seq<(string, Stamp)>

  /** The world of one attempt: what the config file holds, if it can be read,
      what certificate files load as and look like, what the kernel answers, and
      whether the cache can be written. */
  datatype Disk = Disk(
    deployed: Option<DynamicConfig>,
    load: seq<CertEntry> -> Option<string>,
    stamp: string -> Stamp,
    kernel: Kernel,
    isIp: string -> bool,
    naming: Naming,
    cacheWritable: bool)

  /** What a node serves from. */
  datatype Served = Served(
    routes: RouteTable,
    pools: map<string, Pool>,
    certificates: CertStore,
    listeners: Set<Listener>,
    handles: map<Key, HealthHandle>,
    statuses: map<Key, HealthStatus>)

  /** That, and what is kept about it: the certificate files, the cache, the
      gauges, and whether changes are followed. */
  datatype Snapshot = Snapshot(
    served: Served,
    certFiles: CertFiles,
    cache: Option<DynamicConfig>,
    reloadFailed: bool,
    fromCache: bool,
    reloadErrors: nat,
    following: bool)

  function LookAt(certificates: seq<CertEntry>, disk: Disk): CertFiles {
    if certificates == [] then []
    else
      var entry := certificates[0];
      [(entry.certFile, disk.stamp(entry.certFile)), (entry.keyFile, disk.stamp(entry.keyFile))]
      + LookAt(certificates[1..], disk)
  }

  predicate ChangedOnDisk(files: CertFiles, disk: Disk) {
    exists i :: 0 <= i < |files| && disk.stamp(files[i].0) != files[i].1
  }

  function Refreshed(files: CertFiles, disk: Disk): CertFiles {
    seq(|files|, i requires 0 <= i < |files| => (files[i].0, disk.stamp(files[i].0)))
  }

  function Specs(pools: seq<UpstreamPool>): seq<PoolSpec> {
    seq(|pools|, i requires 0 <= i < |pools| => pools[i].spec)
  }

  function Desired(listeners: seq<Listener>): seq<(Addr, Listener)> {
    seq(|listeners|, i requires 0 <= i < |listeners| => (listeners[i].address, listeners[i]))
  }

  function Backends(pools: map<string, Pool>): set<Key> {
    set id, i | id in pools && 0 <= i < |pools[id].spec.backends| :: pools[id].spec.backends[i].Key()
  }

  // ---------------------------------------------------------------------------
  // One attempt

  /** Whether `config` can be made ready to serve. */
  ghost predicate Preparable(config: DynamicConfig, disk: Disk) {
    && ValidConfig(config, disk.isIp)
    && disk.load(config.certificates).Some?
    && AllBuildable(Specs(config.pools))
  }

  /** Whether `config` applies: it can be made ready, and its listeners bound. */
  ghost predicate Usable(before: Served, config: DynamicConfig, disk: Disk) {
    Preparable(config, disk) && CanStage(before.listeners, disk.kernel, Desired(config.listeners))
  }

  /** What is served is `config`, all of it. */
  ghost predicate Serves(now: Served, config: DynamicConfig) {
    && IsCompiled(now.routes, config.routes)
    && BuiltFrom(now.pools, Specs(config.pools))
    && now.certificates.specs == config.certificates
    && ServesListeners(now.listeners.running, config.listeners)
  }

  /** `config` was swapped in: it is what is served, the pools read the health
      map's own handles, which are exactly those of their backends, and a
      backend known before has its handle and its status still. */
  ghost predicate Applied(before: Served, config: DynamicConfig, disk: Disk, after: Served) {
    && Serves(after, config)
    && disk.load(config.certificates) == Some(after.certificates.contents)
    && Reconciled(before.listeners, disk.kernel, Desired(config.listeners), after.listeners)
    && Coherent(after.pools, after.handles)
    && after.handles.Keys == after.statuses.Keys == Backends(after.pools)
    && Remembers(before, after)
  }

  ghost predicate Remembers(before: Served, after: Served) {
    forall k :: k in after.handles && k in after.statuses ==>
      if k in before.handles && k in before.statuses
      then after.handles[k] == before.handles[k] && after.statuses[k] == before.statuses[k]
      else after.statuses[k] == Unknown
  }

  lemma InstallRemembers(before: Served, entered: Served, prepared: Prepared, installed: Served)
    requires before.handles.Keys == before.statuses.Keys && entered.handles.Keys == entered.statuses.Keys
    requires Keeps(before.handles, entered.handles) && OnlyEnters(before.statuses, entered.statuses)
    requires SwappedIn(entered, prepared, installed)
    ensures Remembers(before, installed)
  {
    forall k | k in installed.handles && k in installed.statuses
      ensures k in entered.handles && installed.handles[k] == entered.handles[k]
      ensures k in entered.statuses && installed.statuses[k] == entered.statuses[k]
    {
    }
  }

  /** Nothing that is served changed. Backends may have become known, as
      unknown, and adopted sockets may have been given up. */
  ghost predicate Rejected(before: Served, after: Served) {
    && after.routes == before.routes && after.pools == before.pools && after.certificates == before.certificates
    && after.listeners.running == before.listeners.running && after.listeners.spawned == before.listeners.spawned
    && after.listeners.adopted.Keys <= before.listeners.adopted.Keys
    && Keeps(before.handles, after.handles) && OnlyEnters(before.statuses, after.statuses)
    && after.handles.Keys == after.statuses.Keys
  }

  ghost predicate Attempted(before: Served, config: DynamicConfig, disk: Disk, after: Served) {
    if Usable(before, config, disk) then Applied(before, config, disk, after) else Rejected(before, after)
  }

  /** Whether a reload from `before` applies what is deployed. */
  ghost predicate Succeeds(before: Served, disk: Disk) {
    disk.deployed.Some? && Usable(before, disk.deployed.value, disk)
  }

  /** One attempt at `config`, if it could be read. */
  ghost predicate Tried(before: Snapshot, config: Option<DynamicConfig>, disk: Disk, after: Snapshot) {
    && (if config.Some? then
          && Attempted(before.served, config.value, disk, after.served)
          && after.certFiles == LookAt(config.value.certificates, disk)
        else
          after.served == before.served && after.certFiles == before.certFiles)
    && after == before.(served := after.served, certFiles := after.certFiles)
  }

  /** Cached and reported as it came out. */
  function Reported(s: Snapshot, applied: Option<DynamicConfig>, disk: Disk, hasCache: bool): Snapshot {
    if applied.Some? then
      var cache := if hasCache && disk.cacheWritable then applied else s.cache;
      s.(cache := cache, reloadFailed := false, fromCache := false)
    else
      s.(reloadFailed := true, reloadErrors := s.reloadErrors + 1)
  }

  /** One reload: what is deployed is applied, cached and reported, or all is
      kept and the failure reported. */
  ghost predicate Reloaded(before: Snapshot, disk: Disk, hasCache: bool, after: Snapshot) {
    var attempted := before.(served := after.served, certFiles := after.certFiles);
    && Tried(before, disk.deployed, disk, attempted)
    && after == Reported(attempted, if Succeeds(before.served, disk) then disk.deployed else None, disk, hasCache)
  }

  /** The first config of a node: the deployed one, reported as a reload is; or
      the cached one, reported as a failed reload served from the cache; or none,
      and then changes are not followed. The cache is written only with what was
      deployed and applied. */
  ghost predicate Started(
    before: Snapshot, first: Disk, second: Disk, hasCache: bool, between: Snapshot, after: Snapshot,
    serving: Option<DynamicConfig>)
  {
    && Tried(before, first.deployed, first, between)
    && if Succeeds(before.served, first) then
         serving == first.deployed && after == Reported(between, serving, first, hasCache).(following := true)
       else
         FellBack(between, second, hasCache, after, serving)
  }

  function FollowingFromCache(s: Snapshot): Snapshot {
    s.(reloadErrors := s.reloadErrors + 1, reloadFailed := true, fromCache := true, following := true)
  }

  ghost predicate FellBack(
    before: Snapshot, disk: Disk, hasCache: bool, after: Snapshot, serving: Option<DynamicConfig>)
  {
    var attempted := before.(served := after.served, certFiles := after.certFiles);
    && (if hasCache then Tried(before, before.cache, disk, attempted) else attempted == before)
    && if hasCache && before.cache.Some? && Usable(before.served, before.cache.value, disk) then
         && serving == before.cache
         && after == FollowingFromCache(attempted)
       else
         serving.None? && after == attempted
  }

  /** A config prepared and not swapped in. */
  datatype Prepared = Prepared(certificates: CertStore, routes: RouteTable, pools: map<string, Pool>)

  /** Only the health map changed, and only to know more backends. */
  ghost predicate OnlyEntered(before: Served, after: Served) {
    && after == before.(handles := after.handles, statuses := after.statuses)
    && Keeps(before.handles, after.handles) && OnlyEnters(before.statuses, after.statuses)
    && before.handles.Keys == before.statuses.Keys && after.handles.Keys == after.statuses.Keys
  }

  lemma UnstagedIsRejected(before: Served, entered: Served, config: DynamicConfig, disk: Disk, after: Served)
    requires OnlyEntered(before, entered) && after == entered.(listeners := after.listeners)
    requires !CanStage(before.listeners, disk.kernel, Desired(config.listeners))
    requires Reconciled(before.listeners, disk.kernel, Desired(config.listeners), after.listeners)
    ensures Rejected(before, after)
  {
  }

  ghost predicate IsPrepared(prepared: Prepared, config: DynamicConfig, disk: Disk, handles: map<Key, HealthHandle>) {
    && IsCompiled(prepared.routes, config.routes)
    && BuiltFrom(prepared.pools, Specs(config.pools))
    && Coherent(prepared.pools, handles)
    && prepared.certificates.specs == config.certificates
    && disk.load(config.certificates) == Some(prepared.certificates.contents)
  }

  /** What `install` does: the swap, and forgetting the backends of no pool. */
  ghost predicate SwappedIn(before: Served, prepared: Prepared, after: Served) {
    && after.routes == prepared.routes && after.pools == prepared.pools && after.certificates == prepared.certificates
    && after.listeners == before.listeners
    && Keeps(after.handles, before.handles)
    && after.handles.Keys == after.statuses.Keys == before.handles.Keys * Backends(prepared.pools)
    && forall k :: k in after.statuses && k in before.statuses ==> after.statuses[k] == before.statuses[k]
  }

  lemma InstalledIsApplied(
    before: Served, entered: Served, prepared: Prepared, config: DynamicConfig, disk: Disk, after: Served)
    requires OnlyEntered(before, entered) && IsPrepared(prepared, config, disk, entered.handles)
    requires SwappedIn(entered, prepared, after.(listeners := entered.listeners))
    requires CanStage(before.listeners, disk.kernel, Desired(config.listeners))
    requires Reconciled(before.listeners, disk.kernel, Desired(config.listeners), after.listeners)
    ensures Applied(before, config, disk, after)
  {
    ListenersAreServed(before.listeners, disk.kernel, config.listeners, after.listeners);
    InstallRemembers(before, entered, prepared, after.(listeners := entered.listeners));
    CoherentStill(prepared.pools, entered.handles, after.handles);
  }

  /** The listeners running are those of the config, each with its own entry. */
  ghost predicate ServesListeners(running: map<Addr, Running<Listener>>, listeners: seq<Listener>) {
    && running.Keys == Names(Desired(listeners))
    && forall i :: 0 <= i < |listeners| ==>
         listeners[i].address in running && running[listeners[i].address].attached == listeners[i]
  }

  lemma ListenersAreServed(before: Set<Listener>, kernel: Kernel, listeners: seq<Listener>, after: Set<Listener>)
    requires CanStage(before, kernel, Desired(listeners)) && Reconciled(before, kernel, Desired(listeners), after)
    ensures ServesListeners(after.running, listeners)
  {
    var desired := Desired(listeners);
    CommitFollowingStage(before, kernel, desired, after);
    forall i | 0 <= i < |listeners|
      ensures listeners[i].address in after.running && after.running[listeners[i].address].attached == listeners[i]
    {
      assert desired[i] == (listeners[i].address, listeners[i]);
      assert desired[i].0 in Names(desired);
    }
  }

  /** Pools stay coherent with a map that forgets the backends of none of them. */
  lemma CoherentStill(pools: map<string, Pool>, before: map<Key, HealthHandle>, after: map<Key, HealthHandle>)
    requires Coherent(pools, before)
    requires Keeps(after, before) && after.Keys == before.Keys * Backends(pools)
    ensures Coherent(pools, after) && after.Keys == Backends(pools)
  {
    forall id, i | id in pools && 0 <= i < |pools[id].spec.backends|
      ensures pools[id].spec.backends[i].Key() in after
    {
      assert pools[id].spec.backends[i].Key() in Backends(pools);
    }
  }

  class Reloader {
    var routes: RouteTable
    var pools: map<string, Pool>
    var certificates: CertStore
    const health: HealthMap
    const listeners: ListenerSet<Listener>
    const hasCache: bool
    var certFiles: CertFiles
    /** What the cache file holds. */
    var cache: Option<DynamicConfig>
    var reloadFailed: bool
    var fromCache: bool
    var reloadErrors: nat
    var following: bool

    /** A node that serves nothing yet, beside whatever an earlier one cached. */
    constructor (listeners: ListenerSet<Listener>, hasCache: bool, cached: Option<DynamicConfig>)
      requires listeners.running == map[]
      ensures this.listeners == listeners && this.hasCache == hasCache && cache == cached && !following
      ensures fresh(health) && health.Valid() && health.handles == map[]
      ensures pools == map[] && routes == RouteTable(map[], 0) && certificates == CertStore([], "")
    {
      this.listeners, this.hasCache, cache := listeners, hasCache, cached;
      health := new HealthMap(true);
      routes, pools, certificates := RouteTable(map[], 0), map[], CertStore([], "");
      certFiles, reloadFailed, fromCache, reloadErrors, following := [], false, false, 0, false;
    }

    ghost function Serving(): Served
      reads this`routes, this`pools, this`certificates, listeners, health, health.handles.Values
    {
      Served(routes, pools, certificates, listeners.Value(), health.handles, health.Statuses())
    }

    ghost function Value(): Snapshot
      reads this, listeners, health, health.handles.Values
    {
      Snapshot(Serving(), certFiles, cache, reloadFailed, fromCache, reloadErrors, following)
    }

    /** Touches nothing but the health map, which may come to know backends. */
    method Prepare(config: DynamicConfig, disk: Disk) returns (prepared: Option<Prepared>)
      requires health.Valid()
      modifies health`handles
      ensures health.Valid() && OnlyEntered(old(Serving()), Serving())
      ensures prepared.Some? <==> Preparable(config, disk)
      ensures prepared.Some? ==> IsPrepared(prepared.value, config, disk, health.handles)
    {
      var invalid := Validator.Validate(config, disk.isIp);
      if invalid.Some? {
        return None;
      }
      var contents := disk.load(config.certificates);
      if contents.None? {
        return None;
      }
      var table := Compile(config.routes);
      var specs := Specs(config.pools);
      var built := BuildPools(specs, health, disk.naming);
      if built.Err? {
        return None;
      }
      prepared := Some(Prepared(CertStore(config.certificates, contents.value), table, built.value));
    }

    /** It cannot fail. */
    method Install(prepared: Prepared)
      requires health.Valid()
      modifies this`routes, this`pools, this`certificates, health`handles
      ensures health.Valid() && SwappedIn(old(Serving()), prepared, Serving())
    {
      certificates := prepared.certificates;
      routes, pools := prepared.routes, prepared.pools;
      health.Retain(Backends(prepared.pools));
    }

    method SwapIn(prepared: Prepared, staged: Staged<Listener>)
      requires health.Valid()
      modifies this`routes, this`pools, this`certificates, health`handles, listeners
      ensures health.Valid()
      ensures SwappedIn(old(Serving()), prepared, Serving().(listeners := old(listeners.Value())))
      ensures CommittedTo(old(listeners.Value()), staged, listeners.Value())
    {
      Install(prepared);
      var raced := listeners.Commit(staged);
    }

    /** Swaps nothing unless every socket the config needs is there. */
    method StageAndSwap(prepared: Prepared, desired: seq<(Addr, Listener)>, kernel: Kernel) returns (ok: bool)
      requires health.Valid()
      modifies this`routes, this`pools, this`certificates, health`handles, listeners
      ensures health.Valid()
      ensures ok <==> CanStage(old(listeners.Value()), kernel, desired)
      ensures Reconciled(old(listeners.Value()), kernel, desired, listeners.Value())
      ensures if ok then SwappedIn(old(Serving()), prepared, Serving().(listeners := old(listeners.Value())))
              else Serving() == old(Serving()).(listeners := listeners.Value())
    {
      ghost var before := listeners.Value();
      var staged := listeners.Stage(desired, kernel);
      if staged.Err? {
        return false;
      }
      SwapIn(prepared, staged.value);
      assert StagedAndCommitted(before, kernel, Staged(desired, staged.value.bound), listeners.Value());
      ok := true;
    }

    method Apply(config: DynamicConfig, disk: Disk) returns (ok: bool)
      requires health.Valid()
      modifies this`routes, this`pools, this`certificates, this`certFiles, health`handles, listeners
      ensures health.Valid()
      ensures ok <==> Usable(old(Serving()), config, disk)
      ensures Attempted(old(Serving()), config, disk, Serving())
      ensures certFiles == LookAt(config.certificates, disk)
    {
      ghost var before := Serving();
      certFiles := LookAt(config.certificates, disk);
      assert Serving() == before;
      var prepared := Prepare(config, disk);
      if prepared.None? {
        return false;
      }
      ghost var entered := Serving();
      assert OnlyEntered(before, entered);
      ok := StageAndSwap(prepared.value, Desired(config.listeners), disk.kernel);
      ghost var after := Serving();
      if ok {
        InstalledIsApplied(before, entered, prepared.value, config, disk, after);
      } else {
        UnstagedIsRejected(before, entered, config, disk, after);
      }
    }

    /** Cache what was applied, and set the gauges to what became of the attempt. */
    method Report(applied: Option<DynamicConfig>, disk: Disk)
      modifies this`cache, this`reloadFailed, this`fromCache, this`reloadErrors
      ensures Value() == Reported(old(Value()), applied, disk, hasCache)
    {
      ghost var served := Serving();
      if applied.Some? {
        if hasCache && disk.cacheWritable {
          cache := applied;
        }
        reloadFailed, fromCache := false, false;
      } else {
        reloadErrors, reloadFailed := reloadErrors + 1, true;
      }
      assert Serving() == served;
    }

    /** Apply `config`, if it could be read at all. */
    method TryApply(config: Option<DynamicConfig>, disk: Disk) returns (ok: bool)
      requires health.Valid()
      modifies this`routes, this`pools, this`certificates, this`certFiles, health`handles, listeners
      ensures health.Valid()
      ensures ok <==> config.Some? && Usable(old(Serving()), config.value, disk)
      ensures Tried(old(Value()), config, disk, Value())
    {
      ok := false;
      if config.Some? {
        ok := Apply(config.value, disk);
      }
    }

    method ReloadLocked(disk: Disk)
      requires health.Valid()
      modifies this, health`handles, listeners
      ensures health.Valid()
      ensures Reloaded(old(Value()), disk, hasCache, Value())
    {
      var ok := TryApply(disk.deployed, disk);
      Report(if ok then disk.deployed else None, disk);
    }

    /** What a starting node serves: what is deployed, or what was cached.
        `first` and `second` are the world as either is tried. */
    method ApplyInitial(first: Disk, second: Disk) returns (serving: Option<DynamicConfig>, ghost between: Snapshot)
      requires health.Valid()
      modifies this, health`handles, listeners
      ensures health.Valid()
      ensures Started(old(Value()), first, second, hasCache, between, Value(), serving)
    {
      var ok := TryApply(first.deployed, first);
      between := Value();
      if ok {
        Report(first.deployed, first);
        Follow();
        return first.deployed, between;
      }
      serving := FallBack(second);
    }

    /** What is deployed being unusable, try what was cached. */
    method FallBack(disk: Disk) returns (serving: Option<DynamicConfig>)
      requires health.Valid()
      modifies this, health`handles, listeners
      ensures health.Valid()
      ensures FellBack(old(Value()), disk, hasCache, Value(), serving)
    {
      if !hasCache {
        return None;
      }
      var cached := cache;
      var ok := TryApply(cached, disk);
      if !ok {
        return None;
      }
      ReportFromCache();
      serving := cached;
    }

    method ReportFromCache()
      modifies this`reloadErrors, this`reloadFailed, this`fromCache, this`following
      ensures Value() == FollowingFromCache(old(Value()))
    {
      ghost var served := Serving();
      reloadErrors, reloadFailed, fromCache := reloadErrors + 1, true, true;
      following := true;
      assert Serving() == served;
    }

    method Follow()
      modifies this`following
      ensures Value() == old(Value()).(following := true)
    {
      ghost var served := Serving();
      following := true;
      assert Serving() == served;
    }

    method Reload(disk: Disk)
      requires health.Valid()
      modifies this, health`handles, listeners
      ensures health.Valid()
      ensures Step(old(Value()), ConfigChanged(disk), hasCache, Value())
    {
      if following {
        ReloadLocked(disk);
      }
    }

    method ReloadIfCertificatesChanged(disk: Disk)
      requires health.Valid()
      modifies this, health`handles, listeners
      ensures health.Valid()
      ensures Step(old(Value()), CertificatesPolled(disk), hasCache, Value())
    {
      if !following || !ChangedOnDisk(certFiles, disk) {
        return;
      }
      ghost var before := Value();
      certFiles := Refreshed(certFiles, disk);
      assert Serving() == before.served;
      ReloadLocked(disk);
    }

    method Shutdown()
      modifies this`following
      ensures Step(old(Value()), ShutDown, hasCache, Value())
    {
      ghost var before := Serving();
      following := false;
      assert Serving() == before;
    }

    ghost function Selecting(id: string): set<object>
      reads this`pools
    {
      if id in pools then {pools[id].inflight, pools[id].turns} else {}
    }

    /** A backend of pool `id` for a request: one the health map calls selectable,
        and none if and only if it calls none of them so. */
    method SelectBackend(id: string, hashKey: Option<nat>, draw: nat) returns (selected: Option<Backend>)
      requires health.Valid() && Coherent(pools, health.handles)
      modifies Selecting(id)
      ensures selected.None? <==>
                id !in pools || forall b :: b in pools[id].spec.backends ==> !old(health.IsSelectable(b.Key()))
      ensures selected.Some? ==>
                && id in pools && selected.value in pools[id].spec.backends
                && old(health.IsSelectable(selected.value.Key()))
      ensures Serving() == old(Serving())
    {
      if id !in pools {
        return None;
      }
      var pool := pools[id];
      assert Reads(pool, health.handles);
      var idx, healthy := pool.Select(hashKey, draw);
      if idx.None? {
        return None;
      }
      selected := Some(pool.spec.backends[idx.value]);
    }

    /** A write of the health checker. */
    method Probed(key: Key, status: HealthStatus)
      requires health.Valid()
      modifies health`handles, health.handles.Values
      ensures health.Valid()
      ensures Step(old(Value()), Event.Probed(key, status), hasCache, Value())
    {
      health.Set(key, status);
    }
  }

  // ---------------------------------------------------------------------------
  // Whole runs

  datatype Event =
    | ConfigChanged(disk: Disk)
    | CertificatesPolled(disk: Disk)
    | Probed(key: Key, status: HealthStatus)
    | ShutDown

  /** The state a reload that `event` sets off starts from, if it sets one off. */
  function Starting(before: Snapshot, event: Event): Option<Snapshot> {
    match event
    case ConfigChanged(_) => if before.following then Some(before) else None
    case CertificatesPolled(disk) =>
      if before.following && ChangedOnDisk(before.certFiles, disk)
      then Some(before.(certFiles := Refreshed(before.certFiles, disk))) else None
    case Probed(_, _) => None
    case ShutDown => None
  }

  ghost predicate Step(before: Snapshot, event: Event, hasCache: bool, after: Snapshot) {
    match event
    case ConfigChanged(disk) =>
      var from := Starting(before, event);
      if from.Some? then Reloaded(from.value, disk, hasCache, after) else after == before
    case CertificatesPolled(disk) =>
      var from := Starting(before, event);
      if from.Some? then Reloaded(from.value, disk, hasCache, after) else after == before
    case Probed(key, status) =>
      && after == before.(served := before.served.(handles := after.served.handles, statuses := after.served.statuses))
      && Keeps(before.served.handles, after.served.handles)
      && after.served.handles.Keys == before.served.handles.Keys + {key}
      && after.served.statuses == before.served.statuses[key := status]
    case ShutDown => after == before.(following := false)
  }
}

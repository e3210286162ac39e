/** What holds of a node through any sequence of good and bad configs,
    certificate polls and health probes, from its first config on. */
module ReloadRuns {
  import opened Prelude
  import opened Health
  import opened Pools
  import opened Routing
  import opened Config
  import opened Listeners
  import opened Reload

  ghost predicate Trace(states: seq<Snapshot>, events: seq<Event>, hasCache: bool) {
    |states| == |events| + 1 && forall i :: 0 <= i < |events| ==> StepAt(states, events, hasCache, i)
  }

  ghost predicate StepAt(states: seq<Snapshot>, events: seq<Event>, hasCache: bool, i: nat)
    requires i < |events| && i + 1 < |states|
  {
    Step(states[i], events[i], hasCache, states[i + 1])
  }

  lemma StepOf(states: seq<Snapshot>, events: seq<Event>, hasCache: bool, n: nat)
    requires Trace(states, events, hasCache) && 0 < n <= |events|
    ensures Step(states[n - 1], events[n - 1], hasCache, states[n])
  {
    assert StepAt(states, events, hasCache, n - 1);
  }

  /** The config `event` applies, if it applies one. */
  ghost function AppliedBy(before: Snapshot, event: Event): Option<DynamicConfig> {
    var from := Starting(before, event);
    if from.Some? && Succeeds(from.value.served, event.disk) then event.disk.deployed else None
  }

  /** The config last applied after `n` events. */
  ghost function LastApplied(states: seq<Snapshot>, events: seq<Event>, initial: DynamicConfig, n: nat): DynamicConfig
    requires n <= |events| < |states|
  {
    if n == 0 then initial
    else AppliedBy(states[n - 1], events[n - 1]).GetOr(LastApplied(states, events, initial, n - 1))
  }

  // ---------------------------------------------------------------------------
  // All or nothing

  /** All that is served is `config`; its forwarding routes name pools it has;
      and the pools read the health map's own handles. */
  ghost predicate AllOf(s: Served, config: DynamicConfig) {
    && Serves(s, config)
    && (forall i :: 0 <= i < |config.routes| ==> ForwardsTo(config.routes[i], PoolIds(config.pools)))
    && Coherent(s.pools, s.handles) && s.handles.Keys == s.statuses.Keys
  }

  lemma AttemptKeepsAll(before: Served, config: DynamicConfig, disk: Disk, after: Served, serving: DynamicConfig)
    requires AllOf(before, serving) && Attempted(before, config, disk, after)
    ensures AllOf(after, if Usable(before, config, disk) then config else serving)
  {
  }

  lemma StepKeepsAll(before: Snapshot, event: Event, hasCache: bool, after: Snapshot, serving: DynamicConfig)
    requires AllOf(before.served, serving) && Step(before, event, hasCache, after)
    ensures AllOf(after.served, AppliedBy(before, event).GetOr(serving))
  {
    if Starting(before, event).Some? && event.disk.deployed.Some? {
      AttemptKeepsAll(before.served, event.disk.deployed.value, event.disk, after.served, serving);
    }
  }

  /** Between reloads, routes, pools, certificates and listeners all come from
      the one config that was applied last. */
  lemma {:induction false} ServesLastApplied(
    states: seq<Snapshot>, events: seq<Event>, hasCache: bool, initial: DynamicConfig, n: nat)
    requires Trace(states, events, hasCache) && n <= |events| && AllOf(states[0].served, initial)
    ensures AllOf(states[n].served, LastApplied(states, events, initial, n))
  {
    if n > 0 {
      ServesLastApplied(states, events, hasCache, initial, n - 1);
      var serving := LastApplied(states, events, initial, n - 1);
      StepOf(states, events, hasCache, n);
      StepKeepsAll(states[n - 1], events[n - 1], hasCache, states[n], serving);
    }
  }

  /** So does a start, which serves what it says it serves. */
  lemma StartServesAll(
    before: Snapshot, first: Disk, second: Disk, hasCache: bool, between: Snapshot, after: Snapshot,
    serving: Option<DynamicConfig>)
    requires Started(before, first, second, hasCache, between, after, serving)
    ensures serving.Some? ==>
              && AllOf(after.served, serving.value) && after.following
              && after.certFiles in {
                   LookAt(serving.value.certificates, first), LookAt(serving.value.certificates, second)}
    ensures serving.None? ==>
              && after.following == before.following
              && after.served.routes == before.served.routes && after.served.pools == before.served.pools
              && after.served.certificates == before.served.certificates
              && after.served.listeners.running == before.served.listeners.running
  {
  }

  /** Every request a route forwards finds the route's pool, in the snapshot the
      route is of. */
  lemma RoutesFindTheirPools(s: Served, config: DynamicConfig, listener: string, host: string, path: string)
    requires AllOf(s, config)
    ensures var route := MatchRequest(s.routes, listener, host, path);
            route.Some? && route.value.action.Forward? ==> route.value.action.pool in s.pools
  {
    var i := TableIsSearch(s.routes, config.routes, listener, host, path);
    var route := MatchRequest(s.routes, listener, host, path);
    if route.Some? && route.value.action.Forward? {
      assert ForwardsTo(config.routes[i], PoolIds(config.pools));
      var pool := route.value.action.pool;
      var k :| 0 <= k < |config.pools| && PoolIds(config.pools)[k] == pool;
      assert Specs(config.pools)[k].id == pool;
    }
  }

  // ---------------------------------------------------------------------------
  // What is reported, and what is cached

  /** Whether the last attempt, if any since, failed. */
  ghost function LastFailed(states: seq<Snapshot>, events: seq<Event>, n: nat): bool
    requires n <= |events| < |states|
  {
    if n == 0 then states[0].reloadFailed
    else if Starting(states[n - 1], events[n - 1]).Some? then AppliedBy(states[n - 1], events[n - 1]).None?
    else LastFailed(states, events, n - 1)
  }

  lemma {:induction false} GaugeTellsLastOutcome(states: seq<Snapshot>, events: seq<Event>, hasCache: bool, n: nat)
    requires Trace(states, events, hasCache) && n <= |events|
    ensures states[n].reloadFailed == LastFailed(states, events, n)
  {
    if n > 0 {
      GaugeTellsLastOutcome(states, events, hasCache, n - 1);
      StepOf(states, events, hasCache, n);
    }
  }

  /** What is in the cache was there from the start, or is a config that was
      applied: the one last applied as of some earlier moment. */
  lemma {:induction false} OnlyAppliedIsCached(
    states: seq<Snapshot>, events: seq<Event>, hasCache: bool, initial: DynamicConfig, n: nat) returns (m: nat)
    requires Trace(states, events, hasCache) && n <= |events|
    ensures m <= n
    ensures states[n].cache == states[0].cache || states[n].cache == Some(LastApplied(states, events, initial, m))
  {
    m := 0;
    if n > 0 {
      m := OnlyAppliedIsCached(states, events, hasCache, initial, n - 1);
      StepOf(states, events, hasCache, n);
      if AppliedBy(states[n - 1], events[n - 1]).Some? && states[n].cache == events[n - 1].disk.deployed {
        m := n;
      }
    }
  }

  ghost predicate AlwaysWritable(events: seq<Event>) {
    forall i :: 0 <= i < |events| && (events[i].ConfigChanged? || events[i].CertificatesPolled?) ==>
      events[i].disk.cacheWritable
  }

  /** While it can be written, the cache holds the last-known-good config. */
  lemma {:induction false} CacheIsLastKnownGood(
    states: seq<Snapshot>, events: seq<Event>, initial: DynamicConfig, n: nat)
    requires Trace(states, events, true) && n <= |events|
    requires AlwaysWritable(events) && states[0].cache == Some(initial)
    ensures states[n].cache == Some(LastApplied(states, events, initial, n))
  {
    if n > 0 {
      CacheIsLastKnownGood(states, events, initial, n - 1);
      StepOf(states, events, true, n);
    }
  }

  /** A node that ran any events, always able to write its cache, and is started
      again with nothing usable deployed, serves all of the config last applied:
      if and only if that can still be applied. */
  lemma RestartServesLastApplied(
    states: seq<Snapshot>, events: seq<Event>, initial: DynamicConfig, n: nat,
    before: Snapshot, first: Disk, second: Disk, between: Snapshot, after: Snapshot, serving: Option<DynamicConfig>)
    requires Trace(states, events, true) && n <= |events|
    requires AlwaysWritable(events) && states[0].cache == Some(initial)
    requires before.cache == states[n].cache && !Succeeds(before.served, first)
    requires Started(before, first, second, true, between, after, serving)
    ensures var last := LastApplied(states, events, initial, n);
            if Usable(between.served, last, second)
            then
              && serving == Some(last) && AllOf(after.served, last)
              && after.fromCache && after.reloadFailed && after.following
            else serving.None? && after.following == before.following
  {
    CacheIsLastKnownGood(states, events, initial, n);
    StartServesAll(before, first, second, true, between, after, serving);
  }

  // ---------------------------------------------------------------------------
  // Shutting down

  ghost predicate SameButHealth(s: Snapshot, t: Snapshot) {
    t == s.(served := s.served.(handles := t.served.handles, statuses := t.served.statuses))
  }

  /** Once changes are not followed, nothing is applied, cached or reported. */
  lemma {:induction false} NothingAfterShutdown(
    states: seq<Snapshot>, events: seq<Event>, hasCache: bool, m: nat, n: nat)
    requires Trace(states, events, hasCache) && m < n <= |events| && events[m] == ShutDown
    ensures SameButHealth(states[m].(following := false), states[n])
    decreases n
  {
    StepOf(states, events, hasCache, n);
    if m < n - 1 {
      NothingAfterShutdown(states, events, hasCache, m, n - 1);
    }
  }

  // ---------------------------------------------------------------------------
  // Health

  /** The status of `key` after an event, `status` before it, if no reload
      changes it. */
  function ProbedBy(event: Event, key: Key, status: HealthStatus): HealthStatus {
    if event.Probed? && event.key == key then event.status else status
  }

  /** The status last written for `key` by events `m` to `n`, or else `status`. */
  function LastProbed(events: seq<Event>, key: Key, m: nat, n: nat, status: HealthStatus): HealthStatus
    requires m <= n <= |events|
  {
    if n == m then status else ProbedBy(events[n - 1], key, LastProbed(events, key, m, n - 1, status))
  }

  ghost predicate InAPool(s: Served, key: Key) {
    key in Backends(s.pools)
  }

  ghost predicate KnownAs(s: Served, key: Key, handle: HealthHandle, status: HealthStatus) {
    && key in s.handles && s.handles[key] == handle
    && key in s.statuses && s.statuses[key] == status
  }

  lemma AttemptRemembers(
    before: Served, config: DynamicConfig, disk: Disk, after: Served,
    key: Key, handle: HealthHandle, status: HealthStatus)
    requires Attempted(before, config, disk, after)
    requires KnownAs(before, key, handle, status) && InAPool(after, key)
    ensures KnownAs(after, key, handle, status)
  {
  }

  lemma StepRemembers(
    before: Snapshot, event: Event, hasCache: bool, after: Snapshot,
    key: Key, handle: HealthHandle, status: HealthStatus)
    requires Step(before, event, hasCache, after)
    requires KnownAs(before.served, key, handle, status) && InAPool(after.served, key)
    ensures KnownAs(after.served, key, handle, ProbedBy(event, key, status))
  {
    if Starting(before, event).Some? && event.disk.deployed.Some? {
      AttemptRemembers(before.served, event.disk.deployed.value, event.disk, after.served, key, handle, status);
    }
  }

  /** A backend that every config keeps has one handle throughout, the one its
      pools read, with the status last written: reloads, applied or rejected,
      neither reset it nor lose a write. */
  lemma {:induction false} KeptBackendKeepsItsStatus(
    states: seq<Snapshot>, events: seq<Event>, hasCache: bool, key: Key, m: nat, n: nat,
    handle: HealthHandle, status: HealthStatus)
    requires Trace(states, events, hasCache) && m <= n <= |events|
    requires KnownAs(states[m].served, key, handle, status)
    requires forall i :: m <= i <= n ==> InAPool(states[i].served, key)
    ensures KnownAs(states[n].served, key, handle, LastProbed(events, key, m, n, status))
    decreases n
  {
    if m < n {
      KeptBackendKeepsItsStatus(states, events, hasCache, key, m, n - 1, handle, status);
      StepOf(states, events, hasCache, n);
      StepRemembers(
        states[n - 1], events[n - 1], hasCache, states[n], key, handle, LastProbed(events, key, m, n - 1, status));
    }
  }

  // ---------------------------------------------------------------------------
  // Certificates

  lemma {:induction false} JustLookedAt(certificates: seq<CertEntry>, disk: Disk)
    ensures !ChangedOnDisk(LookAt(certificates, disk), disk)
  {
    if certificates != [] {
      JustLookedAt(certificates[1..], disk);
      var files, rest := LookAt(certificates, disk), LookAt(certificates[1..], disk);
      assert forall i :: 2 <= i < |files| ==> files[i] == rest[i - 2];
    }
  }

  function Files(certificates: seq<CertEntry>): seq<string> {
    if certificates == [] then [] else [certificates[0].certFile, certificates[0].keyFile] + Files(certificates[1..])
  }

  function Paths(files: CertFiles): seq<string> {
    seq(|files|, i requires 0 <= i < |files| => files[i].0)
  }

  lemma {:induction false} LookedAtFiles(certificates: seq<CertEntry>, disk: Disk)
    ensures Paths(LookAt(certificates, disk)) == Files(certificates)
  {
    if certificates != [] {
      LookedAtFiles(certificates[1..], disk);
      var files, rest := LookAt(certificates, disk), LookAt(certificates[1..], disk);
      assert Paths(files) == [files[0].0, files[1].0] + Paths(rest);
    }
  }

  /** The config `event` has read, if it has one read. */
  function ReadBy(before: Snapshot, event: Event): Option<DynamicConfig> {
    if Starting(before, event).Some? then event.disk.deployed else None
  }

  /** The config last read, applied or not, after `n` events. */
  ghost function LastRead(states: seq<Snapshot>, events: seq<Event>, initial: DynamicConfig, n: nat): DynamicConfig
    requires n <= |events| < |states|
  {
    if n == 0 then initial
    else ReadBy(states[n - 1], events[n - 1]).GetOr(LastRead(states, events, initial, n - 1))
  }

  /** The files polled are those `config` names. */
  ghost predicate PollsFilesOf(s: Snapshot, config: DynamicConfig) {
    Paths(s.certFiles) == Files(config.certificates)
  }

  lemma StepPolls(before: Snapshot, event: Event, hasCache: bool, after: Snapshot, config: DynamicConfig)
    requires Step(before, event, hasCache, after) && (PollsFilesOf(before, config) || ReadBy(before, event).Some?)
    ensures PollsFilesOf(after, ReadBy(before, event).GetOr(config))
  {
    if Starting(before, event).Some? {
      assert Paths(Refreshed(before.certFiles, event.disk)) == Paths(before.certFiles);
      if event.disk.deployed.Some? {
        LookedAtFiles(event.disk.deployed.value.certificates, event.disk);
      }
    }
  }

  /** The certificate files polled are those of the config last read. After a
      config that was rejected they are its files, not those being served from. */
  lemma {:induction false} PollsFilesOfLastRead(
    states: seq<Snapshot>, events: seq<Event>, hasCache: bool, initial: DynamicConfig, n: nat)
    requires Trace(states, events, hasCache) && n <= |events| && PollsFilesOf(states[0], initial)
    ensures PollsFilesOf(states[n], LastRead(states, events, initial, n))
  {
    if n > 0 {
      PollsFilesOfLastRead(states, events, hasCache, initial, n - 1);
      StepOf(states, events, hasCache, n);
      StepPolls(states[n - 1], events[n - 1], hasCache, states[n], LastRead(states, events, initial, n - 1));
    }
  }

  /** Files looked at again are the same files as they now look. */
  lemma {:induction false} LookedAtAgain(certificates: seq<CertEntry>, before: Disk, disk: Disk)
    ensures Refreshed(LookAt(certificates, before), disk) == LookAt(certificates, disk)
  {
    if certificates != [] {
      LookedAtAgain(certificates[1..], before, disk);
      var files, rest := LookAt(certificates, before), LookAt(certificates[1..], before);
      assert Refreshed(files, disk) == Refreshed(files[..2], disk) + Refreshed(rest, disk);
    }
  }

  /** The disk `event` has the certificate files looked at on, if it has. */
  function LookedBy(before: Snapshot, event: Event): Option<Disk> {
    if Starting(before, event).Some? && (event.CertificatesPolled? || event.disk.deployed.Some?) then Some(event.disk)
    else None
  }

  /** The disk the files polled were last looked at on, after `n` events. */
  ghost function LastLooked(states: seq<Snapshot>, events: seq<Event>, first: Disk, n: nat): Disk
    requires n <= |events| < |states|
  {
    if n == 0 then first else LookedBy(states[n - 1], events[n - 1]).GetOr(LastLooked(states, events, first, n - 1))
  }

  /** The disk the config last applied was applied from, after `n` events. */
  ghost function LastLoaded(states: seq<Snapshot>, events: seq<Event>, first: Disk, n: nat): Disk
    requires n <= |events| < |states|
  {
    if n == 0 then first
    else if AppliedBy(states[n - 1], events[n - 1]).Some? then events[n - 1].disk
    else LastLoaded(states, events, first, n - 1)
  }

  lemma StepLooks(before: Snapshot, event: Event, hasCache: bool, after: Snapshot, config: DynamicConfig, disk: Disk)
    requires Step(before, event, hasCache, after) && before.certFiles == LookAt(config.certificates, disk)
    ensures after.certFiles ==
            LookAt(ReadBy(before, event).GetOr(config).certificates, LookedBy(before, event).GetOr(disk))
  {
    if Starting(before, event).Some? {
      LookedAtAgain(config.certificates, disk, event.disk);
    }
  }

  /** What is remembered of the certificate files is how those of the config last
      read were when last looked at. */
  lemma {:induction false} RemembersLastLook(
    states: seq<Snapshot>, events: seq<Event>, hasCache: bool, initial: DynamicConfig, first: Disk, n: nat)
    requires Trace(states, events, hasCache) && n <= |events|
    requires states[0].certFiles == LookAt(initial.certificates, first)
    ensures states[n].certFiles ==
            LookAt(LastRead(states, events, initial, n).certificates, LastLooked(states, events, first, n))
  {
    if n > 0 {
      RemembersLastLook(states, events, hasCache, initial, first, n - 1);
      StepOf(states, events, hasCache, n);
      StepLooks(states[n - 1], events[n - 1], hasCache, states[n],
        LastRead(states, events, initial, n - 1), LastLooked(states, events, first, n - 1));
    }
  }

  /** A file `serving` is served from is no longer as it was on `loaded`. */
  ghost predicate Rotated(serving: DynamicConfig, loaded: Disk, later: Disk) {
    exists f :: f in Files(serving.certificates) && later.stamp(f) != loaded.stamp(f)
  }

  /** Whatever certificate of `serving` is replaced, the next poll reloads. */
  ghost predicate NoticesRotations(s: Snapshot, serving: DynamicConfig, loaded: Disk) {
    forall later: Disk :: Rotated(serving, loaded, later) ==> Starting(s, CertificatesPolled(later)).Some?
  }

  /** Every file of `serving` is one of `read`, and looked on `seen` as on `loaded`. */
  ghost predicate Watches(read: DynamicConfig, seen: Disk, serving: DynamicConfig, loaded: Disk) {
    forall f :: f in Files(serving.certificates) ==>
      f in Files(read.certificates) && seen.stamp(f) == loaded.stamp(f)
  }

  lemma {:induction false} ChangedIff(certificates: seq<CertEntry>, seen: Disk, later: Disk)
    ensures ChangedOnDisk(LookAt(certificates, seen), later) <==>
            exists f :: f in Files(certificates) && later.stamp(f) != seen.stamp(f)
  {
    if certificates != [] {
      ChangedIff(certificates[1..], seen, later);
      var files, rest := LookAt(certificates, seen), LookAt(certificates[1..], seen);
      assert files[0].0 == certificates[0].certFile && files[1].0 == certificates[0].keyFile;
      assert forall i :: 0 <= i < |rest| ==> files[i + 2] == rest[i];
      assert forall i :: 2 <= i < |files| ==> files[i] == rest[i - 2];
      assert Files(certificates)[0] == certificates[0].certFile && Files(certificates)[1] == certificates[0].keyFile;
    }
  }

  /** A disk on which the files of `read` are as on `seen`, and no other file is
      as on `loaded`. */
  function Elsewhere(read: DynamicConfig, seen: Disk, loaded: Disk): Disk {
    var named := Files(read.certificates);
    seen.(stamp := f =>
      if f in named then seen.stamp(f) else if loaded.stamp(f).None? then Some(0) else None)
  }

  lemma NoticesIffWatches(s: Snapshot, read: DynamicConfig, seen: Disk, serving: DynamicConfig, loaded: Disk)
    requires s.following && s.certFiles == LookAt(read.certificates, seen)
    ensures NoticesRotations(s, serving, loaded) <==> Watches(read, seen, serving, loaded)
  {
    forall later: Disk
      ensures Starting(s, CertificatesPolled(later)).Some? <==>
              exists f :: f in Files(read.certificates) && later.stamp(f) != seen.stamp(f)
    {
      ChangedIff(read.certificates, seen, later);
    }
    var later := Elsewhere(read, seen, loaded);
    assert Starting(s, CertificatesPolled(later)).None?;
    assert !Watches(read, seen, serving, loaded) ==> Rotated(serving, loaded, later);
  }

  /** After any run, every replaced certificate of the config being served is
      noticed if and only if the config last read, applied or not, names all its
      files, and none had changed by then since the served config was applied. */
  lemma RotationsAreNoticedIff(
    states: seq<Snapshot>, events: seq<Event>, hasCache: bool, initial: DynamicConfig, first: Disk, n: nat)
    requires Trace(states, events, hasCache) && n <= |events| && states[n].following
    requires AllOf(states[0].served, initial) && states[0].certFiles == LookAt(initial.certificates, first)
    ensures var serving, loaded := LastApplied(states, events, initial, n), LastLoaded(states, events, first, n);
            && AllOf(states[n].served, serving)
            && (NoticesRotations(states[n], serving, loaded) <==>
                Watches(LastRead(states, events, initial, n), LastLooked(states, events, first, n), serving, loaded))
  {
    ServesLastApplied(states, events, hasCache, initial, n);
    RemembersLastLook(states, events, hasCache, initial, first, n);
    NoticesIffWatches(states[n], LastRead(states, events, initial, n), LastLooked(states, events, first, n),
      LastApplied(states, events, initial, n), LastLoaded(states, events, first, n));
  }

  /** So after one config is read and rejected: `serving`, loaded from `loaded`,
      is served still, and every change of its files is noticed if and only if the
      rejected config names them all and they had not changed when it was read. */
  lemma NoticedAfterRejectionIff(
    before: Snapshot, disk: Disk, hasCache: bool, after: Snapshot, serving: DynamicConfig, loaded: Disk)
    requires AllOf(before.served, serving) && before.following && Step(before, ConfigChanged(disk), hasCache, after)
    requires disk.deployed.Some? && AppliedBy(before, ConfigChanged(disk)).None?
    ensures AllOf(after.served, serving)
    ensures (forall later: Disk ::
               Rotated(serving, loaded, later) ==> Starting(after, CertificatesPolled(later)).Some?) <==>
            (forall f :: f in Files(serving.certificates) ==>
               f in Files(disk.deployed.value.certificates) && disk.stamp(f) == loaded.stamp(f))
  {
    StepKeepsAll(before, ConfigChanged(disk), hasCache, after, serving);
    NoticesIffWatches(after, disk.deployed.value, disk, serving, loaded);
    assert NoticesRotations(after, serving, loaded) <==> Watches(disk.deployed.value, disk, serving, loaded);
  }

  /** From then on a change of files the rejected config does not name goes
      unnoticed, those being served from included. */
  lemma UnnamedFilesGoUnnoticed(
    before: Snapshot, disk: Disk, hasCache: bool, after: Snapshot, later: Disk, polled: Snapshot)
    requires before.following && disk.deployed.Some? && Step(before, ConfigChanged(disk), hasCache, after)
    requires forall f :: f in Files(disk.deployed.value.certificates) ==> later.stamp(f) == disk.stamp(f)
    requires Step(after, CertificatesPolled(later), hasCache, polled)
    ensures polled == after
  {
    var certificates := disk.deployed.value.certificates;
    LookedAtFiles(certificates, disk);
    JustLookedAt(certificates, disk);
    var files := LookAt(certificates, disk);
    forall i | 0 <= i < |files|
      ensures later.stamp(files[i].0) == files[i].1
    {
      assert Paths(files)[i] in Files(certificates);
    }
  }

  /** A node that serves one listener with the certificate `mine`, looked at on
      `loaded`, and its config. */
  function OneListener(mine: CertEntry): DynamicConfig {
    DynamicConfig([mine], [Listener("l", "[::]:443", true)], [], [])
  }

  function ServesWith(mine: CertEntry, loaded: Disk): Snapshot {
    var listener := Listener("l", "[::]:443", true);
    var sockets := Listeners.Set(map[listener.address := Running(listener, 0, 0)], map[], 1);
    var served := Served(RouteTable(map[], 0), map[], CertStore([mine], ""), sockets, map[], map[]);
    Snapshot(served, LookAt([mine], loaded), None, false, false, 0, true)
  }

  /** A disk with a config that has no listener, and whose one certificate is
      `other`; the file `a.pem` has `stamp` there. */
  function WithoutListeners(other: CertEntry, stamp: nat): Disk {
    Disk(
      Some(DynamicConfig([other], [], [], [])), _ => Some(""), f => Some(if f == "a.pem" then stamp else 0),
      Kernel(_ => None, _ => false), _ => true, Naming((_, _) => "", (_, _) => 0, x => x), true)
  }

  /** That config is rejected, having been looked at. */
  lemma OnlyLookedAt(mine: CertEntry, loaded: Disk, other: CertEntry, stamp: nat) returns (t: Snapshot)
    ensures var s, disk := ServesWith(mine, loaded), WithoutListeners(other, stamp);
            && AllOf(s.served, OneListener(mine)) && Step(s, ConfigChanged(disk), false, t)
            && t.served == s.served && t.following && t.certFiles == LookAt([other], disk)
  {
    var s, disk := ServesWith(mine, loaded), WithoutListeners(other, stamp);
    var rejected := disk.deployed.value;
    t := s.(certFiles := LookAt([other], disk), reloadFailed := true, reloadErrors := 1);
    ServesOneListener(s.served, OneListener(mine), OneListener(mine).listeners[0]);
    assert !ValidConfig(rejected, disk.isIp);
    assert Attempted(s.served, rejected, disk, s.served);
  }

  /** Such a run: a node serves with the certificate in `a.pem`, a config without
      listeners and with other files is read and rejected, `a.pem` is replaced,
      and the poll does nothing. */
  lemma RotationMissed() returns (serving: DynamicConfig, s: Snapshot, disk: Disk, t: Snapshot, later: Disk)
    ensures AllOf(s.served, serving) && s.following && s.certFiles == LookAt(serving.certificates, disk)
    ensures Step(s, ConfigChanged(disk), false, t) && AllOf(t.served, serving) && t.following
    ensures Step(t, CertificatesPolled(later), false, t) && Rotated(serving, disk, later)
  {
    var mine, other := CertEntry([], true, "a.pem", "a.key"), CertEntry([], true, "b.pem", "b.key");
    serving, disk, later := OneListener(mine), WithoutListeners(other, 0), WithoutListeners(other, 1);
    s := ServesWith(mine, disk);
    t := OnlyLookedAt(mine, disk, other, 0);
    ChangedIff([other], disk, later);
    assert Files([other]) == ["b.pem", "b.key"];
    assert Files([mine])[0] == "a.pem" && later.stamp("a.pem") != disk.stamp("a.pem");
  }

  /** And one in which the rejected config names exactly the files being served
      from: `a.pem` is replaced, then that config is read and rejected, and the
      poll takes the new `a.pem` for the one being served. */
  lemma RotationSwallowed() returns (serving: DynamicConfig, loaded: Disk, s: Snapshot, disk: Disk, t: Snapshot)
    ensures AllOf(s.served, serving) && s.following && s.certFiles == LookAt(serving.certificates, loaded)
    ensures Rotated(serving, loaded, disk) && Starting(s, CertificatesPolled(disk)).Some?
    ensures disk.deployed.Some? && Files(disk.deployed.value.certificates) == Files(serving.certificates)
    ensures Step(s, ConfigChanged(disk), false, t) && AllOf(t.served, serving) && t.following
    ensures Step(t, CertificatesPolled(disk), false, t)
  {
    var mine := CertEntry([], true, "a.pem", "a.key");
    serving, loaded, disk := OneListener(mine), WithoutListeners(mine, 0), WithoutListeners(mine, 1);
    s := ServesWith(mine, loaded);
    t := OnlyLookedAt(mine, loaded, mine, 1);
    assert Files([mine])[0] == "a.pem" && disk.stamp("a.pem") != loaded.stamp("a.pem");
    ChangedIff([mine], loaded, disk);
    JustLookedAt([mine], disk);
  }

  lemma ServesOneListener(served: Served, config: DynamicConfig, listener: Listener)
    requires config.listeners == [listener] && config.routes == [] && config.pools == []
    requires served.routes == RouteTable(map[], 0) && served.pools == map[]
    requires served.handles == map[] && served.statuses == map[]
    requires served.certificates.specs == config.certificates
    requires served.listeners.running == map[listener.address := Running(listener, 0, 0)]
    ensures AllOf(served, config)
  {
    var desired := Desired(config.listeners);
    assert desired == [(listener.address, listener)];
    assert desired[0].0 in Names(desired);
    assert Specs(config.pools) == [];
  }

  /** A state of the certificate files is acted on once: polling again, with
      nothing more changed on disk, does nothing, whether the first poll's reload
      was applied or rejected. */
  lemma BrokenRotationIsReportedOnce(s: Snapshot, disk: Disk, hasCache: bool, t: Snapshot, u: Snapshot)
    requires Step(s, CertificatesPolled(disk), hasCache, t) && Step(t, CertificatesPolled(disk), hasCache, u)
    ensures u == t
  {
    if disk.deployed.Some? {
      JustLookedAt(disk.deployed.value.certificates, disk);
    }
    assert !ChangedOnDisk(Refreshed(s.certFiles, disk), disk);
  }
}

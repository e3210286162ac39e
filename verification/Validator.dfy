/** The dynamic config, and what makes one usable. */
module Config {
  import opened Prelude
  import opened Text
  import opened Pools
  import opened Routing

  const MAX_UPSTREAM_WEIGHT: nat := 1000

  /** 100 ms, in nanoseconds. */
  const MIN_HEALTH_CHECK_INTERVAL: nat := 100_000_000

  /** `address` is the IP address and the port, which together name a socket. */
  datatype Listener = Listener(id: string, address: string, https: bool)

  datatype CertEntry = CertEntry(sni: seq<string>, isDefault: bool, certFile: string, keyFile: string)

  /** Durations in nanoseconds. */
  datatype HealthCheck = HealthCheck(
    interval: nat, timeout: nat, path: string, expectedStatus: nat, drainStatus: Option<nat>)

  datatype UpstreamPool = UpstreamPool(spec: PoolSpec, healthCheck: Option<HealthCheck>)

  datatype DynamicConfig = DynamicConfig(
    certificates: seq<CertEntry>,
    listeners: seq<Listener>,
    routes: seq<Route>,
    pools: seq<UpstreamPool>)

  predicate IsLabel(l: string) {
    && 1 <= |l| <= 63 && l[0] != '-' && l[|l| - 1] != '-'
    && forall i :: 0 <= i < |l| ==>
         'a' <= l[i] <= 'z' || 'A' <= l[i] <= 'Z' || '0' <= l[i] <= '9' || l[i] == '-' || l[i] == '_'
  }

  function Labels(host: string): (labels: seq<string>)
    ensures labels != []
  {
    if host == "" then [""]
    else
      var rest := Labels(host[1..]);
      if host[0] == '.' then [""] + rest else [[host[0]] + rest[0]] + rest[1..]
  }

  predicate IsHostname(host: string) {
    |host| <= 253 && forall i :: 0 <= i < |Labels(host)| ==> IsLabel(Labels(host)[i])
  }

  predicate IsStatus(status: nat) {
    100 <= status <= 599
  }

  predicate ValidHealthCheck(c: HealthCheck) {
    && c.timeout > 0 && c.interval >= MIN_HEALTH_CHECK_INTERVAL && StartsWith(c.path, "/")
    && IsStatus(c.expectedStatus) && (c.drainStatus.Some? ==> IsStatus(c.drainStatus.value))
  }

  /** `isIp` is what parses as an IP address. */
  predicate ValidUpstream(b: Backend, isIp: string -> bool) {
    && b.host != "" && b.port != 0 && '[' !in b.host && ']' !in b.host
    && (isIp(b.host) || IsHostname(b.host)) && b.weight <= MAX_UPSTREAM_WEIGHT
  }

  predicate ValidPool(p: UpstreamPool, isIp: string -> bool) {
    && p.spec.backends != []
    && (forall i :: 0 <= i < |p.spec.backends| ==> ValidUpstream(p.spec.backends[i], isIp))
    && (p.healthCheck.Some? ==> ValidHealthCheck(p.healthCheck.value))
  }

  predicate ForwardsTo(r: Route, pools: seq<string>) {
    r.action.Forward? ==> r.action.pool in pools
  }

  function ListenerIds(listeners: seq<Listener>): seq<string> {
    seq(|listeners|, i requires 0 <= i < |listeners| => listeners[i].id)
  }

  function Addresses(listeners: seq<Listener>): seq<string> {
    seq(|listeners|, i requires 0 <= i < |listeners| => listeners[i].address)
  }

  function PoolIds(pools: seq<UpstreamPool>): seq<string> {
    seq(|pools|, i requires 0 <= i < |pools| => pools[i].spec.id)
  }

  function RouteIds(routes: seq<Route>): seq<string> {
    seq(|routes|, i requires 0 <= i < |routes| => routes[i].id)
  }

  ghost predicate Distinct(names: seq<string>) {
    forall i, j :: 0 <= i < j < |names| ==> names[i] != names[j]
  }

  ghost predicate OneDefault(certificates: seq<CertEntry>) {
    forall i, j :: 0 <= i < j < |certificates| ==> !certificates[i].isDefault || !certificates[j].isDefault
  }

  predicate ServesHttps(listeners: seq<Listener>) {
    exists i :: 0 <= i < |listeners| && listeners[i].https
  }

  /** A config that makes sense. */
  ghost predicate ValidConfig(cfg: DynamicConfig, isIp: string -> bool) {
    && cfg.listeners != [] && Distinct(ListenerIds(cfg.listeners)) && Distinct(Addresses(cfg.listeners))
    && Distinct(PoolIds(cfg.pools)) && (forall i :: 0 <= i < |cfg.pools| ==> ValidPool(cfg.pools[i], isIp))
    && Distinct(RouteIds(cfg.routes)) && Resolved(cfg.routes, ListenerIds(cfg.listeners), PoolIds(cfg.pools))
    && OneDefault(cfg.certificates)
    && (ServesHttps(cfg.listeners) ==> cfg.certificates != [])
  }

  predicate ResolvedRoute(r: Route, listeners: seq<string>, pools: seq<string>) {
    r.listener in listeners && ForwardsTo(r, pools) && r.host != ""
  }

  ghost predicate Resolved(routes: seq<Route>, listeners: seq<string>, pools: seq<string>) {
    forall i :: 0 <= i < |routes| ==> ResolvedRoute(routes[i], listeners, pools)
  }
}

/** `validate_dynamic_config`, against what it stands for. */
module Validator {
  import opened Prelude
  import opened Pools
  import opened Routing
  import opened Config

  datatype Invalid =
    | NoListeners | DuplicateListenerId(id: string) | ReusedAddress(address: string)
    | DuplicatePoolId(id: string) | NoUpstreams(id: string)
    | InvalidUpstream(id: string, host: string) | Brackets(id: string, host: string)
    | NeitherNameNorAddress(id: string, host: string) | TooHeavy(id: string, host: string)
    | InvalidHealthCheck(id: string) | DuplicateRouteId(id: string)
    | UnknownListener(route: string) | UnknownPool(route: string) | EmptyHost(route: string)
    | SeveralDefaults | NoCertificates

  type Verdict = Option<Invalid>

  // ---------------------------------------------------------------------------
  // What is wrong with each part, looked at in order

  function ListenerFault(listeners: seq<Listener>, i: nat): Verdict
    requires i < |listeners|
  {
    if listeners[i].id in ListenerIds(listeners)[..i] then Some(DuplicateListenerId(listeners[i].id))
    else if listeners[i].address in Addresses(listeners)[..i] then Some(ReusedAddress(listeners[i].address))
    else None
  }

  function UpstreamFault(id: string, u: Backend, isIp: string -> bool): Verdict {
    if u.host == "" || u.port == 0 then Some(InvalidUpstream(id, u.host))
    else if '[' in u.host || ']' in u.host then Some(Brackets(id, u.host))
    else if !isIp(u.host) && !IsHostname(u.host) then Some(NeitherNameNorAddress(id, u.host))
    else if u.weight > MAX_UPSTREAM_WEIGHT then Some(TooHeavy(id, u.host))
    else None
  }

  function UpstreamsFault(id: string, upstreams: seq<Backend>, isIp: string -> bool): Verdict {
    if upstreams == [] then None
    else if UpstreamFault(id, upstreams[0], isIp).Some? then UpstreamFault(id, upstreams[0], isIp)
    else UpstreamsFault(id, upstreams[1..], isIp)
  }

  function PoolFault(pools: seq<UpstreamPool>, i: nat, isIp: string -> bool): Verdict
    requires i < |pools|
  {
    var UpstreamPool(spec, check) := pools[i];
    if spec.id in PoolIds(pools)[..i] then Some(DuplicatePoolId(spec.id))
    else if spec.backends == [] then Some(NoUpstreams(spec.id))
    else if UpstreamsFault(spec.id, spec.backends, isIp).Some? then UpstreamsFault(spec.id, spec.backends, isIp)
    else if check.Some? && !ValidHealthCheck(check.value) then Some(InvalidHealthCheck(spec.id))
    else None
  }

  function RouteFault(routes: seq<Route>, i: nat, listeners: seq<string>, pools: seq<string>): Verdict
    requires i < |routes|
  {
    var r := routes[i];
    if r.id in RouteIds(routes)[..i] then Some(DuplicateRouteId(r.id))
    else if r.listener !in listeners then Some(UnknownListener(r.id))
    else if !ForwardsTo(r, pools) then Some(UnknownPool(r.id))
    else if r.host == "" then Some(EmptyHost(r.id))
    else None
  }

  /** `found` is the fault of the first listener that has one. */
  ghost predicate FirstListenerFault(listeners: seq<Listener>, found: Verdict) {
    if found.None? then forall i :: 0 <= i < |listeners| ==> ListenerFault(listeners, i).None?
    else exists i :: 0 <= i < |listeners| && ListenerFault(listeners, i) == found
                     && forall j :: 0 <= j < i ==> ListenerFault(listeners, j).None?
  }

  ghost predicate FirstPoolFault(pools: seq<UpstreamPool>, isIp: string -> bool, found: Verdict) {
    if found.None? then forall i :: 0 <= i < |pools| ==> PoolFault(pools, i, isIp).None?
    else exists i :: 0 <= i < |pools| && PoolFault(pools, i, isIp) == found
                     && forall j :: 0 <= j < i ==> PoolFault(pools, j, isIp).None?
  }

  ghost predicate FirstRouteFault(routes: seq<Route>, listeners: seq<string>, pools: seq<string>, found: Verdict) {
    if found.None? then forall i :: 0 <= i < |routes| ==> RouteFault(routes, i, listeners, pools).None?
    else exists i :: 0 <= i < |routes| && RouteFault(routes, i, listeners, pools) == found
                     && forall j :: 0 <= j < i ==> RouteFault(routes, j, listeners, pools).None?
  }

  /** `found` is the first thing wrong with `cfg`, its parts looked at in order. */
  ghost predicate FirstFault(cfg: DynamicConfig, isIp: string -> bool, found: Verdict) {
    var listeners, pools := ListenerIds(cfg.listeners), PoolIds(cfg.pools);
    if cfg.listeners == [] then found == Some(NoListeners)
    else if !FirstListenerFault(cfg.listeners, None) then found.Some? && FirstListenerFault(cfg.listeners, found)
    else if !FirstPoolFault(cfg.pools, isIp, None) then found.Some? && FirstPoolFault(cfg.pools, isIp, found)
    else if !FirstRouteFault(cfg.routes, listeners, pools, None) then
      found.Some? && FirstRouteFault(cfg.routes, listeners, pools, found)
    else if !OneDefault(cfg.certificates) then found == Some(SeveralDefaults)
    else if ServesHttps(cfg.listeners) && cfg.certificates == [] then found == Some(NoCertificates)
    else found == None
  }

  // ---------------------------------------------------------------------------
  // Looking

  /** `seen` are the first `n` of `names`, all different. */
  ghost predicate Seen(names: seq<string>, n: nat, seen: set<string>) {
    && n <= |names| && Distinct(names[..n])
    && (forall i :: 0 <= i < n ==> names[i] in seen) && (forall x :: x in seen ==> x in names[..n])
  }

  lemma SeenNext(names: seq<string>, n: nat, seen: set<string>)
    requires Seen(names, n, seen) && n < |names|
    ensures names[n] in seen <==> names[n] in names[..n]
    ensures if names[n] in seen then !Distinct(names) else Seen(names, n + 1, seen + {names[n]})
  {
    assert names[..n + 1] == names[..n] + [names[n]];
    if names[n] in seen {
      var i :| 0 <= i < n && names[..n][i] == names[n];
      assert names[i] == names[n];
    }
  }

  lemma SeenAll(names: seq<string>, seen: set<string>)
    requires Seen(names, |names|, seen)
    ensures Distinct(names) && forall x :: x in seen <==> x in names
  {
    assert names[..|names|] == names;
  }

  method CheckListeners(listeners: seq<Listener>) returns (found: Verdict, ids: set<string>)
    ensures FirstListenerFault(listeners, found)
    ensures found.None? <==> Distinct(ListenerIds(listeners)) && Distinct(Addresses(listeners))
    ensures found.None? ==> forall x :: x in ids <==> x in ListenerIds(listeners)
  {
    ids := {};
    var addrs := {};
    for i := 0 to |listeners|
      invariant Seen(ListenerIds(listeners), i, ids) && Seen(Addresses(listeners), i, addrs)
      invariant forall j :: 0 <= j < i ==> ListenerFault(listeners, j).None?
    {
      var l := listeners[i];
      SeenNext(ListenerIds(listeners), i, ids);
      SeenNext(Addresses(listeners), i, addrs);
      if l.id in ids {
        assert ListenerFault(listeners, i) == Some(DuplicateListenerId(l.id));
        return Some(DuplicateListenerId(l.id)), ids;
      }
      if l.address in addrs {
        assert ListenerFault(listeners, i) == Some(ReusedAddress(l.address));
        return Some(ReusedAddress(l.address)), ids;
      }
      ids, addrs := ids + {l.id}, addrs + {l.address};
    }
    SeenAll(ListenerIds(listeners), ids);
    SeenAll(Addresses(listeners), addrs);
    found := None;
  }

  method CheckUpstream(id: string, u: Backend, isIp: string -> bool) returns (found: Verdict)
    ensures found == UpstreamFault(id, u, isIp)
    ensures found.None? <==> ValidUpstream(u, isIp)
  {
    if u.host == "" || u.port == 0 {
      return Some(InvalidUpstream(id, u.host));
    }
    if '[' in u.host || ']' in u.host {
      return Some(Brackets(id, u.host));
    }
    if !isIp(u.host) && !IsHostname(u.host) {
      return Some(NeitherNameNorAddress(id, u.host));
    }
    if u.weight > MAX_UPSTREAM_WEIGHT {
      return Some(TooHeavy(id, u.host));
    }
    found := None;
  }

  method CheckUpstreams(id: string, upstreams: seq<Backend>, isIp: string -> bool) returns (found: Verdict)
    ensures found == UpstreamsFault(id, upstreams, isIp)
    ensures found.None? <==> forall i :: 0 <= i < |upstreams| ==> ValidUpstream(upstreams[i], isIp)
  {
    for i := 0 to |upstreams|
      invariant forall j :: 0 <= j < i ==> ValidUpstream(upstreams[j], isIp)
      invariant UpstreamsFault(id, upstreams, isIp) == UpstreamsFault(id, upstreams[i..], isIp)
    {
      assert upstreams[i..][1..] == upstreams[i + 1..];
      found := CheckUpstream(id, upstreams[i], isIp);
      if found.Some? {
        return;
      }
    }
    found := None;
  }

  method CheckPools(pools: seq<UpstreamPool>, isIp: string -> bool) returns (found: Verdict, ids: set<string>)
    ensures FirstPoolFault(pools, isIp, found)
    ensures found.None? <==> Distinct(PoolIds(pools)) && forall i :: 0 <= i < |pools| ==> ValidPool(pools[i], isIp)
    ensures found.None? ==> forall x :: x in ids <==> x in PoolIds(pools)
  {
    ids := {};
    for i := 0 to |pools|
      invariant Seen(PoolIds(pools), i, ids)
      invariant forall j :: 0 <= j < i ==> ValidPool(pools[j], isIp) && PoolFault(pools, j, isIp).None?
    {
      SeenNext(PoolIds(pools), i, ids);
      found := CheckPool(pools, i, isIp, ids);
      if found.Some? {
        return;
      }
      ids := ids + {pools[i].spec.id};
    }
    SeenAll(PoolIds(pools), ids);
    found := None;
  }

  method CheckPool(pools: seq<UpstreamPool>, i: nat, isIp: string -> bool, ids: set<string>) returns (found: Verdict)
    requires i < |pools| && (pools[i].spec.id in ids <==> pools[i].spec.id in PoolIds(pools)[..i])
    ensures found == PoolFault(pools, i, isIp)
    ensures found.None? <==> pools[i].spec.id !in ids && ValidPool(pools[i], isIp)
  {
    var p := pools[i];
    if p.spec.id in ids {
      return Some(DuplicatePoolId(p.spec.id));
    }
    if p.spec.backends == [] {
      return Some(NoUpstreams(p.spec.id));
    }
    found := CheckUpstreams(p.spec.id, p.spec.backends, isIp);
    if found.Some? {
      return;
    }
    if p.healthCheck.Some? && !ValidHealthCheck(p.healthCheck.value) {
      return Some(InvalidHealthCheck(p.spec.id));
    }
    found := None;
  }

  /** The names given as sets are those of `listeners` and `pools`. */
  ghost predicate Lists(known: set<string>, names: seq<string>) {
    forall x :: x in known <==> x in names
  }

  method CheckRoutes(
    routes: seq<Route>, known: set<string>, knownPools: set<string>,
    ghost listeners: seq<string>, ghost pools: seq<string>)
    returns (found: Verdict)
    requires Lists(known, listeners) && Lists(knownPools, pools)
    ensures FirstRouteFault(routes, listeners, pools, found)
    ensures found.None? <==> Distinct(RouteIds(routes)) && Resolved(routes, listeners, pools)
  {
    var ids := {};
    for i := 0 to |routes|
      invariant Seen(RouteIds(routes), i, ids)
      invariant forall j :: 0 <= j < i ==>
                  RouteFault(routes, j, listeners, pools).None? && ResolvedRoute(routes[j], listeners, pools)
    {
      SeenNext(RouteIds(routes), i, ids);
      found := CheckRoute(routes, i, ids, known, knownPools, listeners, pools);
      if found.Some? {
        return;
      }
      ids := ids + {routes[i].id};
    }
    SeenAll(RouteIds(routes), ids);
    found := None;
  }

  method CheckRoute(
    routes: seq<Route>, i: nat, ids: set<string>, known: set<string>, knownPools: set<string>,
    ghost listeners: seq<string>, ghost pools: seq<string>)
    returns (found: Verdict)
    requires i < |routes| && (routes[i].id in ids <==> routes[i].id in RouteIds(routes)[..i])
    requires Lists(known, listeners) && Lists(knownPools, pools)
    ensures found == RouteFault(routes, i, listeners, pools)
    ensures found.None? <==> routes[i].id !in ids && ResolvedRoute(routes[i], listeners, pools)
  {
    var r := routes[i];
    if r.id in ids {
      return Some(DuplicateRouteId(r.id));
    }
    if r.listener !in known {
      return Some(UnknownListener(r.id));
    }
    if r.action.Forward? && r.action.pool !in knownPools {
      return Some(UnknownPool(r.id));
    }
    if r.host == "" {
      return Some(EmptyHost(r.id));
    }
    found := None;
  }

  method CountDefaults(certificates: seq<CertEntry>) returns (defaults: nat)
    ensures defaults <= 1 <==> OneDefault(certificates)
  {
    defaults := 0;
    for i := 0 to |certificates|
      invariant defaults == 0 <==> forall j :: 0 <= j < i ==> !certificates[j].isDefault
      invariant defaults <= 1 <==>
                forall j, k :: 0 <= j < k < i ==> !certificates[j].isDefault || !certificates[k].isDefault
    {
      if certificates[i].isDefault {
        defaults := defaults + 1;
      }
    }
  }

  /** Accepts exactly the configs that make sense, and tells the first thing wrong
      with any other. */
  method Validate(cfg: DynamicConfig, isIp: string -> bool) returns (found: Verdict)
    ensures found.None? <==> ValidConfig(cfg, isIp)
    ensures FirstFault(cfg, isIp, found)
  {
    if cfg.listeners == [] {
      return Some(NoListeners);
    }
    var listeners, pools;
    found, listeners := CheckListeners(cfg.listeners);
    if found.Some? {
      return;
    }
    found, pools := CheckPools(cfg.pools, isIp);
    if found.Some? {
      return;
    }
    found := CheckRoutes(cfg.routes, listeners, pools, ListenerIds(cfg.listeners), PoolIds(cfg.pools));
    if found.Some? {
      return;
    }
    var defaults := CountDefaults(cfg.certificates);
    if defaults > 1 {
      return Some(SeveralDefaults);
    }
    if ServesHttps(cfg.listeners) && cfg.certificates == [] {
      return Some(NoCertificates);
    }
    found := None;
  }
}

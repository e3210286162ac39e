/** Host and path matching. */
module Matcher {
  import opened Prelude
  import opened Text

  predicate IsWildcard(pattern: string) {
    StartsWith(pattern, "*.")
  }

  /** Whether a route for `pattern` is for `host`. */
  predicate HostMatches(pattern: string, host: string) {
    if pattern == "*" then true
    else if IsWildcard(pattern) then
      var suffix := pattern[1..];
      EndsWith(host, suffix) &&
      var first := host[..|host| - |suffix|];
      first != [] && '.' !in first
    else
      Lower(pattern) == Lower(host)
  }

  /** Whether a route for paths under `prefix` is for `path`. */
  predicate PathPrefixMatches(prefix: string, path: string) {
    if prefix == "/" || prefix == "" then true
    else if StartsWith(path, prefix) then
      var rest := path[|prefix|..];
      rest == "" || StartsWith(rest, "/") || EndsWith(prefix, "/")
    else false
  }

  /** The one wildcard pattern that can match `host`, if any: the host with its
      first label replaced by `*`. */
  function WildcardOf(host: string): Option<string> {
    var d := Find(host, '.');
    if 0 < d < |host| then Some("*" + host[d..]) else None
  }

  /** At most one wildcard pattern matches a host. */
  lemma OneWildcardMatches(pattern: string, host: string)
    requires IsWildcard(pattern)
    ensures HostMatches(pattern, host) <==> WildcardOf(host) == Some(pattern)
  {
    var suffix, d := pattern[1..], Find(host, '.');
    assert suffix[0] == '.' && pattern == "*" + suffix;
    if HostMatches(pattern, host) {
      var first := host[..|host| - |suffix|];
      assert host[|first|] == suffix[0];
      assert forall k :: 0 <= k < d ==> host[k] == host[..d][k];
      assert forall k :: 0 <= k < |first| ==> host[k] == first[k];
    }
    if WildcardOf(host) == Some(pattern) {
      assert host[d..] == suffix;
    }
  }
}

/** The route table compiled from a config's routes, against a search through
    those routes. */
module Routing {
  import opened Prelude
  import opened Text
  import opened StableSort
  import opened Matcher

  datatype RouteAction =
    | Forward(pool: string)
    | Redirect(scheme: string, status: nat)
    | Fixed(code: nat, body: string)

  datatype Route = Route(id: string, listener: string, host: string, pathPrefix: string, action: RouteAction)

  datatype CompiledRoute = CompiledRoute(id: string, host: string, pathPrefix: string, action: RouteAction)

  function Compiled(r: Route): CompiledRoute {
    CompiledRoute(r.id, Trim(r.host), r.pathPrefix, r.action)
  }

  /** What a route's host pattern makes of it. */
  datatype HostKind = ExactHost(name: string) | WildcardHost(pattern: string) | AnyHost

  function KindOf(host: string): HostKind {
    var host := Trim(host);
    if host == "*" then AnyHost
    else if IsWildcard(host) then WildcardHost(Lower(host))
    else ExactHost(Lower(host))
  }

  // ---------------------------------------------------------------------------
  // The compiled table

  type HostRoutes = seq<CompiledRoute>

  datatype ListenerRoutes = ListenerRoutes(
    exactHosts: map<string, HostRoutes>,
    wildcardHosts: seq<(string, HostRoutes)>,
    anyHost: HostRoutes)

  const NO_ROUTES := ListenerRoutes(map[], [], [])

  datatype RouteTable = RouteTable(listeners: map<string, ListenerRoutes>, routeCount: nat)

  function MatchPath(routes: HostRoutes, path: string): Option<CompiledRoute> {
    if routes == [] then None
    else if PathPrefixMatches(routes[0].pathPrefix, path) then Some(routes[0])
    else MatchPath(routes[1..], path)
  }

  function MatchWildcards(hosts: seq<(string, HostRoutes)>, host: string, path: string): Option<CompiledRoute> {
    if hosts == [] then None
    else
      var found := MatchPath(hosts[0].1, path);
      if HostMatches(hosts[0].0, host) && found.Some? then found
      else MatchWildcards(hosts[1..], host, path)
  }

  function OrElse<T>(first: Option<T>, second: Option<T>): Option<T> {
    if first.Some? then first else second
  }

  function MatchListener(lr: ListenerRoutes, host: string, path: string): Option<CompiledRoute> {
    var host := Lower(host);
    var exact := if host in lr.exactHosts then MatchPath(lr.exactHosts[host], path) else None;
    OrElse(exact, OrElse(MatchWildcards(lr.wildcardHosts, host, path), MatchPath(lr.anyHost, path)))
  }

  function MatchRequest(table: RouteTable, listener: string, host: string, path: string): Option<CompiledRoute> {
    if listener in table.listeners then MatchListener(table.listeners[listener], host, path) else None
  }

  function ByPrefix(): CompiledRoute -> int {
    (r: CompiledRoute) => -(Utf8Len(r.pathPrefix) as int)
  }

  function ByPattern(): ((string, HostRoutes)) -> int {
    (entry: (string, HostRoutes)) => -(Utf8Len(entry.0) as int)
  }

  function SortEntries(hosts: seq<(string, HostRoutes)>): seq<(string, HostRoutes)> {
    seq(|hosts|, i requires 0 <= i < |hosts| => (hosts[i].0, Sort(hosts[i].1, ByPrefix())))
  }

  function SortListener(lr: ListenerRoutes): ListenerRoutes {
    ListenerRoutes(
      map h | h in lr.exactHosts :: Sort(lr.exactHosts[h], ByPrefix()),
      Sort(SortEntries(lr.wildcardHosts), ByPattern()),
      Sort(lr.anyHost, ByPrefix()))
  }

  // ---------------------------------------------------------------------------
  // What the table holds

  /** The routes of `routes` that satisfy `p`, compiled, in config order. */
  function Bucket(routes: seq<Route>, p: Route -> bool): HostRoutes {
    Collect(routes, p, Compiled)
  }

  function Of(listener: string, kind: HostKind): Route -> bool {
    (r: Route) => r.listener == listener && KindOf(r.host) == kind
  }

  function IndexOf(hosts: seq<(string, HostRoutes)>, pattern: string): (i: nat)
    ensures i <= |hosts|
    ensures i < |hosts| ==> hosts[i].0 == pattern
    ensures forall j :: 0 <= j < i ==> hosts[j].0 != pattern
  {
    if hosts == [] || hosts[0].0 == pattern then 0 else 1 + IndexOf(hosts[1..], pattern)
  }

  /** The routes a listener's table keeps for one kind of host. */
  function Get(lr: ListenerRoutes, kind: HostKind): HostRoutes {
    match kind
    case ExactHost(name) => if name in lr.exactHosts then lr.exactHosts[name] else []
    case WildcardHost(pattern) => UnderPattern(lr.wildcardHosts, pattern)
    case AnyHost => lr.anyHost
  }

  ghost predicate Patterns(hosts: seq<(string, HostRoutes)>) {
    && (forall i :: 0 <= i < |hosts| ==> IsWildcard(hosts[i].0))
    && (forall i, j :: 0 <= i < j < |hosts| ==> hosts[i].0 != hosts[j].0)
  }

  /** `lr` holds, unsorted, exactly the routes of `routes` on `listener`, each
      under its kind of host. */
  ghost predicate Holds(lr: ListenerRoutes, routes: seq<Route>, listener: string) {
    && Patterns(lr.wildcardHosts)
    && (forall kind :: Get(lr, kind) == Bucket(routes, Of(listener, kind)))
  }

  function LookUp(listeners: map<string, ListenerRoutes>, listener: string): ListenerRoutes {
    if listener in listeners then listeners[listener] else NO_ROUTES
  }

  lemma LowerKeepsKind(s: string)
    ensures Lower(Lower(s)) == Lower(s)
    ensures Lower(s) == "*" <==> s == "*"
    ensures IsWildcard(Lower(s)) <==> IsWildcard(s)
  {
    if |s| >= 2 {
      assert Lower(s)[..2] == [LowerChar(s[0]), LowerChar(s[1])];
    }
  }

  /** `after` is `lr` with one more route of the kind. */
  ghost predicate Gained(lr: ListenerRoutes, after: ListenerRoutes, added: HostKind, compiled: CompiledRoute) {
    forall kind :: Get(after, kind) == Get(lr, kind) + if kind == added then [compiled] else []
  }

  lemma GainedExact(lr: ListenerRoutes, after: ListenerRoutes, name: string, compiled: CompiledRoute)
    requires after == lr.(exactHosts := lr.exactHosts[name := Get(lr, ExactHost(name)) + [compiled]])
    ensures Gained(lr, after, ExactHost(name), compiled)
  {
  }

  lemma GainedWildcard(
    lr: ListenerRoutes, after: ListenerRoutes, hosts: seq<(string, HostRoutes)>,
    pattern: string, compiled: CompiledRoute)
    requires after == lr.(wildcardHosts := hosts)
    requires forall p :: UnderPattern(hosts, p) ==
               UnderPattern(lr.wildcardHosts, p) + if p == pattern then [compiled] else []
    ensures Gained(lr, after, WildcardHost(pattern), compiled)
  {
    forall kind
      ensures Get(after, kind) == Get(lr, kind) + if kind == WildcardHost(pattern) then [compiled] else []
    {
      if kind.WildcardHost? {
        assert Get(after, kind) == UnderPattern(hosts, kind.pattern);
        assert Get(lr, kind) == UnderPattern(lr.wildcardHosts, kind.pattern);
      }
    }
  }

  /** `insert_route`: the wildcard list is searched for the pattern, the maps
      are indexed. */
  method InsertRoute(lr: ListenerRoutes, route: Route) returns (after: ListenerRoutes)
    requires Patterns(lr.wildcardHosts)
    ensures Patterns(after.wildcardHosts)
    ensures Gained(lr, after, KindOf(route.host), Compiled(route))
  {
    var host := Trim(route.host);
    var compiled := CompiledRoute(route.id, host, route.pathPrefix, route.action);
    if host == "*" {
      return lr.(anyHost := lr.anyHost + [compiled]);
    }
    var key := Lower(host);
    if !IsWildcard(host) {
      var routes := if key in lr.exactHosts then lr.exactHosts[key] else [];
      after := lr.(exactHosts := lr.exactHosts[key := routes + [compiled]]);
      GainedExact(lr, after, key, compiled);
      return;
    }
    LowerKeepsKind(host);
    var hosts := PushWildcard(lr.wildcardHosts, key, compiled);
    after := lr.(wildcardHosts := hosts);
    GainedWildcard(lr, after, hosts, key, compiled);
  }

  /** The routes the list keeps for `pattern`. */
  function UnderPattern(hosts: seq<(string, HostRoutes)>, pattern: string): HostRoutes {
    var i := IndexOf(hosts, pattern);
    if i < |hosts| then hosts[i].1 else []
  }

  method PushWildcard(hosts: seq<(string, HostRoutes)>, key: string, compiled: CompiledRoute)
    returns (after: seq<(string, HostRoutes)>)
    requires Patterns(hosts) && IsWildcard(key)
    ensures Patterns(after)
    ensures forall pattern :: UnderPattern(after, pattern) ==
              UnderPattern(hosts, pattern) + if pattern == key then [compiled] else []
  {
    var i := 0;
    while i < |hosts| && hosts[i].0 != key
      invariant 0 <= i <= |hosts|
      invariant forall j :: 0 <= j < i ==> hosts[j].0 != key
    {
      i := i + 1;
    }
    if i < |hosts| {
      after := hosts[i := (key, hosts[i].1 + [compiled])];
    } else {
      after := hosts + [(key, [compiled])];
    }
    forall pattern
      ensures UnderPattern(after, pattern) == UnderPattern(hosts, pattern) + if pattern == key then [compiled] else []
    {
      var before, now := IndexOf(hosts, pattern), IndexOf(after, pattern);
      assert before < |hosts| ==> after[before].0 == pattern;
      assert now < |hosts| ==> hosts[now].0 == pattern;
      assert pattern == key && i < |hosts| ==> hosts[i].0 == pattern;
      assert i == |hosts| ==> after[i] == (key, [compiled]);
    }
  }

  lemma HoldsPush(lr: ListenerRoutes, after: ListenerRoutes, routes: seq<Route>, r: Route)
    requires Holds(lr, routes, r.listener) && Patterns(after.wildcardHosts)
    requires Gained(lr, after, KindOf(r.host), Compiled(r))
    ensures Holds(after, routes + [r], r.listener)
  {
    forall kind
      ensures Get(after, kind) == Bucket(routes + [r], Of(r.listener, kind))
    {
      CollectPush(routes, r, Of(r.listener, kind), Compiled);
    }
  }

  lemma HoldsOther(lr: ListenerRoutes, routes: seq<Route>, r: Route, listener: string)
    requires Holds(lr, routes, listener) && listener != r.listener
    ensures Holds(lr, routes + [r], listener)
  {
    forall kind
      ensures Get(lr, kind) == Bucket(routes + [r], Of(listener, kind))
    {
      CollectPush(routes, r, Of(listener, kind), Compiled);
    }
  }

  /** `table` is the compiled form of `routes`: under every listener, each kind
      of host has its routes, longest prefix first. */
  ghost predicate IsCompiled(table: RouteTable, routes: seq<Route>) {
    && table.routeCount == |routes|
    && forall listener ::
         var lr := LookUp(table.listeners, listener);
         && Patterns(lr.wildcardHosts)
         && (forall kind :: Get(lr, kind) == Sort(Bucket(routes, Of(listener, kind)), ByPrefix()))
  }

  method Compile(routes: seq<Route>) returns (table: RouteTable)
    ensures IsCompiled(table, routes)
  {
    var listeners: map<string, ListenerRoutes> := map[];
    for i := 0 to |routes|
      invariant forall l :: Holds(LookUp(listeners, l), routes[..i], l)
    {
      var route := routes[i];
      var lr := LookUp(listeners, route.listener);
      var after := InsertRoute(lr, route);
      HeldNext(listeners, after, routes, i);
      listeners := listeners[route.listener := after];
    }
    table := RouteTable(map l | l in listeners :: SortListener(listeners[l]), |routes|);
    SortedTable(listeners, routes);
  }

  lemma HeldNext(listeners: map<string, ListenerRoutes>, after: ListenerRoutes, routes: seq<Route>, i: nat)
    requires i < |routes| && forall l :: Holds(LookUp(listeners, l), routes[..i], l)
    requires Patterns(after.wildcardHosts)
    requires forall kind :: Get(after, kind) ==
               Get(LookUp(listeners, routes[i].listener), kind)
               + if kind == KindOf(routes[i].host) then [Compiled(routes[i])] else []
    ensures var next := listeners[routes[i].listener := after];
            forall l :: Holds(LookUp(next, l), routes[..i + 1], l)
  {
    var next := listeners[routes[i].listener := after];
    assert routes[..i + 1] == routes[..i] + [routes[i]];
    forall l
      ensures Holds(LookUp(next, l), routes[..i + 1], l)
    {
      if l == routes[i].listener {
        HoldsPush(LookUp(listeners, l), after, routes[..i], routes[i]);
      } else {
        HoldsOther(LookUp(listeners, l), routes[..i], routes[i], l);
      }
    }
  }

  lemma SortedTable(listeners: map<string, ListenerRoutes>, routes: seq<Route>)
    requires forall l :: Holds(LookUp(listeners, l), routes[..|routes|], l)
    ensures IsCompiled(RouteTable(map l | l in listeners :: SortListener(listeners[l]), |routes|), routes)
  {
    assert routes[..|routes|] == routes;
    var sorted := map l | l in listeners :: SortListener(listeners[l]);
    forall l
      ensures Patterns(LookUp(sorted, l).wildcardHosts)
      ensures forall kind :: Get(LookUp(sorted, l), kind) == Sort(Bucket(routes, Of(l, kind)), ByPrefix())
    {
      assert Holds(LookUp(listeners, l), routes, l);
      SortListenerGet(LookUp(listeners, l));
      assert SortListener(NO_ROUTES) == NO_ROUTES;
      assert LookUp(sorted, l) == SortListener(LookUp(listeners, l));
    }
  }

  /** Sorting a listener's table sorts what it keeps for each kind of host; the
      order of the wildcard list does not show. */
  lemma SortListenerGet(lr: ListenerRoutes)
    requires Patterns(lr.wildcardHosts)
    ensures Patterns(SortListener(lr).wildcardHosts)
    ensures forall kind :: Get(SortListener(lr), kind) == Sort(Get(lr, kind), ByPrefix())
  {
    var entries := SortEntries(lr.wildcardHosts);
    var sorted := Sort(entries, ByPattern());
    SortMembers(entries, ByPattern());
    SortKeepsPatterns(entries);
    forall kind
      ensures Get(SortListener(lr), kind) == Sort(Get(lr, kind), ByPrefix())
    {
      if kind.WildcardHost? {
        var i, j := IndexOf(lr.wildcardHosts, kind.pattern), IndexOf(sorted, kind.pattern);
        if i < |entries| {
          assert entries[i] in sorted;
        }
        if j < |sorted| {
          assert sorted[j] in entries;
        }
      }
    }
  }

  lemma SortKeepsPatterns(hosts: seq<(string, HostRoutes)>)
    requires Patterns(hosts)
    ensures Patterns(Sort(hosts, ByPattern()))
  {
    var sorted := Sort(hosts, ByPattern());
    SortMembers(hosts, ByPattern());
    SortContents(hosts, ByPattern());
    forall i | 0 <= i < |sorted|
      ensures IsWildcard(sorted[i].0)
    {
      assert sorted[i] in hosts;
    }
    forall i, j | 0 <= i < j < |sorted|
      ensures sorted[i].0 != sorted[j].0
    {
      if sorted[i].0 == sorted[j].0 {
        assert sorted[i] in hosts && sorted[j] in hosts;
        Once(hosts, sorted[i]);
        Twice(sorted, i, j);
      }
    }
  }

  lemma {:induction false} Once(hosts: seq<(string, HostRoutes)>, entry: (string, HostRoutes))
    requires Patterns(hosts)
    ensures multiset(hosts)[entry] <= 1
  {
    if hosts != [] {
      assert hosts == [hosts[0]] + hosts[1..];
      Once(hosts[1..], entry);
      if hosts[0] == entry {
        assert entry !in hosts[1..];
      }
    }
  }

  lemma Twice<T>(s: seq<T>, i: nat, j: nat)
    requires i < j < |s| && s[i] == s[j]
    ensures multiset(s)[s[i]] >= 2
  {
    assert s == s[..j] + s[j..];
    assert s[i] == s[..j][i] && s[j] == s[j..][0];
    assert s[i] in multiset(s[..j]) && s[i] in multiset(s[j..]);
  }

  // ---------------------------------------------------------------------------
  // The search through the routes

  /** How specifically `r` matches a request for `host` (in lower case): 0 by
      its exact name, 1 by a wildcard, 2 as any host, 3 not at all. */
  function Tier(r: Route, host: string): nat {
    TierOf(KindOf(r.host), host)
  }

  function TierOf(kind: HostKind, host: string): nat {
    match kind
    case ExactHost(name) => if name == host then 0 else 3
    case WildcardHost(pattern) => if HostMatches(pattern, host) then 1 else 3
    case AnyHost => 2
  }

  /** The tiers are those of the pattern's three forms, and a route has one below
      3 exactly if its pattern matches. */
  lemma TierIsMatch(r: Route, host: string)
    ensures var pattern, tier := Trim(r.host), Tier(r, Lower(host));
            && (tier < 3 <==> HostMatches(Lower(pattern), Lower(host)))
            && (tier < 3 ==> tier == if pattern == "*" then 2 else if IsWildcard(pattern) then 1 else 0)
  {
    LowerKeepsKind(Trim(r.host));
    LowerKeepsKind(host);
  }

  predicate Matches(r: Route, listener: string, host: string, path: string) {
    r.listener == listener && Tier(r, Lower(host)) < 3 && PathPrefixMatches(r.pathPrefix, path)
  }

  function Matching(listener: string, host: string, path: string): Route -> bool {
    (r: Route) => Matches(r, listener, host, path)
  }

  function TierFor(host: string): Route -> nat {
    (r: Route) => Tier(r, Lower(host))
  }

  function LongestFirst(): Route -> int {
    (r: Route) => -(Utf8Len(r.pathPrefix) as int)
  }

  /** `routes[i]` is what a search through the routes picks: of those that match,
      the most specific host, then the longest path prefix, then the earliest. */
  ghost predicate IsPick(routes: seq<Route>, listener: string, host: string, path: string, i: nat) {
    Best(routes, Matching(listener, host, path), TierFor(host), LongestFirst(), i)
  }

  lemma {:induction false} MatchPathIsFilter(routes: HostRoutes, path: string)
    ensures var matching := Filter(routes, (c: CompiledRoute) => PathPrefixMatches(c.pathPrefix, path));
            MatchPath(routes, path) == if matching == [] then None else Some(matching[0])
  {
    if routes != [] {
      MatchPathIsFilter(routes[1..], path);
    }
  }

  function OfPath(listener: string, kind: HostKind, path: string): Route -> bool {
    (r: Route) => Of(listener, kind)(r) && PathPrefixMatches(r.pathPrefix, path)
  }

  /** What a table keeps for `kind` of host answers a path with the longest and
      earliest of the routes of that kind. */
  lemma MatchSorted(routes: seq<Route>, listener: string, kind: HostKind, path: string) returns (i: nat)
    ensures var found := MatchPath(Sort(Bucket(routes, Of(listener, kind)), ByPrefix()), path);
            && (found.None? ==> forall j :: 0 <= j < |routes| ==> !OfPath(listener, kind, path)(routes[j]))
            && (found.Some? ==>
                  && FirstLeast(routes, OfPath(listener, kind, path), LongestFirst(), i)
                  && found.value == Compiled(routes[i]))
  {
    var p := Of(listener, kind);
    var q := (c: CompiledRoute) => PathPrefixMatches(c.pathPrefix, path);
    var both := Both(p, Compiled, q);
    MatchPathIsFilter(Sort(Bucket(routes, p), ByPrefix()), path);
    FilterSort(Bucket(routes, p), q, ByPrefix());
    FilterCollect(routes, p, Compiled, q);
    i := HeadOfSorted(routes, both, Compiled, ByPrefix(), LongestFirst());
    assert forall j :: 0 <= j < |routes| ==> both(routes[j]) == OfPath(listener, kind, path)(routes[j]);
  }

  /** The wildcard list answers from the one pattern that can match, wherever
      in the list it stands: how the list is sorted decides nothing. */
  lemma {:induction false} MatchWildcardsIsLookUp(hosts: seq<(string, HostRoutes)>, host: string, path: string)
    requires Patterns(hosts)
    ensures MatchWildcards(hosts, host, path) ==
            if WildcardOf(host).None? then None
            else MatchPath(UnderPattern(hosts, WildcardOf(host).value), path)
  {
    if hosts != [] {
      OneWildcardMatches(hosts[0].0, host);
      MatchWildcardsIsLookUp(hosts[1..], host, path);
      if WildcardOf(host) == Some(hosts[0].0) {
        assert forall j :: 0 <= j < |hosts| - 1 ==> hosts[1..][j] == hosts[j + 1];
      }
    }
  }

  lemma KindOfWildcard(host: string)
    ensures KindOf(host).WildcardHost? ==> IsWildcard(KindOf(host).pattern)
  {
    if KindOf(host).WildcardHost? {
      LowerKeepsKind(Trim(host));
    }
  }

  /** The kind of host that answers for each tier of a request for `host`. */
  function KindAt(host: string, tier: nat): Option<HostKind>
    requires tier < 3
  {
    if tier == 0 then Some(ExactHost(Lower(host)))
    else if tier == 2 then Some(AnyHost)
    else if WildcardOf(Lower(host)).Some? then Some(WildcardHost(WildcardOf(Lower(host)).value))
    else None
  }

  function FoundAt(lr: ListenerRoutes, host: string, path: string, tier: nat): Option<CompiledRoute>
    requires tier < 3
  {
    if KindAt(host, tier).Some? then MatchPath(Get(lr, KindAt(host, tier).value), path) else None
  }

  lemma TierIsKind(kind: HostKind, host: string, tier: nat)
    requires tier < 3 && (kind.WildcardHost? ==> IsWildcard(kind.pattern))
    ensures TierOf(kind, Lower(host)) == tier <==> KindAt(host, tier) == Some(kind)
  {
    if kind.WildcardHost? {
      OneWildcardMatches(kind.pattern, Lower(host));
    }
  }

  lemma KindIsTier(r: Route, listener: string, host: string, path: string, tier: nat)
    requires tier < 3
    ensures AtTier(Matching(listener, host, path), TierFor(host), tier)(r) <==>
            KindAt(host, tier).Some? && OfPath(listener, KindAt(host, tier).value, path)(r)
  {
    KindOfWildcard(r.host);
    TierIsKind(KindOf(r.host), host, tier);
    assert Matching(listener, host, path)(r) == Matches(r, listener, host, path);
    assert TierFor(host)(r) == Tier(r, Lower(host));
    if KindAt(host, tier).Some? {
      var kind := KindAt(host, tier).value;
      assert Of(listener, kind)(r) == (r.listener == listener && KindOf(r.host) == kind);
    }
  }

  /** Each tier is answered as the search restricted to it would answer. */
  lemma TierFound(table: RouteTable, routes: seq<Route>, listener: string, host: string, path: string, tier: nat)
    returns (i: nat)
    requires IsCompiled(table, routes) && tier < 3
    ensures var found := FoundAt(LookUp(table.listeners, listener), host, path, tier);
            && TierAnswer(routes, Matching(listener, host, path), TierFor(host), LongestFirst(), tier, found.Some?, i)
            && (found.Some? ==> found.value == Compiled(routes[i]))
  {
    i := 0;
    forall j | 0 <= j < |routes|
      ensures AtTier(Matching(listener, host, path), TierFor(host), tier)(routes[j]) <==>
              KindAt(host, tier).Some? && OfPath(listener, KindAt(host, tier).value, path)(routes[j])
    {
      KindIsTier(routes[j], listener, host, path, tier);
    }
    if KindAt(host, tier).Some? {
      var kind := KindAt(host, tier).value;
      i := MatchSorted(routes, listener, kind, path);
      assert Get(LookUp(table.listeners, listener), kind) == Sort(Bucket(routes, Of(listener, kind)), ByPrefix());
    }
  }

  lemma MatchIsByTier(table: RouteTable, routes: seq<Route>, listener: string, host: string, path: string)
    requires IsCompiled(table, routes)
    ensures var lr := LookUp(table.listeners, listener);
            MatchRequest(table, listener, host, path) ==
            OrElse(FoundAt(lr, host, path, 0), OrElse(FoundAt(lr, host, path, 1), FoundAt(lr, host, path, 2)))
  {
    var lr := LookUp(table.listeners, listener);
    MatchWildcardsIsLookUp(lr.wildcardHosts, Lower(host), path);
  }

  /** The compiled table returns, for every listener, host and path, the route a
      search through the config's routes would pick: exact host before wildcard
      before `*`, the next kind when no path of one matches, then the longest
      prefix, then the order of the config. */
  lemma TableIsSearch(table: RouteTable, routes: seq<Route>, listener: string, host: string, path: string)
    returns (i: nat)
    requires IsCompiled(table, routes)
    ensures var found := MatchRequest(table, listener, host, path);
            && (found.None? ==> forall j :: 0 <= j < |routes| ==> !Matches(routes[j], listener, host, path))
            && (found.Some? ==> IsPick(routes, listener, host, path, i) && found.value == Compiled(routes[i]))
  {
    var lr := LookUp(table.listeners, listener);
    var m, tier, rank := Matching(listener, host, path), TierFor(host), LongestFirst();
    MatchIsByTier(table, routes, listener, host, path);
    i := TierFound(table, routes, listener, host, path, 0);
    LowestTierIsBest(routes, m, tier, rank, 0, FoundAt(lr, host, path, 0).Some?, i);
    if FoundAt(lr, host, path, 0).None? {
      i := TierFound(table, routes, listener, host, path, 1);
      LowestTierIsBest(routes, m, tier, rank, 1, FoundAt(lr, host, path, 1).Some?, i);
      if FoundAt(lr, host, path, 1).None? {
        i := TierFound(table, routes, listener, host, path, 2);
        LowestTierIsBest(routes, m, tier, rank, 2, FoundAt(lr, host, path, 2).Some?, i);
        assert forall j :: 0 <= j < |routes| ==> m(routes[j]) == Matches(routes[j], listener, host, path);
      }
    }
  }
}

/** The health of the backends: one handle each, shared by the map that is
    written to and the pools that read. */
module Health {
  import opened Prelude

  datatype HealthStatus = Unknown | Healthy | Unhealthy | Draining

  /** A backend's host and port. */
  type Key = (string, nat)

  class HealthHandle {
    var status: HealthStatus
    const unknownIsSelectable: bool

    constructor (unknownIsSelectable: bool)
      ensures status == Unknown && this.unknownIsSelectable == unknownIsSelectable
    {
      status, this.unknownIsSelectable := Unknown, unknownIsSelectable;
    }

    predicate IsSelectable()
      reads this
    {
      match status
      case Healthy => true
      case Unknown => unknownIsSelectable
      case Unhealthy | Draining => false
    }
  }

  /** `later` has every handle of `earlier`, for the same backend. */
  ghost predicate Keeps(earlier: map<Key, HealthHandle>, later: map<Key, HealthHandle>) {
    forall k :: k in earlier ==> k in later && later[k] == earlier[k]
  }

  /** `statuses` with the backend known, if only as unknown. */
  function Entered(statuses: map<Key, HealthStatus>, key: Key): map<Key, HealthStatus> {
    if key in statuses then statuses else statuses[key := Unknown]
  }

  lemma EnteredThenSet(statuses: map<Key, HealthStatus>, key: Key, status: HealthStatus)
    ensures Entered(statuses, key)[key := status] == statuses[key := status]
  {
  }

  /** The statuses known stay as they are; what is newly known is unknown. */
  ghost predicate OnlyEnters(earlier: map<Key, HealthStatus>, later: map<Key, HealthStatus>) {
    && (forall k :: k in earlier ==> k in later && later[k] == earlier[k])
    && (forall k :: k in later && k !in earlier ==> later[k] == Unknown)
  }

  class HealthMap {
    var handles: map<Key, HealthHandle>
    const assumeHealthyWhenUnknown: bool

    constructor (assumeHealthyWhenUnknown: bool)
      ensures handles == map[] && this.assumeHealthyWhenUnknown == assumeHealthyWhenUnknown
      ensures Valid()
    {
      handles, this.assumeHealthyWhenUnknown := map[], assumeHealthyWhenUnknown;
    }

    ghost predicate Valid()
      reads this
    {
      && (forall k :: k in handles ==> handles[k].unknownIsSelectable == assumeHealthyWhenUnknown)
      && (forall j, k :: j in handles && k in handles && handles[j] == handles[k] ==> j == k)
    }

    ghost function Statuses(): map<Key, HealthStatus>
      reads this, handles.Values
    {
      map k | k in handles :: handles[k].status
    }

    function Get(key: Key): HealthStatus
      reads this, handles.Values
    {
      if key in handles then handles[key].status else Unknown
    }

    predicate IsSelectable(key: Key)
      reads this, handles.Values
    {
      if key in handles then handles[key].IsSelectable() else assumeHealthyWhenUnknown
    }

    /** Entering a backend not known yet changes nobody's status. */
    method Handle(key: Key) returns (handle: HealthHandle)
      requires Valid()
      modifies this`handles
      ensures Valid() && Keeps(old(handles), handles)
      ensures handles == old(handles)[key := handle]
      ensures key !in old(handles) ==> fresh(handle)
      ensures Statuses() == Entered(old(Statuses()), key)
    {
      if key in handles {
        handle := handles[key];
      } else {
        handle := new HealthHandle(assumeHealthyWhenUnknown);
        handles := handles[key := handle];
      }
    }

    method Write(key: Key, status: HealthStatus)
      requires Valid() && key in handles
      modifies handles[key]
      ensures Statuses() == old(Statuses())[key := status]
    {
      handles[key].status := status;
    }

    /** Every handle on the backend sees the status; no other backend's changes. */
    method Set(key: Key, status: HealthStatus)
      requires Valid()
      modifies this`handles, handles.Values
      ensures Valid() && Keeps(old(handles), handles) && handles.Keys == old(handles).Keys + {key}
      ensures forall k :: k in handles && k !in old(handles) ==> fresh(handles[k])
      ensures Statuses() == old(Statuses())[key := status]
    {
      var handle := Handle(key);
      Write(key, status);
      EnteredThenSet(old(Statuses()), key, status);
    }

    method Retain(keep: set<Key>)
      requires Valid()
      modifies this`handles
      ensures Valid() && Keeps(handles, old(handles)) && handles.Keys == old(handles).Keys * keep
    {
      handles := map k | k in handles && k in keep :: handles[k];
    }
  }
}

/** Pools of backends, and how one of them is selected. */
module Pools {
  import opened Prelude
  import opened Rounding
  import opened StableSort
  import opened HashRing
  import opened Shares
  import opened Health
  import opened PoolQuota
  import TokenBucket

  const MAX_RING_POINTS: nat := 1_000_000

  datatype Backend = Backend(host: string, port: nat, weight: nat) {
    function Key(): Key {
      (host, port)
    }
  }

  datatype Policy = RoundRobin | LeastRequest | RingHash

  datatype PoolSpec = PoolSpec(
    id: string,
    policy: Policy,
    backends: seq<Backend>,
    maxInFlight: Option<nat>,
    maxRequestsPerSecond: Option<TokenBucket.Count>,
    scheme: string)

  /** How a backend's authority is written, a point of the ring is hashed, and a
      number is rounded. */
  datatype Naming = Naming(authority: (string, nat) -> string, hash: Hash, round: real -> real)

  function Weights(backends: seq<Backend>): seq<nat> {
    seq(|backends|, i requires 0 <= i < |backends| => backends[i].weight)
  }

  function Authorities(backends: seq<Backend>, naming: Naming): seq<string> {
    seq(|backends|, i requires 0 <= i < |backends| => naming.authority(backends[i].host, backends[i].port))
  }

  function Sum(weights: seq<nat>): nat {
    if weights == [] then 0 else weights[0] + Sum(weights[1..])
  }

  /** Whether the pool can be built: a ring would not be too large. */
  predicate Buildable(spec: PoolSpec) {
    spec.policy == Policy.RingHash ==> RING_REPLICAS * Sum(Weights(spec.backends)) <= MAX_RING_POINTS
  }

  ghost predicate AllBuildable(specs: seq<PoolSpec>) {
    forall i :: 0 <= i < |specs| ==> Buildable(specs[i])
  }

  function RingOf(spec: PoolSpec, naming: Naming): seq<Point> {
    if spec.policy == Policy.RingHash
    then Ring(naming.hash, Authorities(spec.backends, naming), Weights(spec.backends))
    else []
  }

  // ---------------------------------------------------------------------------
  // The choice among the healthy backends

  predicate Uniform(weights: seq<nat>) {
    forall i :: 0 <= i < |weights| ==> weights[i] == weights[0]
  }

  function Candidates(weights: seq<nat>, healthy: seq<nat>): seq<Candidate>
    requires forall i :: 0 <= i < |healthy| ==> healthy[i] < |weights|
  {
    seq(|healthy|, i requires 0 <= i < |healthy| => (healthy[i], weights[healthy[i]]))
  }

  /** The indices of a pool, some of them healthy, in order. */
  ghost predicate AreIndices(healthy: seq<nat>, n: nat) {
    && (forall i :: 0 <= i < |healthy| ==> healthy[i] < n)
    && (forall i, j :: 0 <= i < j < |healthy| ==> healthy[i] < healthy[j])
  }

  /** Whether the counter decides, and not a draw. */
  predicate InTurn(weights: seq<nat>, healthy: seq<nat>)
    requires forall i :: 0 <= i < |healthy| ==> healthy[i] < |weights|
  {
    Uniform(weights) || Total(Candidates(weights, healthy)) == 0
  }

  function TakeTurns(weights: seq<nat>, healthy: seq<nat>, counter: nat, draw: nat): nat
    requires healthy != [] && forall i :: 0 <= i < |healthy| ==> healthy[i] < |weights|
  {
    var candidates := Candidates(weights, healthy);
    if InTurn(weights, healthy) then healthy[counter % |healthy|]
    else WeightedPick(candidates, draw % Total(candidates))
  }

  /** What the counter comes to when turns are taken. */
  function Turned(weights: seq<nat>, healthy: seq<nat>, counter: nat): nat
    requires forall i :: 0 <= i < |healthy| ==> healthy[i] < |weights|
  {
    if InTurn(weights, healthy) then Advance(counter, 1, TWO_TO_THE_64) else counter
  }

  function Among(healthy: seq<nat>): nat -> bool {
    (i: nat) => i in healthy
  }

  function FollowRing(ring: seq<Point>, weights: seq<nat>, healthy: seq<nat>, key: nat, counter: nat, draw: nat): nat
    requires healthy != [] && forall i :: 0 <= i < |healthy| ==> healthy[i] < |weights|
  {
    Pick(ring, key, Among(healthy)).GetOr(TakeTurns(weights, healthy, counter, draw))
  }

  /** Requests in flight, this one counted, per unit of weight. */
  function Score(inflight: nat, weight: nat): real {
    (inflight + 1) as real / Max(weight, 1) as real
  }

  /** The first of those with the least score. */
  ghost predicate LeastLoaded(weights: seq<nat>, inflight: seq<nat>, healthy: seq<nat>, picked: nat)
    requires |inflight| == |weights| && forall i :: 0 <= i < |healthy| ==> healthy[i] < |weights|
  {
    && picked in healthy
    && forall i :: i in healthy ==>
         && Score(inflight[picked], weights[picked]) <= Score(inflight[i], weights[i])
         && (i < picked ==> Score(inflight[picked], weights[picked]) < Score(inflight[i], weights[i]))
  }

  /** The score as it is computed, each result rounded to a 64-bit float. */
  function RoundedScore(round: real -> real, inflight: nat, weight: nat): real {
    round(round(round(inflight as real) + 1.0) / Max(weight, 1) as real)
  }

  /** The first of those whose score comes out least. */
  ghost predicate LeastRounded(
    weights: seq<nat>, inflight: seq<nat>, healthy: seq<nat>, round: real -> real, picked: nat)
    requires |inflight| == |weights| && forall i :: 0 <= i < |healthy| ==> healthy[i] < |weights|
  {
    && picked in healthy
    && forall i :: i in healthy ==>
         && RoundedScore(round, inflight[picked], weights[picked]) <= RoundedScore(round, inflight[i], weights[i])
         && (i < picked ==>
               RoundedScore(round, inflight[picked], weights[picked]) < RoundedScore(round, inflight[i], weights[i]))
  }

  // ---------------------------------------------------------------------------
  // A pool

  class Pool {
    const spec: PoolSpec
    const health: seq<HealthHandle>
    const ring: seq<Point>
    const turns: Shares.RoundRobin
    const quota: Quota
    const inflight: array<nat>
    const round: real -> real

    constructor (spec: PoolSpec, ring: seq<Point>, health: seq<HealthHandle>, round: real -> real)
      ensures this.spec == spec && this.ring == ring && this.health == health && this.round == round
      ensures fresh(turns) && turns.counter == 0 && fresh(quota) && quota.inFlight == 0
      ensures quota.maxInFlight == spec.maxInFlight && quota.rate.Some? == spec.maxRequestsPerSecond.Some?
      ensures fresh(inflight) && inflight.Length == |spec.backends|
      ensures forall i :: 0 <= i < inflight.Length ==> inflight[i] == 0
    {
      this.spec, this.ring, this.health, this.round := spec, ring, health, round;
      turns := new Shares.RoundRobin();
      quota := new Quota(spec.maxInFlight, spec.maxRequestsPerSecond);
      inflight := new nat[|spec.backends|](_ => 0);
    }

    ghost predicate Valid() {
      && |health| == inflight.Length == |spec.backends|
      && Sorted(ring, ByHash())
      && (forall p :: p in ring ==> p.1 < |spec.backends|)
    }

    method HealthyIndices() returns (healthy: seq<nat>)
      ensures AreIndices(healthy, |health|)
      ensures forall i :: i in healthy <==> 0 <= i < |health| && health[i].IsSelectable()
    {
      healthy := [];
      for i := 0 to |health|
        invariant AreIndices(healthy, i)
        invariant forall j :: j in healthy <==> 0 <= j < i && health[j].IsSelectable()
      {
        if health[i].IsSelectable() {
          healthy := healthy + [i];
        }
      }
    }

    method TakeTurn(healthy: seq<nat>, draw: nat) returns (picked: nat)
      requires Valid() && healthy != [] && AreIndices(healthy, |spec.backends|)
      modifies turns
      ensures picked in healthy
      ensures picked == TakeTurns(Weights(spec.backends), healthy, old(turns.counter), draw)
      ensures turns.counter == Turned(Weights(spec.backends), healthy, old(turns.counter))
    {
      var weights := Weights(spec.backends);
      var candidates := Candidates(weights, healthy);
      var total := Total(candidates);
      if Uniform(weights) || total == 0 {
        picked := turns.Next(healthy);
      } else {
        picked := PickWeighted(candidates, draw % total);
        PickedAmong(candidates, draw % total);
      }
    }

    method LeastRequested(healthy: seq<nat>) returns (picked: nat)
      requires Valid() && healthy != [] && AreIndices(healthy, |spec.backends|)
      ensures LeastRounded(Weights(spec.backends), inflight[..], healthy, round, picked)
    {
      var weights := Weights(spec.backends);
      picked := healthy[0];
      for i := 1 to |healthy|
        invariant picked in healthy[..i]
        invariant LeastRounded(weights, inflight[..], healthy[..i], round, picked)
      {
        var next := healthy[i];
        assert healthy[..i + 1] == healthy[..i] + [next];
        assert forall j :: j in healthy[..i] ==> j < next;
        var score := RoundedScore(round, inflight[next], weights[next]);
        if score < RoundedScore(round, inflight[picked], weights[picked]) {
          picked := next;
        }
      }
      assert healthy[..|healthy|] == healthy;
    }

    /** Whether turns are taken: by policy, or for want of a healthy point. */
    predicate TakesTurns(key: nat, healthy: seq<nat>) {
      match spec.policy
      case RoundRobin => true
      case LeastRequest => false
      case RingHash => Pick(ring, key, Among(healthy)).None?
    }

    /** `selected` is the backend's index; `draw` the random number, if one is
        asked for. A backend is selected if and only if one is selectable. */
    method Select(hashKey: Option<nat>, draw: nat) returns (selected: Option<nat>, ghost healthy: seq<nat>)
      requires Valid()
      modifies inflight, turns
      ensures AreIndices(healthy, |spec.backends|)
      ensures forall i :: i in healthy <==> 0 <= i < |health| && old(health[i].IsSelectable())
      ensures selected.None? <==> healthy == []
      ensures selected.Some? ==>
                && selected.value in healthy
                && var weights := Weights(spec.backends);
                   match spec.policy {
                     case RoundRobin => selected.value == TakeTurns(weights, healthy, old(turns.counter), draw)
                     case LeastRequest => LeastRounded(weights, old(inflight[..]), healthy, round, selected.value)
                     case RingHash =>
                       selected.value == FollowRing(ring, weights, healthy, hashKey.GetOr(0), old(turns.counter), draw)
                   }
      ensures turns.counter ==
              if selected.Some? && TakesTurns(hashKey.GetOr(0), healthy)
              then Turned(Weights(spec.backends), healthy, old(turns.counter)) else old(turns.counter)
      ensures inflight[..] ==
              if selected.Some? && spec.policy == Policy.LeastRequest
              then old(inflight[..])[selected.value := old(inflight[..])[selected.value] + 1] else old(inflight[..])
    {
      var indices := HealthyIndices();
      healthy := indices;
      if indices == [] {
        return None, indices;
      }
      var idx;
      match spec.policy {
        case RoundRobin =>
          idx := TakeTurn(indices, draw);
        case LeastRequest =>
          idx := LeastRequested(indices);
          inflight[idx] := inflight[idx] + 1;
        case RingHash =>
          var found := RingPick(ring, hashKey.GetOr(0), Among(indices));
          if found.Some? {
            PickOwner(ring, hashKey.GetOr(0), Among(indices));
            idx := found.value;
          } else {
            idx := TakeTurn(indices, draw);
          }
      }
      selected := Some(idx);
    }

    /** The guard of a request to backend `idx` is dropped: under `least_request` it
        is counted no more. */
    method Finish(idx: nat)
      requires Valid() && idx < |spec.backends| && (spec.policy == Policy.LeastRequest ==> inflight[idx] > 0)
      modifies inflight
      ensures inflight[..] ==
              if spec.policy == Policy.LeastRequest then old(inflight[..])[idx := old(inflight[idx]) - 1]
              else old(inflight[..])
    {
      if spec.policy == Policy.LeastRequest {
        inflight[idx] := inflight[idx] - 1;
      }
    }
  }

  lemma PickOwner(ring: seq<Point>, key: nat, healthy: nat -> bool)
    ensures var picked := Pick(ring, key, healthy);
            && (picked.Some? ==> healthy(picked.value) && exists p :: p in ring && p.1 == picked.value)
            && (picked.None? ==> forall p :: p in ring ==> !healthy(p.1))
  {
    var points := Filter(ring, AtOrAfter(key)) + Filter(ring, HashRing.Before(key));
    FilterMembers(ring, AtOrAfter(key));
    FilterMembers(ring, HashRing.Before(key));
    var k := FirstHealthyIndex(points, healthy);
    if k < |points| {
      assert points[k] in points;
    }
    forall p | p in ring
      ensures p in points
    {
      assert AtOrAfter(key)(p) || HashRing.Before(key)(p);
    }
  }

  lemma {:induction false} FilterMembers<T>(s: seq<T>, p: T -> bool)
    ensures forall x :: x in Filter(s, p) <==> x in s && p(x)
  {
    if s != [] {
      FilterMembers(s[1..], p);
    }
  }

  // ---------------------------------------------------------------------------
  // Building

  /** Every backend's handle is the one `handles` has for it. */
  ghost predicate Reads(pool: Pool, handles: map<Key, HealthHandle>) {
    && |pool.health| == |pool.spec.backends|
    && forall i :: 0 <= i < |pool.health| ==>
         var key := pool.spec.backends[i].Key();
         key in handles && handles[key] == pool.health[i]
  }

  method TakeHandles(backends: seq<Backend>, health: HealthMap) returns (taken: seq<HealthHandle>)
    requires health.Valid()
    modifies health`handles
    ensures health.Valid() && Keeps(old(health.handles), health.handles)
    ensures OnlyEnters(old(health.Statuses()), health.Statuses())
    ensures |taken| == |backends|
    ensures forall i :: 0 <= i < |taken| ==>
              backends[i].Key() in health.handles && health.handles[backends[i].Key()] == taken[i]
  {
    taken := [];
    for i := 0 to |backends|
      invariant health.Valid() && Keeps(old(health.handles), health.handles)
      invariant OnlyEnters(old(health.Statuses()), health.Statuses())
      invariant |taken| == i
      invariant forall j :: 0 <= j < i ==>
                  backends[j].Key() in health.handles && health.handles[backends[j].Key()] == taken[j]
    {
      var handle := health.Handle(backends[i].Key());
      taken := taken + [handle];
    }
  }

  method NewPool(spec: PoolSpec, health: HealthMap, naming: Naming) returns (result: Result<Pool, string>)
    requires health.Valid()
    modifies health`handles
    ensures health.Valid() && Keeps(old(health.handles), health.handles)
    ensures OnlyEnters(old(health.Statuses()), health.Statuses())
    ensures result.Ok? <==> Buildable(spec)
    ensures result.Ok? ==>
              var pool := result.value;
              && fresh(pool) && pool.Valid() && pool.spec == spec && pool.ring == RingOf(spec, naming)
              && pool.round == naming.round && Reads(pool, health.handles)
  {
    var ring := [];
    if spec.policy == Policy.RingHash {
      var weights := Weights(spec.backends);
      if RING_REPLICAS * Sum(weights) > MAX_RING_POINTS {
        return Err(spec.id);
      }
      ring := BuildRing(naming.hash, Authorities(spec.backends, naming), weights);
      RingOwners(naming.hash, Authorities(spec.backends, naming), weights);
    }
    var handles := TakeHandles(spec.backends, health);
    var pool := new Pool(spec, ring, handles, naming.round);
    result := Ok(pool);
  }

  /** `spec` is the last of `specs` with this id. */
  ghost predicate LastNamed(specs: seq<PoolSpec>, id: string, spec: PoolSpec) {
    exists i :: 0 <= i < |specs| && specs[i] == spec && spec.id == id
                && forall j :: i < j < |specs| ==> specs[j].id != id
  }

  ghost predicate BuiltFrom(pools: map<string, Pool>, specs: seq<PoolSpec>) {
    && pools.Keys == (set i | 0 <= i < |specs| :: specs[i].id)
    && forall id :: id in pools ==> LastNamed(specs, id, pools[id].spec)
  }

  /** Every pool reads the very handles that are written to. */
  ghost predicate Coherent(pools: map<string, Pool>, handles: map<Key, HealthHandle>) {
    forall id :: id in pools ==> pools[id].Valid() && Reads(pools[id], handles)
  }

  method AddPool(
    pools: map<string, Pool>, spec: PoolSpec, health: HealthMap, naming: Naming, ghost specs: seq<PoolSpec>)
    returns (result: Result<map<string, Pool>, string>)
    requires health.Valid() && BuiltFrom(pools, specs) && Coherent(pools, health.handles)
    modifies health`handles
    ensures health.Valid() && Keeps(old(health.handles), health.handles)
    ensures OnlyEnters(old(health.Statuses()), health.Statuses())
    ensures result.Ok? <==> Buildable(spec)
    ensures result.Ok? ==> BuiltFrom(result.value, specs + [spec]) && Coherent(result.value, health.handles)
  {
    var pool := NewPool(spec, health, naming);
    if pool.Err? {
      return Err(pool.error);
    }
    CoherentLater(pools, old(health.handles), health.handles);
    BuiltNext(pools, specs, pool.value);
    result := Ok(pools[spec.id := pool.value]);
  }

  method BuildPools(specs: seq<PoolSpec>, health: HealthMap, naming: Naming)
    returns (result: Result<map<string, Pool>, string>)
    requires health.Valid()
    modifies health`handles
    ensures health.Valid() && Keeps(old(health.handles), health.handles)
    ensures OnlyEnters(old(health.Statuses()), health.Statuses())
    ensures result.Ok? <==> AllBuildable(specs)
    ensures result.Ok? ==> BuiltFrom(result.value, specs) && Coherent(result.value, health.handles)
  {
    var pools: map<string, Pool> := map[];
    for i := 0 to |specs|
      invariant health.Valid() && Keeps(old(health.handles), health.handles)
      invariant OnlyEnters(old(health.Statuses()), health.Statuses())
      invariant AllBuildable(specs[..i]) && BuiltFrom(pools, specs[..i]) && Coherent(pools, health.handles)
    {
      ghost var handles, statuses := health.handles, health.Statuses();
      var added := AddPool(pools, specs[i], health, naming, specs[..i]);
      EntersOn(old(health.handles), handles, health.handles, old(health.Statuses()), statuses, health.Statuses());
      BuildableNext(specs, i);
      if added.Err? {
        return Err(added.error);
      }
      assert specs[..i] + [specs[i]] == specs[..i + 1];
      pools := added.value;
    }
    assert specs[..|specs|] == specs;
    result := Ok(pools);
  }

  lemma BuildableNext(specs: seq<PoolSpec>, i: nat)
    requires i < |specs| && AllBuildable(specs[..i])
    ensures if Buildable(specs[i]) then AllBuildable(specs[..i + 1]) else !AllBuildable(specs)
  {
  }

  lemma EntersOn(
    h0: map<Key, HealthHandle>, h1: map<Key, HealthHandle>, h2: map<Key, HealthHandle>,
    s0: map<Key, HealthStatus>, s1: map<Key, HealthStatus>, s2: map<Key, HealthStatus>)
    requires Keeps(h0, h1) && Keeps(h1, h2) && OnlyEnters(s0, s1) && OnlyEnters(s1, s2)
    ensures Keeps(h0, h2) && OnlyEnters(s0, s2)
  {
  }

  lemma CoherentLater(pools: map<string, Pool>, earlier: map<Key, HealthHandle>, later: map<Key, HealthHandle>)
    requires Coherent(pools, earlier) && Keeps(earlier, later)
    ensures Coherent(pools, later)
  {
  }

  lemma BuiltNext(pools: map<string, Pool>, specs: seq<PoolSpec>, pool: Pool)
    requires BuiltFrom(pools, specs)
    ensures BuiltFrom(pools[pool.spec.id := pool], specs + [pool.spec])
  {
    var more, spec := specs + [pool.spec], pool.spec;
    assert more[|specs|] == spec;
    forall i | 0 <= i < |specs|
      ensures more[i].id in pools
    {
      assert specs[i] == more[i] && specs[i].id in pools.Keys;
    }
    forall id | id in pools
      ensures exists i :: 0 <= i < |more| && more[i].id == id
    {
      var i :| 0 <= i < |specs| && specs[i].id == id;
      assert more[i].id == id;
    }
    forall id | id in pools && id != spec.id
      ensures LastNamed(more, id, pools[id].spec)
    {
      var i :| 0 <= i < |specs| && specs[i] == pools[id].spec && forall j :: i < j < |specs| ==> specs[j].id != id;
      assert more[i] == specs[i];
    }
    assert LastNamed(more, spec.id, spec);
  }

  // ---------------------------------------------------------------------------
  // Backends of no weight

  lemma {:induction false} OwnersFrom(hash: Hash, authorities: seq<string>, weights: seq<nat>, from: nat)
    requires from <= |authorities| == |weights|
    ensures forall p :: p in PointsFrom(hash, authorities, weights, from) ==>
              from <= p.1 < |weights| && weights[p.1] > 0
    ensures forall i :: from <= i < |weights| && weights[i] > 0 ==>
              (hash(authorities[i], 0), i) in PointsFrom(hash, authorities, weights, from)
    decreases |authorities| - from
  {
    if from < |authorities| {
      OwnersFrom(hash, authorities, weights, from + 1);
      var here := Replicas(hash, authorities[from], from, RING_REPLICAS * weights[from]);
      if weights[from] > 0 {
        assert here[0] == (hash(authorities[from], 0), from);
      }
    }
  }

  /** The backends on a ring are those of some weight. */
  lemma RingOwners(hash: Hash, authorities: seq<string>, weights: seq<nat>)
    requires |authorities| == |weights|
    ensures forall p :: p in Ring(hash, authorities, weights) ==> p.1 < |weights| && weights[p.1] > 0
    ensures forall i :: 0 <= i < |weights| && weights[i] > 0 ==>
              (hash(authorities[i], 0), i) in Ring(hash, authorities, weights)
  {
    OwnersFrom(hash, authorities, weights, 0);
    SortMembers(PointsFrom(hash, authorities, weights, 0), ByHash());
  }

  ghost predicate AllWeightless(weights: seq<nat>, healthy: seq<nat>)
    requires forall i :: 0 <= i < |healthy| ==> healthy[i] < |weights|
  {
    forall i :: 0 <= i < |healthy| ==> weights[healthy[i]] == 0
  }

  lemma {:induction false} NoTotal(candidates: seq<Candidate>)
    ensures Total(candidates) == 0 <==> forall i :: 0 <= i < |candidates| ==> candidates[i].1 == 0
  {
    if candidates != [] {
      NoTotal(candidates[1..]);
      assert forall i :: 1 <= i < |candidates| ==> candidates[i] == candidates[1..][i - 1];
    }
  }

  /** Taking turns picks a backend of no weight only if all that are healthy have
      none, and then in turn. */
  lemma TurnsOfTheWeightless(weights: seq<nat>, healthy: seq<nat>, counter: nat, draw: nat)
    requires healthy != [] && AreIndices(healthy, |weights|)
    ensures var picked := TakeTurns(weights, healthy, counter, draw);
            && picked in healthy
            && (weights[picked] == 0 <==> AllWeightless(weights, healthy))
            && (AllWeightless(weights, healthy) ==> picked == healthy[counter % |healthy|])
  {
    var candidates := Candidates(weights, healthy);
    NoTotal(candidates);
    if Uniform(weights) || Total(candidates) == 0 {
      assert forall i :: 0 <= i < |healthy| ==> candidates[i].1 == weights[healthy[i]];
      assert Uniform(weights) ==> forall i :: 0 <= i < |healthy| ==> weights[healthy[i]] == weights[0];
    } else {
      var r := draw % Total(candidates);
      PickedAmong(candidates, r);
      var j :| 0 <= j < |candidates| && candidates[j].0 == WeightedPick(candidates, r);
      PickedWithinItsRange(candidates, r, j);
      assert weights[healthy[j]] == candidates[j].1 > 0;
    }
  }

  /** Following the ring picks one of no weight only if all that are healthy have
      none: then none of them is on the ring. */
  lemma RingOfTheWeightless(
    hash: Hash, authorities: seq<string>, weights: seq<nat>, healthy: seq<nat>, key: nat, counter: nat, draw: nat)
    requires |authorities| == |weights| && healthy != [] && AreIndices(healthy, |weights|)
    ensures var picked := FollowRing(Ring(hash, authorities, weights), weights, healthy, key, counter, draw);
            && picked in healthy
            && (weights[picked] == 0 <==> AllWeightless(weights, healthy))
            && (AllWeightless(weights, healthy) ==> picked == healthy[counter % |healthy|])
  {
    var ring := Ring(hash, authorities, weights);
    RingOwners(hash, authorities, weights);
    PickOwner(ring, key, Among(healthy));
    TurnsOfTheWeightless(weights, healthy, counter, draw);
    if Pick(ring, key, Among(healthy)).None? {
      assert forall i :: 0 <= i < |healthy| ==> Among(healthy)(healthy[i]);
    }
  }

  /** Whether `j` goes before `i`, which has some weight: by fewer requests for the
      weight of each, `j` taken for one of weight 1, or by its place. */
  predicate GoesBefore(weights: seq<nat>, inflight: seq<nat>, j: nat, i: nat)
    requires |weights| == |inflight| && i < |weights| && j < |weights|
  {
    var mine, theirs := (inflight[j] + 1) * weights[i], inflight[i] + 1;
    mine < theirs || (mine == theirs && j < i)
  }

  lemma GoesBeforeByScore(weights: seq<nat>, inflight: seq<nat>, j: nat, i: nat)
    requires |weights| == |inflight| && i < |weights| && j < |weights| && weights[j] == 0 < weights[i]
    ensures var mine, theirs := Score(inflight[j], weights[j]), Score(inflight[i], weights[i]);
            GoesBefore(weights, inflight, j, i) <==> mine < theirs || (mine == theirs && j < i)
  {
    CrossMultiplied(inflight[j] + 1, inflight[i] + 1, weights[i]);
  }

  /** `least_request` picks a backend of no weight if and only if one goes before
      every healthy backend of some weight. */
  lemma LeastRequestOfTheWeightless(weights: seq<nat>, inflight: seq<nat>, healthy: seq<nat>, picked: nat)
    requires |weights| == |inflight| && AreIndices(healthy, |weights|)
    requires LeastLoaded(weights, inflight, healthy, picked)
    ensures weights[picked] == 0 <==>
            exists j :: j in healthy && weights[j] == 0
                        && forall i :: i in healthy && weights[i] > 0 ==> GoesBefore(weights, inflight, j, i)
  {
    if weights[picked] == 0 {
      forall i | i in healthy && weights[i] > 0
        ensures GoesBefore(weights, inflight, picked, i)
      {
        GoesBeforeByScore(weights, inflight, picked, i);
      }
    } else {
      forall j | j in healthy && weights[j] == 0
        ensures !GoesBefore(weights, inflight, j, picked)
      {
        GoesBeforeByScore(weights, inflight, j, picked);
      }
    }
  }

  /** So it can while others have weight: the second of two, the first weighing 2
      and having 2 in flight. */
  lemma WeightlessPickedOverWeight()
    ensures LeastLoaded([2, 0], [2, 0], [0, 1], 1)
  {
    CrossMultiplied(1, 3, 2);
  }

  // ---------------------------------------------------------------------------
  // Rounding

  /** Within these bounds rounding neither swaps two scores nor makes two the same:
      `least_request` picks as it would by exact scores. Weights up to 1000 leave
      room for 2^32 requests in flight to each backend. */
  lemma RoundingDecidesNothing(
    weights: seq<nat>, inflight: seq<nat>, healthy: seq<nat>, round: real -> real, picked: nat, bound: nat, most: nat)
    requires |weights| == |inflight| && AreIndices(healthy, |weights|) && Rounds(round)
    requires bound > 0 && 2 * (bound * bound) * most <= TWO_TO_THE_53
    requires forall i :: 0 <= i < |weights| ==> weights[i] <= bound && inflight[i] + 1 <= most
    ensures LeastRounded(weights, inflight, healthy, round, picked) <==> LeastLoaded(weights, inflight, healthy, picked)
    ensures 2 * (1000 * 1000) * TWO_TO_THE_32 <= TWO_TO_THE_53
  {
    forall i, j | i in healthy && j in healthy
      ensures Score(inflight[i], weights[i]) < Score(inflight[j], weights[j]) <==>
              RoundedScore(round, inflight[i], weights[i]) < RoundedScore(round, inflight[j], weights[j])
      ensures Score(inflight[i], weights[i]) <= Score(inflight[j], weights[j]) <==>
              RoundedScore(round, inflight[i], weights[i]) <= RoundedScore(round, inflight[j], weights[j])
    {
      ScoresApart(round, inflight[i], weights[i], inflight[j], weights[j], bound, most);
      ScoresApart(round, inflight[j], weights[j], inflight[i], weights[i], bound, most);
    }
  }

  lemma ScoresApart(round: real -> real, m: nat, w: nat, n: nat, v: nat, bound: nat, most: nat)
    requires Rounds(round) && bound > 0 && 2 * (bound * bound) * most <= TWO_TO_THE_53
    requires w <= bound && v <= bound && m + 1 <= most && n + 1 <= most
    ensures Score(m, w) < Score(n, v) ==> RoundedScore(round, m, w) < RoundedScore(round, n, v)
    ensures Score(m, w) == Score(n, v) ==> RoundedScore(round, m, w) == RoundedScore(round, n, v)
  {
    MostFits(bound, most);
    OneRounding(round, m, w);
    OneRounding(round, n, v);
    if Score(m, w) < Score(n, v) {
      QuotientsApart(round, m + 1, Max(w, 1), n + 1, Max(v, 1), bound, most);
    }
  }

  /** The count is exact, and so only the quotient is rounded. */
  lemma OneRounding(round: real -> real, n: nat, w: nat)
    requires Rounds(round) && n + 1 <= TWO_TO_THE_53
    ensures RoundedScore(round, n, w) == round(Score(n, w))
  {
    assert KeepsWhole(round, n) && KeepsWhole(round, n + 1);
    assert n as real + 1.0 == (n + 1) as real;
  }

  // ---------------------------------------------------------------------------
  // Selections in a row

  /** `picks` are selections in a row under `least_request`, none of them finished
      meanwhile and the healthy staying so. */
  ghost predicate LeastPicks(weights: seq<nat>, inflight: seq<nat>, healthy: seq<nat>, picks: seq<nat>)
    requires |weights| == |inflight| && AreIndices(healthy, |weights|)
    decreases |picks|
  {
    picks == [] || (
      && LeastLoaded(weights, inflight, healthy, picks[0])
      && LeastPicks(weights, Counted(inflight, picks[0]), healthy, picks[1..]))
  }

  function Counted(inflight: seq<nat>, idx: nat): (after: seq<nat>)
    ensures |after| == |inflight|
  {
    if idx < |inflight| then inflight[idx := inflight[idx] + 1] else inflight
  }

  function AllCounted(inflight: seq<nat>, picks: seq<nat>): (after: seq<nat>)
    ensures |after| == |inflight|
    decreases |picks|
  {
    if picks == [] then inflight else AllCounted(Counted(inflight, picks[0]), picks[1..])
  }

  /** `i` has no more requests per unit of weight than any healthy backend would
      have with one more: it is not more than a request ahead of its share. */
  ghost predicate NotAhead(weights: seq<nat>, inflight: seq<nat>, healthy: seq<nat>, i: nat)
    requires |weights| == |inflight| && AreIndices(healthy, |weights|) && i < |weights|
  {
    forall j :: j in healthy ==> inflight[i] as real / Max(weights[i], 1) as real <= Score(inflight[j], weights[j])
  }

  /** Under `least_request`, however uneven the counts were, no backend picked is
      left more than a request ahead of its share; from an idle pool none is. A
      backend of no weight has its share of weight 1: it is in use as soon as
      another that was picked has more requests than it weighs. */
  lemma LeastRequestBalances(weights: seq<nat>, inflight: seq<nat>, healthy: seq<nat>, picks: seq<nat>)
    requires |weights| == |inflight| && AreIndices(healthy, |weights|) && LeastPicks(weights, inflight, healthy, picks)
    ensures var after := AllCounted(inflight, picks);
            && (forall i :: i in picks ==> i < |weights| && NotAhead(weights, after, healthy, i))
            && ((forall i :: i in healthy ==> inflight[i] == 0) ==>
                  forall i :: i in healthy ==> NotAhead(weights, after, healthy, i))
            && forall i, j :: i in picks && j in healthy && weights[j] == 0 && after[i] > Max(weights[i], 1) ==>
                 after[j] > 0
  {
    PicksBalance(weights, inflight, healthy, picks, {});
    if forall i :: i in healthy ==> inflight[i] == 0 {
      PicksBalance(weights, inflight, healthy, picks, set i | i in healthy);
    }
    var after := AllCounted(inflight, picks);
    forall i, j | i in picks && j in healthy && weights[j] == 0 && after[i] > Max(weights[i], 1)
      ensures after[j] > 0
    {
      InUse(weights, after, healthy, i, j);
    }
  }

  lemma InUse(weights: seq<nat>, inflight: seq<nat>, healthy: seq<nat>, i: nat, j: nat)
    requires |weights| == |inflight| && AreIndices(healthy, |weights|) && i < |weights| && j in healthy
    requires NotAhead(weights, inflight, healthy, i) && weights[j] == 0 && inflight[i] > Max(weights[i], 1)
    ensures inflight[j] > 0
  {
    OverItsWeight(inflight[i], Max(weights[i], 1));
  }

  lemma {:induction false} PicksBalance(
    weights: seq<nat>, inflight: seq<nat>, healthy: seq<nat>, picks: seq<nat>, even: set<nat>)
    requires |weights| == |inflight| && AreIndices(healthy, |weights|) && LeastPicks(weights, inflight, healthy, picks)
    requires forall i :: i in even ==> i < |weights| && NotAhead(weights, inflight, healthy, i)
    ensures forall i :: i in even || i in picks ==>
              i < |weights| && NotAhead(weights, AllCounted(inflight, picks), healthy, i)
    decreases |picks|
  {
    if picks != [] {
      PickBalances(weights, inflight, healthy, picks[0], even);
      PicksBalance(weights, Counted(inflight, picks[0]), healthy, picks[1..], even + {picks[0]});
      assert forall i :: i in picks <==> i == picks[0] || i in picks[1..];
    }
  }

  lemma OverItsWeight(n: nat, w: nat)
    requires n > w > 0
    ensures n as real / w as real > 1.0
  {
  }

  lemma PickBalances(weights: seq<nat>, inflight: seq<nat>, healthy: seq<nat>, picked: nat, even: set<nat>)
    requires |weights| == |inflight| && AreIndices(healthy, |weights|)
    requires LeastLoaded(weights, inflight, healthy, picked)
    requires forall i :: i in even ==> i < |weights| && NotAhead(weights, inflight, healthy, i)
    ensures forall i :: i in even + {picked} ==>
              i < |weights| && NotAhead(weights, Counted(inflight, picked), healthy, i)
  {
    var after := Counted(inflight, picked);
    assert picked < |weights|;
    MoreScoresMore(inflight[picked], Max(weights[picked], 1));
    forall i | i in even + {picked}
      ensures NotAhead(weights, after, healthy, i)
    {
      assert i != picked ==> NotAhead(weights, inflight, healthy, i);
      assert forall j :: j in healthy ==> Score(inflight[picked], weights[picked]) <= Score(inflight[j], weights[j]);
    }
  }

  lemma MoreScoresMore(n: nat, w: nat)
    requires w > 0
    ensures n as real / w as real <= (n + 1) as real / w as real <= (n + 2) as real / w as real
  {
  }

  /** The backends that turns taken in a row pick, the healthy staying so: one for
      each draw, which none of them asks for. */
  function PicksInTurn(weights: seq<nat>, healthy: seq<nat>, counter: nat, draws: seq<nat>): seq<nat>
    requires healthy != [] && forall i :: 0 <= i < |healthy| ==> healthy[i] < |weights|
  {
    if draws == [] then []
    else
      var before := |draws| - 1;
      PicksInTurn(weights, healthy, counter, draws[..before])
      + [TakeTurns(weights, healthy, Advance(counter, before, TWO_TO_THE_64), draws[before])]
  }

  /** Of equal backends, or weightless ones, turns in a row pick each as often as
      the counter says, so evenly until it wraps. */
  lemma {:induction false} TurnsInARowAreEven(
    weights: seq<nat>, healthy: seq<nat>, counter: nat, draws: seq<nat>, j: nat)
    requires healthy != [] && AreIndices(healthy, |weights|) && InTurn(weights, healthy) && j < |healthy|
    ensures var n, k, picked := |healthy|, |draws|, CountIn(PicksInTurn(weights, healthy, counter, draws), healthy[j]);
            && picked == Shares.Turns(counter, k, n, j, TWO_TO_THE_64)
            && (counter + k <= TWO_TO_THE_64 ==> k / n <= picked <= (k + n - 1) / n)
    decreases |draws|
  {
    if draws != [] {
      var before := |draws| - 1;
      var picks := PicksInTurn(weights, healthy, counter, draws);
      TurnsInARowAreEven(weights, healthy, counter, draws[..before], j);
      assert picks[..|picks| - 1] == PicksInTurn(weights, healthy, counter, draws[..before]);
    }
    if counter + |draws| <= TWO_TO_THE_64 {
      EvenWithoutWrap(counter, |draws|, |healthy|, TWO_TO_THE_64);
    }
  }
}

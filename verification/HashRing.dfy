/** The consistent-hash ring: how it is built, how a key is looked up on it,
    and how little a backend's going changes. */
module HashRing {
  import opened Prelude
  import opened StableSort

  const RING_REPLICAS: nat := 160

  /** The hash of an authority and a replica number, whatever it is. */
  type Hash = (string, nat) -> nat

  /** A point of the ring, and the index of the backend it belongs to. */
  type Point = (nat, nat)

  function ByHash(): Point -> int {
    (p: Point) => p.0
  }

  function WeightAt(weights: seq<nat>, idx: nat): nat {
    if idx < |weights| then weights[idx] else 1
  }

  function Replicas(hash: Hash, authority: string, idx: nat, n: nat): seq<Point> {
    seq(n, (replica: nat) => (hash(authority, replica), idx))
  }

  /** The points of the backends from `from` on, in the order they are pushed. */
  function PointsFrom(hash: Hash, authorities: seq<string>, weights: seq<nat>, from: nat): seq<Point>
    requires from <= |authorities|
    decreases |authorities| - from
  {
    if from == |authorities| then []
    else
      Replicas(hash, authorities[from], from, RING_REPLICAS * WeightAt(weights, from))
      + PointsFrom(hash, authorities, weights, from + 1)
  }

  function Ring(hash: Hash, authorities: seq<string>, weights: seq<nat>): seq<Point> {
    Sort(PointsFrom(hash, authorities, weights, 0), ByHash())
  }

  method PushReplicas(hash: Hash, authority: string, idx: nat, n: nat, ring: seq<Point>) returns (after: seq<Point>)
    ensures after == ring + Replicas(hash, authority, idx, n)
  {
    after := ring;
    for replica := 0 to n
      invariant after == ring + Replicas(hash, authority, idx, replica)
    {
      after := after + [(hash(authority, replica), idx)];
    }
  }

  method BuildRing(hash: Hash, authorities: seq<string>, weights: seq<nat>) returns (ring: seq<Point>)
    ensures ring == Ring(hash, authorities, weights)
    ensures Sorted(ring, ByHash())
  {
    ring := [];
    for idx := 0 to |authorities|
      invariant ring + PointsFrom(hash, authorities, weights, idx) == PointsFrom(hash, authorities, weights, 0)
    {
      var weight := if idx < |weights| then weights[idx] else 1;
      ghost var here := Replicas(hash, authorities[idx], idx, RING_REPLICAS * weight);
      ConcatAssoc(ring, here, PointsFrom(hash, authorities, weights, idx + 1));
      ring := PushReplicas(hash, authorities[idx], idx, RING_REPLICAS * weight, ring);
    }
    assert ring == PointsFrom(hash, authorities, weights, 0);
    ring := Sort(ring, ByHash());
    SortContents(PointsFrom(hash, authorities, weights, 0), ByHash());
  }

  /** How many points of a sorted ring are below `key`: what `partition_point`
      finds. */
  method PartitionPoint(ring: seq<Point>, key: nat) returns (start: nat)
    requires Sorted(ring, ByHash())
    ensures start <= |ring|
    ensures forall i :: 0 <= i < start ==> ring[i].0 < key
    ensures forall i :: start <= i < |ring| ==> key <= ring[i].0
  {
    var low, high := 0, |ring|;
    while low < high
      invariant 0 <= low <= high <= |ring|
      invariant forall i :: 0 <= i < low ==> ring[i].0 < key
      invariant forall i :: high <= i < |ring| ==> key <= ring[i].0
    {
      var mid := (low + high) / 2;
      assert forall i :: 0 <= i < |ring| ==> ByHash()(ring[i]) == ring[i].0;
      if ring[mid].0 < key {
        low := mid + 1;
      } else {
        high := mid;
      }
    }
    start := low;
  }

  function Before(key: nat): Point -> bool {
    (p: Point) => p.0 < key
  }

  function AtOrAfter(key: nat): Point -> bool {
    (p: Point) => p.0 >= key
  }

  /** The backend of the first point of a healthy one. */
  function FirstHealthy(points: seq<Point>, healthy: nat -> bool): Option<nat> {
    if points == [] then None
    else if healthy(points[0].1) then Some(points[0].1)
    else FirstHealthy(points[1..], healthy)
  }

  /** The backend of the first healthy point met going round the ring from
      `key`: those at or after it in order, then those before it. */
  function Pick(ring: seq<Point>, key: nat, healthy: nat -> bool): Option<nat> {
    FirstHealthy(Filter(ring, AtOrAfter(key)) + Filter(ring, Before(key)), healthy)
  }

  lemma {:induction false} FilterSplit(ring: seq<Point>, key: nat, start: nat)
    requires start <= |ring|
    requires forall i :: 0 <= i < start ==> ring[i].0 < key
    requires forall i :: start <= i < |ring| ==> key <= ring[i].0
    ensures Filter(ring, Before(key)) == ring[..start]
    ensures Filter(ring, AtOrAfter(key)) == ring[start..]
    decreases |ring|
  {
    if ring != [] {
      if start == 0 {
        FilterSplit(ring[1..], key, 0);
      } else {
        FilterSplit(ring[1..], key, start - 1);
        assert ring[1..][..start - 1] == ring[..start][1..];
      }
    }
  }

  lemma {:induction false} FirstHealthySkips(points: seq<Point>, k: nat, healthy: nat -> bool)
    requires k <= |points| && forall i :: 0 <= i < k ==> !healthy(points[i].1)
    ensures FirstHealthy(points, healthy) == FirstHealthy(points[k..], healthy)
  {
    if k > 0 {
      FirstHealthySkips(points[1..], k - 1, healthy);
      assert points[1..][k - 1..] == points[k..];
    }
  }

  /** `ring_pick`: the walk by index, wrapping past the last point. */
  method RingPick(ring: seq<Point>, key: nat, healthy: nat -> bool) returns (picked: Option<nat>)
    requires Sorted(ring, ByHash())
    ensures picked == Pick(ring, key, healthy)
  {
    if ring == [] {
      return None;
    }
    var start := PartitionPoint(ring, key);
    ghost var walk := ring[start..] + ring[..start];
    FilterSplit(ring, key, start);
    for off := 0 to |ring|
      invariant forall i :: 0 <= i < off ==> !healthy(walk[i].1)
    {
      Wrap(start, off, |ring|);
      var at := (start + off) % |ring|;
      assert walk[off] == ring[at];
      if healthy(ring[at].1) {
        FirstHealthySkips(walk, off, healthy);
        return Some(ring[at].1);
      }
    }
    FirstHealthySkips(walk, |ring|, healthy);
    picked := None;
  }

  lemma Wrap(start: nat, off: nat, n: nat)
    requires start <= n && off < n
    ensures (start + off) % n == if start + off < n then start + off else start + off - n
  {
    if start + off >= n {
      assert (start + off) % n == (start + off - n) % n by {
        assert start + off == n + (start + off - n);
      }
    }
  }

  // ---------------------------------------------------------------------------
  // What a pick is

  /** `i` is where the walk from `key` meets its first healthy point: no healthy
      point lies between `key` and it, going round. */
  ghost predicate MetFirst(ring: seq<Point>, key: nat, healthy: nat -> bool, i: nat) {
    && i < |ring| && healthy(ring[i].1)
    && forall j :: 0 <= j < |ring| && healthy(ring[j].1) ==>
         if (ring[i].0 >= key) == (ring[j].0 >= key) then ring[i].0 <= ring[j].0 else ring[i].0 >= key
  }

  /** A pick is the owner of the first healthy point cyclically at or after the
      key, and there is none only if no point is healthy. */
  lemma PickMeetsFirst(ring: seq<Point>, key: nat, healthy: nat -> bool) returns (i: nat)
    requires Sorted(ring, ByHash())
    ensures Pick(ring, key, healthy).None? <==> forall j :: 0 <= j < |ring| ==> !healthy(ring[j].1)
    ensures Pick(ring, key, healthy).Some? ==>
              MetFirst(ring, key, healthy, i) && Pick(ring, key, healthy) == Some(ring[i].1)
  {
    var start := CountBefore(ring, key);
    FilterSplit(ring, key, start);
    i := FirstAround(ring, start, healthy);
    if Pick(ring, key, healthy).Some? {
      FirstOnTheWalk(ring, key, healthy, start, i);
    }
  }

  /** Where the point at `j` comes on the walk round the ring from `start`. */
  function Place(n: nat, start: nat, j: nat): nat
    requires start <= n && j < n
  {
    if j >= start then j - start else j + n - start
  }

  lemma OnTheWalk(ring: seq<Point>, start: nat, j: nat)
    requires start <= |ring| && j < |ring|
    ensures (ring[start..] + ring[..start])[Place(|ring|, start, j)] == ring[j]
  {
  }

  lemma FirstAround(ring: seq<Point>, start: nat, healthy: nat -> bool) returns (i: nat)
    requires start <= |ring|
    ensures var first := FirstHealthy(ring[start..] + ring[..start], healthy);
            && (first.None? ==> forall j :: 0 <= j < |ring| ==> !healthy(ring[j].1))
            && (first.Some? ==>
                  && i < |ring| && healthy(ring[i].1) && first.value == ring[i].1
                  && forall j :: 0 <= j < |ring| && healthy(ring[j].1) ==>
                       Place(|ring|, start, i) <= Place(|ring|, start, j))
  {
    var walk := ring[start..] + ring[..start];
    var k := FirstHealthyIndex(walk, healthy);
    forall j | 0 <= j < |ring|
      ensures walk[Place(|ring|, start, j)] == ring[j]
    {
      OnTheWalk(ring, start, j);
    }
    i := 0;
    if k < |walk| {
      i := if k < |ring| - start then k + start else k + start - |ring|;
      assert Place(|ring|, start, i) == k;
    }
  }

  lemma FirstOnTheWalk(ring: seq<Point>, key: nat, healthy: nat -> bool, start: nat, i: nat)
    requires Sorted(ring, ByHash()) && start <= |ring| && i < |ring| && healthy(ring[i].1)
    requires forall j :: 0 <= j < start ==> ring[j].0 < key
    requires forall j :: start <= j < |ring| ==> key <= ring[j].0
    requires forall j :: 0 <= j < |ring| && healthy(ring[j].1) ==> Place(|ring|, start, i) <= Place(|ring|, start, j)
    ensures MetFirst(ring, key, healthy, i)
  {
    forall j | 0 <= j < |ring| && healthy(ring[j].1)
      ensures if (ring[i].0 >= key) == (ring[j].0 >= key) then ring[i].0 <= ring[j].0 else ring[i].0 >= key
    {
      assert ByHash()(ring[i]) == ring[i].0 && ByHash()(ring[j]) == ring[j].0;
    }
  }

  lemma CountBefore(ring: seq<Point>, key: nat) returns (start: nat)
    requires Sorted(ring, ByHash())
    ensures start <= |ring|
    ensures forall i :: 0 <= i < start ==> ring[i].0 < key
    ensures forall i :: start <= i < |ring| ==> key <= ring[i].0
  {
    start := 0;
    while start < |ring| && ring[start].0 < key
      invariant start <= |ring| && forall j :: 0 <= j < start ==> ring[j].0 < key
    {
      start := start + 1;
    }
    assert forall i :: 0 <= i < |ring| ==> ByHash()(ring[i]) == ring[i].0;
  }

  lemma FirstHealthyIndex(points: seq<Point>, healthy: nat -> bool) returns (k: nat)
    ensures k <= |points| && forall j :: 0 <= j < k ==> !healthy(points[j].1)
    ensures k < |points| ==> healthy(points[k].1)
    ensures FirstHealthy(points, healthy) == if k < |points| then Some(points[k].1) else None
  {
    k := 0;
    while k < |points| && !healthy(points[k].1)
      invariant k <= |points| && forall j :: 0 <= j < k ==> !healthy(points[j].1)
    {
      k := k + 1;
    }
    FirstHealthySkips(points, k, healthy);
  }

  function Without(healthy: nat -> bool, b: nat): nat -> bool {
    (i: nat) => i != b && healthy(i)
  }

  /** A backend turning unhealthy moves only the keys it had. */
  lemma UnhealthyMovesOnlyItsKeys(ring: seq<Point>, key: nat, healthy: nat -> bool, b: nat)
    requires Pick(ring, key, healthy) != Some(b)
    ensures Pick(ring, key, Without(healthy, b)) == Pick(ring, key, healthy)
  {
    WithoutKeepsFirst(Filter(ring, AtOrAfter(key)) + Filter(ring, Before(key)), healthy, b);
  }

  lemma {:induction false} WithoutKeepsFirst(points: seq<Point>, healthy: nat -> bool, b: nat)
    requires FirstHealthy(points, healthy) != Some(b)
    ensures FirstHealthy(points, Without(healthy, b)) == FirstHealthy(points, healthy)
  {
    if points != [] && !healthy(points[0].1) {
      WithoutKeepsFirst(points[1..], healthy, b);
    }
  }

  // ---------------------------------------------------------------------------
  // Building the ring without a backend

  function RemoveAt<T>(s: seq<T>, b: nat): seq<T> {
    if b < |s| then s[..b] + s[b + 1..] else s
  }

  /** The index, once backend `b` is gone, of the backend that was at `i`. */
  function Shift(b: nat, i: nat): nat {
    if i > b then i - 1 else i
  }

  /** The index a backend had before `b` went. */
  function Unshift(b: nat, i: nat): nat {
    if i >= b then i + 1 else i
  }

  function Renumbered(healthy: nat -> bool, b: nat): nat -> bool {
    (i: nat) => healthy(Unshift(b, i))
  }

  function NotOf(b: nat): Point -> bool {
    (p: Point) => p.1 != b
  }

  function Renumber(b: nat): Point -> Point {
    (p: Point) => (p.0, Shift(b, p.1))
  }

  function Map<A, B>(s: seq<A>, f: A -> B): seq<B> {
    if s == [] then [] else [f(s[0])] + Map(s[1..], f)
  }

  lemma {:induction false} MapAppend<A, B>(s: seq<A>, t: seq<A>, f: A -> B)
    ensures Map(s + t, f) == Map(s, f) + Map(t, f)
  {
    if s == [] {
      assert s + t == t;
    } else {
      assert (s + t)[1..] == s[1..] + t;
      MapAppend(s[1..], t, f);
    }
  }

  lemma {:induction false} FilterAppend<T>(s: seq<T>, t: seq<T>, p: T -> bool)
    ensures Filter(s + t, p) == Filter(s, p) + Filter(t, p)
  {
    if s == [] {
      assert s + t == t;
    } else {
      assert (s + t)[1..] == s[1..] + t;
      FilterAppend(s[1..], t, p);
    }
  }

  lemma {:induction false} MapInsert<A, B>(x: A, s: seq<A>, f: A -> B, key: A -> int, keyOf: B -> int)
    requires forall a :: keyOf(f(a)) == key(a)
    ensures Map(Insert(x, s, key), f) == Insert(f(x), Map(s, f), keyOf)
  {
    if s == [] || key(x) <= key(s[0]) {
      assert ([x] + s)[1..] == s;
    } else {
      MapInsert(x, s[1..], f, key, keyOf);
      assert ([s[0]] + Insert(x, s[1..], key))[1..] == Insert(x, s[1..], key);
      assert Map(s, f)[1..] == Map(s[1..], f);
    }
  }

  lemma {:induction false} MapSort<A, B>(s: seq<A>, f: A -> B, key: A -> int, keyOf: B -> int)
    requires forall a :: keyOf(f(a)) == key(a)
    ensures Map(Sort(s, key), f) == Sort(Map(s, f), keyOf)
  {
    if s != [] {
      MapSort(s[1..], f, key, keyOf);
      MapInsert(s[0], Sort(s[1..], key), f, key, keyOf);
      assert Map(s, f)[1..] == Map(s[1..], f);
    }
  }

  lemma {:induction false} FilterReplicas(hash: Hash, authority: string, idx: nat, n: nat, b: nat)
    ensures Map(Filter(Replicas(hash, authority, idx, n), NotOf(b)), Renumber(b)) ==
            if idx == b then [] else Replicas(hash, authority, Shift(b, idx), n)
    decreases n
  {
    if n > 0 {
      FilterReplicas(hash, authority, idx, n - 1, b);
      var last: Point := (hash(authority, n - 1), idx);
      assert Replicas(hash, authority, idx, n) == Replicas(hash, authority, idx, n - 1) + [last];
      FilterAppend(Replicas(hash, authority, idx, n - 1), [last], NotOf(b));
      var kept := Filter([last], NotOf(b));
      assert [last][1..] == [];
      MapAppend(Filter(Replicas(hash, authority, idx, n - 1), NotOf(b)), kept, Renumber(b));
      if idx != b {
        assert kept == [last] && Map([last], Renumber(b)) == [Renumber(b)(last)];
      }
    }
  }

  lemma KeptAt(authorities: seq<string>, weights: seq<nat>, b: nat, i: nat)
    requires b < |authorities| && i < |authorities| && i != b
    ensures Shift(b, i) < |RemoveAt(authorities, b)| && RemoveAt(authorities, b)[Shift(b, i)] == authorities[i]
    ensures WeightAt(RemoveAt(weights, b), Shift(b, i)) == WeightAt(weights, i)
  {
  }

  lemma {:induction false} PointsWithout(hash: Hash, authorities: seq<string>, weights: seq<nat>, b: nat, from: nat)
    requires b < |authorities| && from <= |authorities|
    ensures Map(Filter(PointsFrom(hash, authorities, weights, from), NotOf(b)), Renumber(b)) ==
            PointsFrom(hash, RemoveAt(authorities, b), RemoveAt(weights, b), if from > b then from - 1 else from)
    decreases |authorities| - from
  {
    var fewer, lighter := RemoveAt(authorities, b), RemoveAt(weights, b);
    if from < |authorities| {
      var n := RING_REPLICAS * WeightAt(weights, from);
      var here := Replicas(hash, authorities[from], from, n);
      var rest := PointsFrom(hash, authorities, weights, from + 1);
      PointsWithout(hash, authorities, weights, b, from + 1);
      FilterReplicas(hash, authorities[from], from, n, b);
      FilterAppend(here, rest, NotOf(b));
      MapAppend(Filter(here, NotOf(b)), Filter(rest, NotOf(b)), Renumber(b));
      if from != b {
        KeptAt(authorities, weights, b, from);
        assert PointsFrom(hash, fewer, lighter, Shift(b, from)) ==
               Replicas(hash, authorities[from], Shift(b, from), n)
               + PointsFrom(hash, fewer, lighter, Shift(b, from) + 1);
      }
    }
  }

  /** Leaving a backend out of the ring leaves its points out, and moves no
      other, where the hashes of several points are the same included. */
  lemma RingWithout(hash: Hash, authorities: seq<string>, weights: seq<nat>, b: nat)
    requires b < |authorities|
    ensures Ring(hash, RemoveAt(authorities, b), RemoveAt(weights, b)) ==
            Map(Filter(Ring(hash, authorities, weights), NotOf(b)), Renumber(b))
  {
    var points := PointsFrom(hash, authorities, weights, 0);
    FilterSort(points, NotOf(b), ByHash());
    MapSort(Filter(points, NotOf(b)), Renumber(b), ByHash(), ByHash());
    PointsWithout(hash, authorities, weights, b, 0);
  }

  lemma {:induction false} FilterMap(ring: seq<Point>, b: nat, p: Point -> bool)
    requires forall q :: p(Renumber(b)(q)) == p(q)
    ensures Filter(Map(Filter(ring, NotOf(b)), Renumber(b)), p) == Map(Filter(Filter(ring, p), NotOf(b)), Renumber(b))
  {
    if ring != [] {
      FilterMap(ring[1..], b, p);
      var head, tail := ring[0], Map(Filter(ring[1..], NotOf(b)), Renumber(b));
      if NotOf(b)(head) {
        assert Filter(ring, NotOf(b))[1..] == Filter(ring[1..], NotOf(b));
        assert ([Renumber(b)(head)] + tail)[1..] == tail;
      }
      if p(head) {
        assert ([head] + Filter(ring[1..], p))[1..] == Filter(ring[1..], p);
        if NotOf(b)(head) {
          var kept := Filter(Filter(ring[1..], p), NotOf(b));
          assert ([head] + kept)[1..] == kept;
        }
      }
    }
  }

  lemma {:induction false} FirstHealthyWithout(points: seq<Point>, healthy: nat -> bool, b: nat)
    ensures FirstHealthy(points, Without(healthy, b)) ==
            var first := FirstHealthy(Map(Filter(points, NotOf(b)), Renumber(b)), Renumbered(healthy, b));
            if first.None? then None else Some(Unshift(b, first.value))
  {
    if points != [] {
      FirstHealthyWithout(points[1..], healthy, b);
      var owner := points[0].1;
      assert Without(healthy, b)(owner) == (owner != b && healthy(owner));
      if NotOf(b)(points[0]) {
        assert Unshift(b, Shift(b, owner)) == owner;
        assert Renumbered(healthy, b)(Shift(b, owner)) == healthy(owner);
        var kept := Filter(points[1..], NotOf(b));
        assert Filter(points, NotOf(b))[1..] == kept;
        var renumbered := Map(Filter(points, NotOf(b)), Renumber(b));
        assert renumbered[0] == Renumber(b)(points[0]) && renumbered[1..] == Map(kept, Renumber(b));
      }
    }
  }

  /** Minimal disruption. Whatever the hash function, a ring built without
      backend `b` picks for every key the backend the full ring picks with `b`
      unhealthy: only the keys `b` had move, and to where they already went
      when it was down. */
  lemma RemovedIsUnhealthy(
    hash: Hash, authorities: seq<string>, weights: seq<nat>, b: nat, key: nat, healthy: nat -> bool)
    requires b < |authorities|
    ensures var ring := Ring(hash, RemoveAt(authorities, b), RemoveAt(weights, b));
            var without := Pick(ring, key, Renumbered(healthy, b));
            Pick(Ring(hash, authorities, weights), key, Without(healthy, b)) ==
            if without.None? then None else Some(Unshift(b, without.value))
  {
    var ring := Ring(hash, authorities, weights);
    RingWithout(hash, authorities, weights, b);
    FilterMap(ring, b, AtOrAfter(key));
    FilterMap(ring, b, Before(key));
    var after, before := Filter(ring, AtOrAfter(key)), Filter(ring, Before(key));
    FilterAppend(after, before, NotOf(b));
    MapAppend(Filter(after, NotOf(b)), Filter(before, NotOf(b)), Renumber(b));
    FirstHealthyWithout(after + before, healthy, b);
  }

  /** So a key whose backend stays keeps it when another backend is taken out,
      and, read the other way, a backend put in takes keys only for itself. */
  lemma RemovalMovesOnlyItsKeys(
    hash: Hash, authorities: seq<string>, weights: seq<nat>, b: nat, key: nat, healthy: nat -> bool, owner: nat)
    requires b < |authorities| && owner != b
    requires Pick(Ring(hash, authorities, weights), key, healthy) == Some(owner)
    ensures Pick(Ring(hash, RemoveAt(authorities, b), RemoveAt(weights, b)), key, Renumbered(healthy, b))
            == Some(Shift(b, owner))
  {
    UnhealthyMovesOnlyItsKeys(Ring(hash, authorities, weights), key, healthy, b);
    RemovedIsUnhealthy(hash, authorities, weights, b, key, healthy);
  }
}

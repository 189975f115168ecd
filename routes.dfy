/** The cache of remote routes (`VeilidDuplexRoutes`): for each remote DHT
    record key, the target to send to and the private-route id it came from. */
module Routes {
  import opened Types

  /** One cached remote route: the send target and the route id it was imported as. */
  datatype RouteEntry = RouteEntry(target: Target, route: CryptoKey)

  /** The `routes` HashMap, keyed by the remote DHT record key. */
  type RouteMap = map<CryptoKey, RouteEntry>

  /** What one `get_route` call produces: its result, the cache afterwards,
      and whether it had to look the route up in the DHT. */
  datatype RouteLookup = RouteLookup(result: Result<Target>, routes: RouteMap, lookedUp: bool)

  /** `get_route` on the value of the cache. `lookup` is the answer the DHT
      would give for `key`; it is consulted only when `key` is not cached. */
  function LazyRoute(m: RouteMap, key: CryptoKey, lookup: Result<RouteEntry>): (r: RouteLookup)
    // the DHT is consulted exactly when the key is not cached
    ensures r.lookedUp <==> key !in m
    // only a failed lookup of an uncached key is an error, and it is passed on
    ensures r.result.Err? <==> key !in m && lookup.Err?
    ensures r.result.Err? ==> r.result.error == lookup.error
    // the target returned is the one the cache now holds for the key
    ensures r.result.Ok? ==> key in r.routes && r.result.value == r.routes[key].target
    // cached entries are never overwritten or dropped
    ensures forall k :: k in m ==> k in r.routes && r.routes[k] == m[k]
    // at most the requested key is added, and only on success
    ensures r.routes.Keys == if r.result.Ok? then m.Keys + {key} else m.Keys
    ensures key !in m && lookup.Ok? ==> r.routes[key] == lookup.value
  {
    if key in m then
      RouteLookup(Ok(m[key].target), m, false)
    else if lookup.Err? then
      RouteLookup(Err(lookup.error), m, true)
    else
      var m' := m[key := lookup.value];
      RouteLookup(Ok(m'[key].target), m', true)
  }

  /** Once `get_route` has succeeded for a key, a second call for it does no
      lookup, whatever the DHT would answer, and changes nothing. */
  lemma LazyRouteIdempotent(m: RouteMap, key: CryptoKey, lookup: Result<RouteEntry>, later: Result<RouteEntry>)
    requires LazyRoute(m, key, lookup).result.Ok?
    ensures var first := LazyRoute(m, key, lookup);
            LazyRoute(first.routes, key, later) == RouteLookup(first.result, first.routes, false)
  {
  }

  /** Some cached entry was imported from route `dead`. */
  ghost predicate HasRoute(m: RouteMap, dead: CryptoKey)
  {
    exists k :: k in m && m[k].route == dead
  }

  /** `remove_route_if_exists(dead)` took `before` to `after`: when some entry
      carries route `dead`, one such entry (whichever the map's iteration
      order finds first) is gone; otherwise the map is unchanged. */
  ghost predicate RemovedIfExists(before: RouteMap, after: RouteMap, dead: CryptoKey)
  {
    if HasRoute(before, dead) then
      exists k :: k in before && before[k].route == dead && after == before - {k}
    else
      after == before
  }

  /** Every entry of `small` is an entry of `big`. */
  ghost predicate SubMap(small: RouteMap, big: RouteMap)
  {
    forall k :: k in small ==> k in big && small[k] == big[k]
  }

  /** At most one entry goes, it carries the dead route, everything else stays. */
  lemma RemovedIfExistsFacts(before: RouteMap, after: RouteMap, dead: CryptoKey)
    requires RemovedIfExists(before, after, dead)
    ensures SubMap(after, before)
    ensures forall k :: k in before && k !in after ==> before[k].route == dead
    ensures |after| == if HasRoute(before, dead) then |before| - 1 else |before|
  {
    if HasRoute(before, dead) {
      var k :| k in before && before[k].route == dead && after == before - {k};
      assert after.Keys == before.Keys - {k};
    }
  }

  /** The dead-remote-route loop of a route change took `before` to `after`:
      `remove_route_if_exists` once for each route of `deads`, in order. */
  ghost predicate PrunedAll(before: RouteMap, after: RouteMap, deads: seq<CryptoKey>)
    decreases |deads|
  {
    if deads == [] then
      after == before
    else
      exists mid :: RemovedIfExists(before, mid, deads[0]) && PrunedAll(mid, after, deads[1..])
  }

  /** One more removal extends a pruning run by one route. */
  lemma {:induction false} PrunedAllSnoc(a: RouteMap, b: RouteMap, c: RouteMap, deads: seq<CryptoKey>, d: CryptoKey)
    requires PrunedAll(a, b, deads)
    requires RemovedIfExists(b, c, d)
    ensures PrunedAll(a, c, deads + [d])
    decreases |deads|
  {
    if deads == [] {
      assert (deads + [d])[1..] == [];
      assert RemovedIfExists(a, c, (deads + [d])[0]) && PrunedAll(c, c, (deads + [d])[1..]);
    } else {
      var mid: RouteMap :| RemovedIfExists(a, mid, deads[0]) && PrunedAll(mid, b, deads[1..]);
      PrunedAllSnoc(mid, b, c, deads[1..], d);
      assert (deads + [d])[1..] == deads[1..] + [d];
      assert RemovedIfExists(a, mid, (deads + [d])[0]) && PrunedAll(mid, c, (deads + [d])[1..]);
    }
  }

  /** Pruning only removes entries, removes at most one per dead route, and
      removes only entries whose route is listed as dead. */
  lemma {:induction false} PrunedAllShrinks(before: RouteMap, after: RouteMap, deads: seq<CryptoKey>)
    requires PrunedAll(before, after, deads)
    ensures SubMap(after, before)
    ensures |before| - |deads| <= |after| <= |before|
    ensures forall k :: k in before && k !in after ==> before[k].route in deads
    decreases |deads|
  {
    if deads != [] {
      var mid: RouteMap :| RemovedIfExists(before, mid, deads[0]) && PrunedAll(mid, after, deads[1..]);
      RemovedIfExistsFacts(before, mid, deads[0]);
      PrunedAllShrinks(mid, after, deads[1..]);
      forall k | k in before && k !in after
        ensures before[k].route in deads
      {
        if k in mid {
          assert mid[k].route in deads[1..];
        }
      }
    }
  }

  /** No two cached entries carry the same route id. */
  ghost predicate DistinctRoutes(m: RouteMap)
  {
    forall k, k' :: k in m && k' in m && k != k' ==> m[k].route != m[k'].route
  }

  /** With distinct route ids, one removal clears the dead route completely. */
  lemma RemovedIfExistsClears(before: RouteMap, after: RouteMap, dead: CryptoKey)
    requires DistinctRoutes(before)
    requires RemovedIfExists(before, after, dead)
    ensures DistinctRoutes(after)
    ensures !HasRoute(after, dead)
  {
    if HasRoute(before, dead) {
      var gone :| gone in before && before[gone].route == dead && after == before - {gone};
      forall k | k in after
        ensures after[k].route != dead
      {
        assert k != gone && after[k] == before[k];
      }
    }
  }

  /** When every route id is cached at most once, pruning leaves no entry
      whose route is listed as dead. */
  lemma {:induction false} PrunedAllClearsDeadRoutes(before: RouteMap, after: RouteMap, deads: seq<CryptoKey>)
    requires DistinctRoutes(before)
    requires PrunedAll(before, after, deads)
    ensures forall k :: k in after ==> after[k].route !in deads
    decreases |deads|
  {
    if deads != [] {
      var mid: RouteMap :| RemovedIfExists(before, mid, deads[0]) && PrunedAll(mid, after, deads[1..]);
      RemovedIfExistsClears(before, mid, deads[0]);
      PrunedAllClearsDeadRoutes(mid, after, deads[1..]);
      PrunedAllShrinks(mid, after, deads[1..]);
      forall k | k in after
        ensures after[k].route !in deads
      {
        assert k in mid && after[k] == mid[k];
        assert after[k].route != deads[0];
        assert deads == [deads[0]] + deads[1..];
      }
    }
  }

  /** When two cached entries share a dead route, one removal leaves the other behind. */
  lemma SharedDeadRouteSurvives(t: Target, after: RouteMap)
    requires RemovedIfExists(map[1 := RouteEntry(t, 7), 2 := RouteEntry(t, 7)], after, 7)
    ensures |after| == 1 && HasRoute(after, 7)
  {
    var before := map[1 := RouteEntry(t, 7), 2 := RouteEntry(t, 7)];
    assert before[1].route == 7;
    var k :| k in before && before[k].route == 7 && after == before - {k};
    if k == 1 {
      assert after == map[2 := RouteEntry(t, 7)];
      assert after[2].route == 7;
    } else {
      assert after == map[1 := RouteEntry(t, 7)];
      assert after[1].route == 7;
    }
  }

  /** `VeilidDuplexRoutes`: the cache object shared by sending and the network loop. */
  class VeilidDuplexRoutes {
    var routes: RouteMap

    /** The empty cache `VeilidDuplex::new` creates. */
    constructor ()
      ensures routes == map[]
    {
      routes := map[];
    }

    /** Returns the target for `key`, filling the cache from the DHT on a miss.
        `lookedUp` says whether the DHT was consulted. */
    method GetRoute(key: CryptoKey, lookup: Result<RouteEntry>) returns (r: Result<Target>, lookedUp: bool)
      modifies this
      ensures RouteLookup(r, routes, lookedUp) == LazyRoute(old(routes), key, lookup)
    {
      lookedUp := key !in routes;
      if lookedUp {
        if lookup.Err? {
          return Err(lookup.error), lookedUp;
        }
        routes := routes[key := lookup.value];
      }
      r := Ok(routes[key].target);
    }

    /** Drops one cached entry imported from `deadRoute`, if there is one. */
    method RemoveRouteIfExists(deadRoute: CryptoKey)
      modifies this
      ensures RemovedIfExists(old(routes), routes, deadRoute)
    {
      if !exists k :: k in routes && routes[k].route == deadRoute {
        return;
      }
      var keyToRemove :| keyToRemove in routes && routes[keyToRemove].route == deadRoute;
      routes := routes - {keyToRemove};
    }
  }
}

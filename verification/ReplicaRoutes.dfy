/** The route index of a data process: it answers every lookup as a scan of all local replicas would. */
module ReplicaRoutes {
  import opened Wrappers

  datatype ReplicaKey = ReplicaKey(cluster: U64, graph: U64, shard: U64, replica: U64)

  /** The epoch and generation a local replica is bound to. */
  datatype Fence = Fence(epoch: U64, generation: U64)

  /** The replicas of this process, as their host knows them. */
  type Host = map<ReplicaKey, Fence>

  datatype Route = Route(cluster: U64, graph: U64, shard: U64, epoch: U64, generation: U64, replica: Option<U64>) {
    function Without(): Route
    {
      this.(replica := None)
    }
  }

  type Routes = map<Route, ReplicaKey>

  /**
   * The host may refuse for reasons of its own: a store that does not open, another backend class, undelivered
   * messages.
   */
  datatype LookupError = ReplicaNotFound | Ambiguous | DuplicateReplica | HostRefused

  function ExactRoute(k: ReplicaKey, f: Fence): Route
  {
    Route(k.cluster, k.graph, k.shard, f.epoch, f.generation, Some(k.replica))
  }

  /** A replica answers a route with its fence, and with its own number if the route names one. */
  predicate Matches(k: ReplicaKey, f: Fence, route: Route)
  {
    && k.cluster == route.cluster && k.graph == route.graph && k.shard == route.shard
    && f.epoch == route.epoch && f.generation == route.generation
    && (route.replica.None? || route.replica.value == k.replica)
  }

  ghost function Matching(host: Host, route: Route): set<ReplicaKey>
  {
    set k | k in host && Matches(k, host[k], route)
  }

  /** What a scan of all replicas answers. */
  ghost predicate Answers(host: Host, route: Route, r: Result<ReplicaKey, LookupError>)
  {
    match r
    case Ok(key) => Matching(host, route) == {key}
    case Err(error) =>
      if Matching(host, route) == {} then error == ReplicaNotFound
      else error == Ambiguous && forall k :: Matching(host, route) != {k}
  }

  /** Exactly the routes with one matching replica are in the index, and lead to it. */
  ghost predicate Indexed(host: Host, routes: Routes)
  {
    && (forall r | r in routes :: Matching(host, r) == {routes[r]})
    && (forall r, k :: Matching(host, r) == {k} ==> r in routes)
  }

  /** The index is right about the routes that name a replica. */
  ghost predicate ExactIndexed(host: Host, routes: Routes)
  {
    && (forall r | r in routes && r.replica.Some? :: Matching(host, r) == {routes[r]})
    && (forall k | k in host :: ExactRoute(k, host[k]) in routes)
  }

  // ----- matching

  lemma ExactMatch(host: Host, k: ReplicaKey)
    requires k in host
    ensures Matching(host, ExactRoute(k, host[k])) == {k}
  {
    forall x | x in Matching(host, ExactRoute(k, host[k]))
      ensures x == k
    {
      assert x == ReplicaKey(x.cluster, x.graph, x.shard, x.replica);
    }
  }

  lemma MatchingExact(host: Host, r: Route, k: ReplicaKey)
    requires r.replica.Some? && k in Matching(host, r)
    ensures r == ExactRoute(k, host[k])
  {
  }

  lemma IndexedIsExact(host: Host, routes: Routes)
    requires Indexed(host, routes)
    ensures ExactIndexed(host, routes)
  {
    forall k | k in host
      ensures ExactRoute(k, host[k]) in routes
    {
      ExactMatch(host, k);
    }
  }

  /** The two routes a new or leaving replica affects are its own and the wildcard of its fence. */
  lemma OnlyTwoRoutes(host: Host, k: ReplicaKey, f: Fence, r: Route)
    requires k !in host
    ensures Matching(host[k := f], r) == Matching(host, r) + if Matches(k, f, r) then {k} else {}
    ensures Matches(k, f, r) <==> r == ExactRoute(k, f) || r == ExactRoute(k, f).Without()
  {
    forall x
      ensures x in Matching(host[k := f], r) <==> x in Matching(host, r) || (x == k && Matches(k, f, r))
    {
    }
  }

  // ----- maintaining the index

  predicate Under(routes: Routes, r: Route, wildcard: Route)
  {
    r in routes && r.replica.Some? && r.Without() == wildcard
  }

  /** Up to two exact routes under a wildcard. */
  method FindMatches(routes: Routes, wildcard: Route) returns (first: Option<Route>, second: Option<Route>)
    ensures first.None? ==> second.None? && forall r :: !Under(routes, r, wildcard)
    ensures first.Some? ==> Under(routes, first.value, wildcard)
    ensures first.Some? && second.None? ==> forall r | Under(routes, r, wildcard) :: r == first.value
    ensures second.Some? ==> first.Some? && Under(routes, second.value, wildcard) && second != first
  {
    first, second := None, None;
    var rest := routes.Keys;
    while rest != {}
      invariant rest <= routes.Keys && second.None?
      invariant first.None? ==> forall r | Under(routes, r, wildcard) :: r in rest
      invariant first.Some? ==> Under(routes, first.value, wildcard) && first.value !in rest
      invariant first.Some? ==> forall r | Under(routes, r, wildcard) :: r == first.value || r in rest
    {
      var r :| r in rest;
      rest := rest - {r};
      if Under(routes, r, wildcard) {
        if first.Some? {
          return first, Some(r);
        }
        first := Some(r);
      }
    }
  }

  lemma NoneUnder(host: Host, routes: Routes, wildcard: Route)
    requires ExactIndexed(host, routes) && wildcard.replica.None? && forall r :: !Under(routes, r, wildcard)
    ensures Matching(host, wildcard) == {}
  {
    forall k | k in host
      ensures !Matches(k, host[k], wildcard)
    {
      assert !Under(routes, ExactRoute(k, host[k]), wildcard);
    }
  }

  lemma OneUnder(host: Host, routes: Routes, wildcard: Route, q: Route)
    requires ExactIndexed(host, routes) && wildcard.replica.None? && Under(routes, q, wildcard)
    requires forall r | Under(routes, r, wildcard) :: r == q
    ensures Matching(host, wildcard) == {routes[q]}
  {
    UnderWildcard(host, routes, q);
    forall k | k in Matching(host, wildcard)
      ensures k == routes[q]
    {
      ExactMatch(host, k);
      assert Under(routes, ExactRoute(k, host[k]), wildcard);
    }
  }

  lemma TwoUnder(host: Host, routes: Routes, wildcard: Route, q: Route, r: Route)
    requires ExactIndexed(host, routes) && Under(routes, q, wildcard) && Under(routes, r, wildcard) && q != r
    ensures forall k :: Matching(host, wildcard) != {k}
  {
    UnderWildcard(host, routes, q);
    UnderWildcard(host, routes, r);
    SameKeySameRoute(host, routes, q, r);
  }

  lemma UnderWildcard(host: Host, routes: Routes, r: Route)
    requires ExactIndexed(host, routes) && r in routes && r.replica.Some?
    ensures routes[r] in Matching(host, r.Without())
  {
    assert routes[r] in Matching(host, r);
  }

  lemma SameKeySameRoute(host: Host, routes: Routes, q: Route, r: Route)
    requires ExactIndexed(host, routes) && q in routes && r in routes && q.replica.Some? && r.replica.Some?
    ensures routes[q] == routes[r] ==> q == r
  {
    assert routes[q] in Matching(host, q) && routes[r] in Matching(host, r);
    MatchingExact(host, q, routes[q]);
    MatchingExact(host, r, routes[r]);
  }

  /** Recomputes one wildcard entry from the exact ones. */
  method RefreshWildcard(routes0: Routes, wildcard: Route, ghost host: Host) returns (routes: Routes)
    requires ExactIndexed(host, routes0) && wildcard.replica.None?
    ensures ExactIndexed(host, routes)
    ensures forall r | r != wildcard :: (r in routes <==> r in routes0) && (r in routes ==> routes[r] == routes0[r])
    ensures wildcard in routes ==> Matching(host, wildcard) == {routes[wildcard]}
    ensures forall k :: Matching(host, wildcard) == {k} ==> wildcard in routes
  {
    hide Matching;
    routes := routes0 - {wildcard};
    var first, second := FindMatches(routes, wildcard);
    if first.None? {
      NoneUnder(host, routes, wildcard);
    } else if second.Some? {
      TwoUnder(host, routes, wildcard, first.value, second.value);
    } else {
      OneUnder(host, routes, wildcard, first.value);
      routes := routes[wildcard := routes[first.value]];
    }
  }

  /** Adds a replica that the host has just accepted. */
  method InsertRoute(routes0: Routes, key: ReplicaKey, fence: Fence, ghost host: Host) returns (routes: Routes)
    requires key !in host && Indexed(host, routes0)
    ensures Indexed(host[key := fence], routes)
  {
    ghost var host1 := host[key := fence];
    var exact := ExactRoute(key, fence);
    var wildcard := exact.Without();
    AddedExact(host, routes0, key, fence);
    routes := RefreshWildcard(routes0[exact := key], wildcard, host1);
    forall r
      ensures r in routes ==> Matching(host1, r) == {routes[r]}
      ensures forall k :: Matching(host1, r) == {k} ==> r in routes
    {
      OnlyTwoRoutes(host, key, fence, r);
      ExactMatch(host1, key);
    }
  }

  lemma AddedExact(host: Host, routes: Routes, key: ReplicaKey, fence: Fence)
    requires key !in host && Indexed(host, routes)
    ensures ExactIndexed(host[key := fence], routes[ExactRoute(key, fence) := key])
  {
    hide Matching, Indexed;
    var host1, routes1 := host[key := fence], routes[ExactRoute(key, fence) := key];
    ExactMatch(host1, key);
    IndexedIsExact(host, routes);
    forall r | r in routes1 && r.replica.Some?
      ensures Matching(host1, r) == {routes1[r]}
    {
      OnlyTwoRoutes(host, key, fence, r);
    }
  }

  /** Takes out a replica that the host has removed, and recomputes the wildcards it stood under. */
  method RemoveRoute(routes0: Routes, key: ReplicaKey, ghost host: Host) returns (routes: Routes)
    requires key in host && Indexed(host, routes0)
    ensures Indexed(host - {key}, routes)
  {
    hide Indexed, ExactIndexed, Matching;
    ghost var host1, wild := host - {key}, ExactRoute(key, host[key]).Without();
    var affected := set r | r in routes0 && routes0[r] == key :: r.Without();
    AffectedIs(host, routes0, key);
    routes := map r | r in routes0 && routes0[r] != key :: routes0[r];
    RemainingExact(host, routes0, key, routes);
    var rest := affected;
    while rest != {}
      invariant rest <= affected && ExactIndexed(host1, routes)
      invariant forall r | r != wild ::
          (r in routes <==> r in routes0 && routes0[r] != key) && (r in routes ==> routes[r] == routes0[r])
      invariant rest == {} ==> wild in routes ==> Matching(host1, wild) == {routes[wild]}
      invariant rest == {} ==> forall k :: Matching(host1, wild) == {k} ==> wild in routes
    {
      var wildcard :| wildcard in rest;
      assert wildcard == wild;
      routes := RefreshWildcard(routes, wildcard, host1);
      rest := rest - {wildcard};
    }
    RemovedIndexed(host, routes0, key, routes);
  }

  lemma RemovedIndexed(host: Host, routes0: Routes, key: ReplicaKey, routes: Routes)
    requires key in host && Indexed(host, routes0)
    requires var wild := ExactRoute(key, host[key]).Without();
      && (forall r | r != wild ::
            (r in routes <==> r in routes0 && routes0[r] != key) && (r in routes ==> routes[r] == routes0[r]))
      && (wild in routes ==> Matching(host - {key}, wild) == {routes[wild]})
      && (forall k :: Matching(host - {key}, wild) == {k} ==> wild in routes)
    ensures Indexed(host - {key}, routes)
  {
    hide Matching;
    var wild := ExactRoute(key, host[key]).Without();
    forall r
      ensures r in routes ==> Matching(host - {key}, r) == {routes[r]}
      ensures forall k :: Matching(host - {key}, r) == {k} ==> r in routes
    {
      if r != wild {
        Unaffected(host, routes0, key, r);
      }
    }
  }

  lemma AffectedIs(host: Host, routes: Routes, key: ReplicaKey)
    requires key in host && Indexed(host, routes)
    ensures (set r | r in routes && routes[r] == key :: r.Without()) == {ExactRoute(key, host[key]).Without()}
  {
    var exact := ExactRoute(key, host[key]);
    ExactMatch(host, key);
    assert exact in routes && routes[exact] == key;
    forall r | r in routes && routes[r] == key
      ensures r.Without() == exact.Without()
    {
      assert key in Matching(host, r);
    }
  }

  lemma RemainingExact(host: Host, routes0: Routes, key: ReplicaKey, routes: Routes)
    requires key in host && Indexed(host, routes0) && routes == map r | r in routes0 && routes0[r] != key :: routes0[r]
    ensures ExactIndexed(host - {key}, routes)
  {
    hide Matching;
    forall r | r in routes && r.replica.Some?
      ensures Matching(host - {key}, r) == {routes[r]}
    {
      Unaffected(host, routes0, key, r);
    }
    forall k | k in host - {key}
      ensures ExactRoute(k, host[k]) in routes
    {
      ExactMatch(host, k);
    }
  }

  lemma Unaffected(host: Host, routes: Routes, key: ReplicaKey, r: Route)
    requires key in host && Indexed(host, routes) && r != ExactRoute(key, host[key]).Without()
    ensures r in routes && routes[r] != key ==> Matching(host - {key}, r) == {routes[r]}
    ensures forall k :: Matching(host - {key}, r) == {k} ==> r in routes && routes[r] != key
  {
    var host1 := host - {key};
    assert host1[key := host[key]] == host;
    OnlyTwoRoutes(host1, key, host[key], r);
    ExactMatch(host, key);
    if r == ExactRoute(key, host[key]) {
      assert Matching(host1, r) == {};
    }
  }

  class DataRoutes {
    var host: Host
    var routes: Routes

    ghost predicate Valid()
      reads this
    {
      Indexed(host, routes)
    }

    /** Indexes the replicas the host starts with. */
    constructor (host: Host)
      ensures Valid() && this.host == host
    {
      this.host, routes := map[], map[];
      new;
      var rest := host.Keys;
      assert Valid();
      while rest != {}
        invariant rest <= host.Keys && Valid()
        invariant this.host == map k | k in host && k !in rest :: host[k]
      {
        var key :| key in rest;
        routes := InsertRoute(routes, key, host[key], this.host);
        this.host := this.host[key := host[key]];
        rest := rest - {key};
      }
      assert this.host == host;
    }

    method AddReplica(key: ReplicaKey, fence: Fence) returns (r: Result<ReplicaKey, LookupError>)
      requires Valid()
      modifies this
      ensures Valid()
      ensures r.Ok? <==> key !in old(host) && r != Err(HostRefused)
      ensures host == if r.Ok? then old(host)[key := fence] else old(host)
    {
      var refused: bool := *;
      if refused {
        return Err(HostRefused);
      }
      if key in host {
        return Err(DuplicateReplica);
      }
      routes := InsertRoute(routes, key, fence, host);
      host := host[key := fence];
      return Ok(key);
    }

    method RemoveReplica(key: ReplicaKey) returns (r: Result<(), LookupError>)
      requires Valid()
      modifies this
      ensures Valid()
      ensures r.Ok? <==> key in old(host) && r != Err(HostRefused)
      ensures host == if r.Ok? then old(host) - {key} else old(host)
    {
      if key !in host {
        return Err(ReplicaNotFound);
      }
      var refused: bool := *;
      if refused {
        return Err(HostRefused);
      }
      routes := RemoveRoute(routes, key, host);
      host := host - {key};
      return Ok(());
    }

    /** Looks in the index first and scans the replicas otherwise; either way the answer is the scan's. */
    method Locate(route: Route) returns (r: Result<ReplicaKey, LookupError>)
      requires Valid()
      ensures Answers(host, route, r)
    {
      if route in routes {
        return Ok(routes[route]);
      }
      r := ScanReplicas(host, route);
    }
  }

  /** Filters all replicas and insists on a single match. */
  method ScanReplicas(host: Host, route: Route) returns (r: Result<ReplicaKey, LookupError>)
    ensures Answers(host, route, r)
  {
    var first: Option<ReplicaKey> := None;
    var rest := host.Keys;
    while rest != {}
      invariant rest <= host.Keys
      invariant first.None? ==> forall k | k in Matching(host, route) :: k in rest
      invariant first.Some? ==> first.value in Matching(host, route) && first.value !in rest
      invariant first.Some? ==> forall k | k in Matching(host, route) :: k == first.value || k in rest
    {
      var k :| k in rest;
      if Matches(k, host[k], route) {
        assert k in Matching(host, route);
        if first.Some? {
          return Err(Ambiguous);
        }
        first := Some(k);
      }
      rest := rest - {k};
    }
    if first.None? {
      assert Matching(host, route) == {};
      return Err(ReplicaNotFound);
    }
    assert Matching(host, route) == {first.value};
    return Ok(first.value);
  }

  /** Index and scan give the same answer for every route. */
  lemma IndexAgreesWithScan(host: Host, routes: Routes, route: Route, r: Result<ReplicaKey, LookupError>)
    requires Indexed(host, routes) && Answers(host, route, r)
    ensures route in routes <==> r.Ok?
    ensures route in routes ==> r == Ok(routes[route])
  {
  }
}

/** Core numbers by repeatedly removing a vertex of least remaining degree. */
module KCore {
  import opened Wrappers
  import opened Guard
  import opened Csr
  import opened FiniteSets

  type Adjacency = seq<set<nat>>

  /** A directed edge from `u` to `v` among the first `limit` edges. */
  ghost predicate Linked(csr: SnapshotCsr, u: nat, v: nat, limit: nat)
  {
    exists e: nat :: InRange(csr.offsets, u, e) && e < limit && e < |csr.neighbors| && csr.neighbors[e] == v
  }

  /** The undirected graph without loops that the first `limit` edges span. */
  ghost predicate Undirected(csr: SnapshotCsr, adjacency: Adjacency, limit: nat)
  {
    && |adjacency| == csr.VertexCount()
    && forall u, v: nat | 0 <= u < |adjacency| ::
         v in adjacency[u] <==> u != v && (Linked(csr, u, v, limit) || Linked(csr, v, u, limit))
  }

  lemma LinkedNext(csr: SnapshotCsr, source: nat, e: nat)
    requires csr.Valid() && InRange(csr.offsets, source, e)
    ensures e < csr.EdgeCount()
    ensures forall u: nat, v: nat ::
              Linked(csr, u, v, e + 1) <==> Linked(csr, u, v, e) || (u == source && v == csr.neighbors[e])
  {
    csr.SourceOf(source, e);
    forall u: nat, v: nat
      ensures Linked(csr, u, v, e + 1) <==> Linked(csr, u, v, e) || (u == source && v == csr.neighbors[e])
    {
      if Linked(csr, u, v, e + 1) && !Linked(csr, u, v, e) {
        assert InRange(csr.offsets, u, e);
        csr.SourceOf(u, e);
      }
    }
  }

  method UndirectedAdjacency(csr: SnapshotCsr, guard: ExecutionGuard)
    returns (r: Result<Adjacency, AnalyticsError>)
    requires csr.Valid() && guard.reported.None?
    modifies guard
    ensures r.Ok? ==> Undirected(csr, r.value, csr.EdgeCount()) && guard.reported.None?
    ensures r.Err? ==> guard.reported == Some(r.error)
  {
    var n := csr.VertexCount();
    :- guard.Reserve(n * 24);
    var adjacency: Adjacency := seq(n, _ => {});
    var source := 0;
    while source < n
      invariant 0 <= source <= n && guard.reported.None?
      invariant Undirected(csr, adjacency, csr.offsets[source])
    {
      :- guard.Step();
      var e := csr.offsets[source];
      while e < csr.offsets[source + 1]
        invariant csr.offsets[source] <= e <= csr.offsets[source + 1] && guard.reported.None?
        invariant Undirected(csr, adjacency, e)
      {
        :- guard.Step();
        LinkedNext(csr, source, e);
        var target := csr.neighbors[e];
        if source != target {
          adjacency := adjacency[source := adjacency[source] + {target}];
          adjacency := adjacency[target := adjacency[target] + {source}];
        }
        e := e + 1;
      }
      source := source + 1;
    }
    return Ok(adjacency);
  }

  /** Neighbour sets of a simple undirected graph on `0..|a|`. */
  ghost predicate Simple(a: Adjacency)
  {
    && (forall u, v | 0 <= u < |a| && v in a[u] :: v < |a| && v != u)
    && (forall u, v | 0 <= u < |a| && 0 <= v < |a| :: v in a[u] <==> u in a[v])
  }

  /** Inside `s`, every vertex has at least `k` neighbours. */
  ghost predicate Cohesive(a: Adjacency, s: set<nat>, k: nat)
  {
    forall v | v in s :: v < |a| && |a[v] * s| >= k
  }

  /** The largest `k` such that `v` lies in some set of minimum induced degree at least `k`. */
  ghost predicate IsCoreNumber(a: Adjacency, v: nat, k: nat)
  {
    && (exists s :: v in s && Cohesive(a, s, k))
    && (forall s, j: nat | v in s && Cohesive(a, s, j) :: j <= k)
  }

  lemma UndirectedIsSimple(csr: SnapshotCsr, a: Adjacency)
    requires csr.Valid() && Undirected(csr, a, csr.EdgeCount())
    ensures Simple(a)
  {
    forall u: nat, v: nat | Linked(csr, u, v, csr.EdgeCount())
      ensures u < |a| && v < |a|
    {
      var e: nat :| InRange(csr.offsets, u, e) && e < csr.EdgeCount() && csr.neighbors[e] == v;
      csr.SourceOf(u, e);
    }
  }

  /** Degrees count the neighbours still present. */
  ghost predicate CountsRemaining(a: Adjacency, degree: seq<nat>, remaining: set<nat>)
  {
    && |degree| == |a|
    && forall v | v in remaining :: v < |a| && degree[v] == |a[v] * remaining|
  }

  /** Every cohesive set that lost a member is accounted for, and so is each of its removed members. */
  ghost predicate Bounded(a: Adjacency, cores: seq<nat>, remaining: set<nat>, current: nat)
  {
    && |cores| == |a|
    && (forall s, k: nat | Cohesive(a, s, k) && !(s <= remaining) :: k <= current)
    && (forall s, k: nat, v | Cohesive(a, s, k) && v in s && v !in remaining :: k <= cores[v])
  }

  /** Each removed vertex lay in a set as cohesive as its number says. */
  ghost predicate Witnessed(a: Adjacency, cores: seq<nat>, remaining: set<nat>)
  {
    && |cores| == |a|
    && forall v: nat | v < |a| && v !in remaining :: exists s :: v in s && Cohesive(a, s, cores[v])
  }

  /** The first member that a cohesive set loses has at least `k` neighbours left at that moment. */
  lemma RemovalKeepsBound(a: Adjacency, cores: seq<nat>, remaining: set<nat>, current: nat, vertex: nat, next: nat)
    requires Bounded(a, cores, remaining, current)
    requires vertex in remaining && vertex < |a|
    requires next >= current && next >= |a[vertex] * remaining|
    ensures Bounded(a, cores[vertex := next], remaining - {vertex}, next)
  {
    forall s, k: nat | Cohesive(a, s, k) && !(s <= remaining - {vertex})
      ensures k <= next
    {
      if s <= remaining {
        assert vertex in s;
        CardinalityGrows(a[vertex] * s, a[vertex] * remaining);
      }
    }
  }

  lemma RemovalKeepsWitness(a: Adjacency, cores: seq<nat>, remaining: set<nat>, vertex: nat, next: nat,
                            cohesive: set<nat>)
    requires Witnessed(a, cores, remaining)
    requires vertex in remaining && vertex < |a|
    requires remaining <= cohesive && Cohesive(a, cohesive, next)
    ensures Witnessed(a, cores[vertex := next], remaining - {vertex})
  {
    forall v: nat | v < |a| && v !in remaining - {vertex}
      ensures exists s :: v in s && Cohesive(a, s, cores[vertex := next][v])
    {
      if v == vertex {
        assert v in cohesive;
      }
    }
  }

  /** Lowers the degree of each remaining neighbour of the removed vertex. */
  method RemoveVertex(a: Adjacency, degree0: seq<nat>, ghost before: set<nat>, remaining: seq<bool>, vertex: nat,
                      guard: ExecutionGuard)
    returns (r: Result<seq<nat>, AnalyticsError>)
    requires Simple(a) && vertex in before && guard.reported.None?
    requires CountsRemaining(a, degree0, before)
    requires |remaining| == |a| && Marks(remaining, before - {vertex})
    modifies guard
    ensures r.Ok? ==> |r.value| == |a| && CountsRemaining(a, r.value, before - {vertex}) && guard.reported.None?
    ensures r.Err? ==> guard.reported == Some(r.error)
  {
    hide CountsRemaining, Lowered;
    var degree := degree0;
    LoweredStart(a, degree, before, vertex);
    var todo := a[vertex];
    while todo != {}
      invariant todo <= a[vertex] && |degree| == |a| && guard.reported.None?
      invariant Lowered(a, degree, before, vertex, todo)
    {
      :- guard.Step();
      var neighbor :| neighbor in todo;
      LoweredStep(a, degree, before, vertex, todo, neighbor);
      if remaining[neighbor] {
        degree := degree[neighbor := if degree[neighbor] == 0 then 0 else degree[neighbor] - 1];
      }
      todo := todo - {neighbor};
    }
    LoweredEnd(a, degree, before, vertex);
    return Ok(degree);
  }

  /** The neighbours of `vertex` that are not in `todo` have lost one neighbour. */
  ghost predicate Lowered(a: Adjacency, degree: seq<nat>, before: set<nat>, vertex: nat, todo: set<nat>)
  {
    && |degree| == |a| && vertex < |a|
    && forall v | v in before - {vertex} :: v < |a| &&
         degree[v] == |a[v] * before| - if v in a[vertex] && v !in todo then 1 else 0
  }

  lemma LoweredStart(a: Adjacency, degree: seq<nat>, before: set<nat>, vertex: nat)
    requires CountsRemaining(a, degree, before) && vertex in before
    ensures vertex < |a| && Lowered(a, degree, before, vertex, a[vertex])
  {
  }

  lemma LoweredStep(a: Adjacency, degree: seq<nat>, before: set<nat>, vertex: nat, todo: set<nat>, neighbor: nat)
    requires Simple(a) && vertex in before && Lowered(a, degree, before, vertex, todo) && neighbor in todo
    requires todo <= a[vertex]
    ensures neighbor < |a|
    ensures neighbor in before - {vertex} ==>
      degree[neighbor] > 0 && Lowered(a, degree[neighbor := degree[neighbor] - 1], before, vertex, todo - {neighbor})
    ensures neighbor !in before - {vertex} ==> Lowered(a, degree, before, vertex, todo - {neighbor})
  {
    if neighbor in before - {vertex} {
      assert vertex in a[neighbor] * before;
    }
  }

  lemma LoweredEnd(a: Adjacency, degree: seq<nat>, before: set<nat>, vertex: nat)
    requires Simple(a) && vertex in before && Lowered(a, degree, before, vertex, {})
    ensures CountsRemaining(a, degree, before - {vertex})
  {
    forall v | v in before - {vertex}
      ensures v < |a| && degree[v] == |a[v] * (before - {vertex})|
    {
      assert a[v] * (before - {vertex}) == a[v] * before - {vertex};
    }
  }

  /** The remaining vertex of least degree, the lowest index first. */
  method SelectLeast(remaining: seq<bool>, degree: seq<nat>, ghost present: set<nat>, guard: ExecutionGuard)
    returns (r: Result<Option<nat>, AnalyticsError>)
    requires |remaining| == |degree| && guard.reported.None?
    requires Marks(remaining, present)
    modifies guard
    ensures r.Ok? ==> guard.reported.None?
    ensures r == Ok(None) ==> present == {}
    ensures r.Ok? && r.value.Some? ==> r.value.value in present
    ensures r.Ok? && r.value.Some? ==> forall v | v in present ::
              degree[r.value.value] < degree[v] || (degree[r.value.value] == degree[v] && r.value.value <= v)
    ensures r.Err? ==> guard.reported == Some(r.error)
  {
    var selected: Option<nat> := None;
    var vertex := 0;
    while vertex < |remaining|
      invariant 0 <= vertex <= |remaining| && guard.reported.None?
      invariant selected.None? ==> forall v: nat | v < vertex :: v !in present
      invariant selected.Some? ==> selected.value in present
      invariant selected.Some? ==> forall v | v in present && v < vertex ::
                  degree[selected.value] < degree[v] || (degree[selected.value] == degree[v] && selected.value <= v)
    {
      :- guard.Step();
      if remaining[vertex]
         && (selected.None? || degree[vertex] < degree[selected.value]
             || (degree[vertex] == degree[selected.value] && vertex < selected.value)) {
        selected := Some(vertex);
      }
      vertex := vertex + 1;
    }
    return Ok(selected);
  }

  /** What one removal after another keeps. */
  ghost predicate Peeled(a: Adjacency, cores: seq<nat>, present: set<nat>, current: nat, cohesive: set<nat>)
  {
    && present <= cohesive
    && Cohesive(a, cohesive, current)
    && Bounded(a, cores, present, current)
    && Witnessed(a, cores, present)
  }

  lemma PeeledInitially(a: Adjacency, cores: seq<nat>)
    requires |cores| == |a|
    ensures Peeled(a, cores, Range(|a|), 0, Range(|a|))
  {
  }

  lemma PeelStep(a: Adjacency, degree: seq<nat>, cores: seq<nat>, present: set<nat>, current: nat, cohesive: set<nat>,
                 vertex: nat)
    returns (next: nat, cohesive': set<nat>)
    requires Peeled(a, cores, present, current, cohesive) && CountsRemaining(a, degree, present)
    requires vertex in present && forall v | v in present :: degree[vertex] <= degree[v]
    ensures vertex < |degree| == |a| && degree[vertex] <= |a|
    ensures next == if current >= degree[vertex] then current else degree[vertex]
    ensures Peeled(a, cores[vertex := next], present - {vertex}, next, cohesive')
  {
    next := if current >= degree[vertex] then current else degree[vertex];
    cohesive' := if next > current then present else cohesive;
    BelowRange(|a|, a[vertex] * present);
    RemovalKeepsBound(a, cores, present, current, vertex, next);
    RemovalKeepsWitness(a, cores, present, vertex, next, cohesive');
  }

  lemma PeeledIsCoreNumber(a: Adjacency, cores: seq<nat>, current: nat, cohesive: set<nat>)
    requires Peeled(a, cores, {}, current, cohesive)
    ensures forall v: nat | v < |a| :: IsCoreNumber(a, v, cores[v])
  {
  }

  method InitialDegrees(a: Adjacency, guard: ExecutionGuard) returns (r: Result<seq<nat>, AnalyticsError>)
    requires Simple(a) && guard.reported.None?
    modifies guard
    ensures r.Ok? ==> |r.value| == |a| && CountsRemaining(a, r.value, Range(|a|)) && guard.reported.None?
    ensures r.Err? ==> guard.reported == Some(r.error)
  {
    var degree: seq<nat> := [];
    var i := 0;
    while i < |a|
      invariant 0 <= i == |degree| <= |a| && guard.reported.None?
      invariant forall v: nat | v < i :: degree[v] == |a[v]|
    {
      :- guard.Step();
      degree := degree + [|a[i]|];
      i := i + 1;
    }
    forall v | v in Range(|a|)
      ensures degree[v] == |a[v] * Range(|a|)|
    {
      assert a[v] * Range(|a|) == a[v];
    }
    return Ok(degree);
  }

  method CoreNumbers(a: Adjacency, guard: ExecutionGuard)
    returns (r: Result<seq<nat>, AnalyticsError>)
    requires Simple(a) && |a| <= U32_MAX && guard.reported.None?
    modifies guard
    ensures r.Ok? ==> |r.value| == |a| && guard.reported.None?
    ensures r.Ok? ==> forall v: nat | v < |a| :: IsCoreNumber(a, v, r.value[v])
    ensures r.Err? ==> guard.reported == Some(r.error)
  {
    hide Peeled, Simple, IsCoreNumber, Marks, CountsRemaining;
    var n := |a|;
    :- guard.Reserve(n * 9);
    var remaining := seq(n, _ => true);
    var degree :- InitialDegrees(a, guard);
    var cores: seq<nat> := seq(n, _ => 0);
    var current: nat := 0;
    ghost var present: set<nat> := Range(n);
    ghost var cohesive: set<nat> := present;
    PeeledInitially(a, cores);
    assert Marks(remaining, present) by { MarksAll(n, remaining); }
    var i := 0;
    while i < n
      invariant 0 <= i <= n && guard.reported.None? && |present| == n - i && current <= n
      invariant |remaining| == |cores| == |degree| == n
      invariant Marks(remaining, present)
      invariant CountsRemaining(a, degree, present)
      invariant Peeled(a, cores, present, current, cohesive)
    {
      :- guard.Step();
      var selected :- SelectLeast(remaining, degree, present, guard);
      if selected.None? {
        return Err(InvalidRequest);
      }
      var vertex := selected.value;
      ghost var next;
      next, cohesive := PeelStep(a, degree, cores, present, current, cohesive, vertex);
      current := if current >= degree[vertex] then current else degree[vertex];
      if current > U32_MAX {
        return Err(ResourceLimit);
      }
      cores := cores[vertex := current];
      Unmark(remaining, present, vertex);
      remaining := remaining[vertex := false];
      degree :- RemoveVertex(a, degree, present, remaining, vertex, guard);
      present := present - {vertex};
      i := i + 1;
    }
    assert present == {};
    PeeledIsCoreNumber(a, cores, current, cohesive);
    return Ok(cores);
  }

  /** Core numbers keyed by vertex identifier. */
  method KCoreOf(csr: SnapshotCsr, guard: ExecutionGuard)
    returns (r: Result<map<nat, nat>, AnalyticsError>, ghost a: Adjacency)
    requires csr.Valid() && guard.reported.None?
    modifies guard
    ensures r.Ok? ==> Undirected(csr, a, csr.EdgeCount())
    ensures r.Ok? ==> r.value.Keys == set id | id in csr.vertexIds
    ensures r.Ok? ==> forall v: nat | v < csr.VertexCount() :: IsCoreNumber(a, v, r.value[csr.vertexIds[v]])
    ensures r.Err? ==> guard.reported == Some(r.error)
  {
    a := [];
    var adjacency :- UndirectedAdjacency(csr, guard);
    a := adjacency;
    UndirectedIsSimple(csr, a);
    var cores :- CoreNumbers(adjacency, guard);
    var result :- ByVertexId(csr, cores, guard);
    return Ok(result), a;
  }

  method ByVertexId(csr: SnapshotCsr, cores: seq<nat>, guard: ExecutionGuard)
    returns (r: Result<map<nat, nat>, AnalyticsError>)
    requires csr.Valid() && |cores| == csr.VertexCount() && guard.reported.None?
    modifies guard
    ensures r.Ok? ==> r.value.Keys == set id | id in csr.vertexIds
    ensures r.Ok? ==> forall v: nat | v < csr.VertexCount() :: r.value[csr.vertexIds[v]] == cores[v]
    ensures r.Err? ==> guard.reported == Some(r.error)
  {
    var result: map<nat, nat> := map[];
    var v := 0;
    while v < csr.VertexCount()
      invariant 0 <= v <= csr.VertexCount() && guard.reported.None?
      invariant result.Keys == set id | id in csr.vertexIds[..v]
      invariant forall w: nat | w < v :: result[csr.vertexIds[w]] == cores[w]
    {
      :- guard.Step();
      assert csr.vertexIds[..v + 1] == csr.vertexIds[..v] + [csr.vertexIds[v]];
      result := result[csr.vertexIds[v] := cores[v]];
      v := v + 1;
    }
    assert csr.vertexIds[..v] == csr.vertexIds;
    return Ok(result);
  }
}

/** Strongly and weakly connected components. */
module Components {
  import opened Wrappers
  import opened Guard
  import opened Csr
  import opened FiniteSets
  import opened Reachability

  /** The directed edges as vertex pairs. */
  ghost function Arrows(csr: SnapshotCsr): (edges: Edges)
    requires csr.Valid()
  {
    set e: nat | e < csr.EdgeCount() :: (csr.Source(e), csr.neighbors[e])
  }

  /** Row `v` of `neighbors` lists exactly the successors of `v`. */
  ghost predicate Rows(offsets: seq<nat>, neighbors: seq<nat>, n: nat, edges: Edges)
  {
    && Offsets(offsets, n, |neighbors|)
    && (forall p | 0 <= p < |neighbors| :: neighbors[p] < n)
    && (forall v: nat, p: nat | v < n && InRange(offsets, v, p) && p < |neighbors| :: (v, neighbors[p]) in edges)
    && (forall v: nat, u: nat | v < n && (v, u) in edges :: u in neighbors[offsets[v]..offsets[v + 1]])
  }

  lemma ForwardRows(csr: SnapshotCsr)
    requires csr.Valid()
    ensures Rows(csr.offsets, csr.neighbors, csr.VertexCount(), Arrows(csr))
  {
    forall v: nat, p: nat | v < csr.VertexCount() && InRange(csr.offsets, v, p) && p < |csr.neighbors|
      ensures (v, csr.neighbors[p]) in Arrows(csr)
    {
      csr.SourceOf(v, p);
    }
    forall v: nat, u: nat | v < csr.VertexCount() && (v, u) in Arrows(csr)
      ensures u in csr.neighbors[csr.offsets[v]..csr.offsets[v + 1]]
    {
      var e: nat :| e < csr.EdgeCount() && csr.Source(e) == v && csr.neighbors[e] == u;
      assert csr.neighbors[csr.offsets[v]..csr.offsets[v + 1]][e - csr.offsets[v]] == u;
    }
  }

  lemma ReverseRows(csr: SnapshotCsr)
    requires csr.Valid() && csr.reverse.Some?
    ensures Rows(csr.reverse.value.offsets, csr.reverse.value.neighbors, csr.VertexCount(), Transpose(Arrows(csr)))
  {
    var r := csr.reverse.value;
    forall p | 0 <= p < |r.neighbors|
      ensures r.neighbors[p] < csr.VertexCount()
    {
      var v := OwnerFrom(r.offsets, 0, p);
      csr.SourceOf(r.neighbors[p], r.forwardEdgeIndices[p]);
    }
    forall v: nat, p: nat | v < csr.VertexCount() && InRange(r.offsets, v, p) && p < |r.neighbors|
      ensures (v, r.neighbors[p]) in Transpose(Arrows(csr))
    {
      csr.SourceOf(r.neighbors[p], r.forwardEdgeIndices[p]);
    }
    forall v: nat, u: nat | v < csr.VertexCount() && (v, u) in Transpose(Arrows(csr))
      ensures u in r.neighbors[r.offsets[v]..r.offsets[v + 1]]
    {
      var e: nat :| e < csr.EdgeCount() && csr.Source(e) == u && csr.neighbors[e] == v;
      var p := csr.PositionOf(e);
      assert r.neighbors[r.offsets[v]..r.offsets[v + 1]][p - r.offsets[v]] == u;
    }
  }

  /** Marks and queues the vertices of one row that were not seen before. */
  method VisitRow(neighbors: seq<nat>, lo: nat, hi: nat, visited0: seq<bool>, queue0: seq<nat>, ghost seen0: set<nat>,
                  guard: ExecutionGuard)
    returns (r: Result<(seq<bool>, seq<nat>), AnalyticsError>, ghost seen: set<nat>)
    requires lo <= hi <= |neighbors| && guard.reported.None? && Marks(visited0, seen0)
    requires forall p | lo <= p < hi :: neighbors[p] < |visited0|
    modifies guard
    ensures r.Ok? ==> guard.reported.None? && |r.value.0| == |visited0| && Marks(r.value.0, seen)
    ensures guard.workItems >= old(guard.workItems)
    ensures r.Ok? ==> forall v: nat :: v in seen <==> v in seen0 || v in neighbors[lo..hi]
    ensures r.Ok? ==> queue0 <= r.value.1
    ensures r.Ok? ==> forall v: nat :: v in r.value.1[|queue0|..] <==> v in seen && v !in seen0
    ensures r.Err? ==> guard.reported == Some(r.error)
  {
    var visited, queue := visited0, queue0;
    seen := seen0;
    var p := lo;
    while p < hi
      invariant lo <= p <= hi && guard.reported.None? && guard.workItems >= old(guard.workItems)
      invariant |visited| == |visited0| && Marks(visited, seen)
      invariant forall v: nat :: v in seen <==> v in seen0 || v in neighbors[lo..p]
      invariant queue0 <= queue
      invariant forall v: nat :: v in queue[|queue0|..] <==> v in seen && v !in seen0
    {
      :- guard.Step();
      var neighbor := neighbors[p];
      assert neighbors[lo..p + 1] == neighbors[lo..p] + [neighbor];
      if !visited[neighbor] {
        Mark(visited, seen, neighbor);
        visited := visited[neighbor := true];
        assert (queue + [neighbor])[|queue0|..] == queue[|queue0|..] + [neighbor];
        queue := queue + [neighbor];
        seen := seen + {neighbor};
      }
      p := p + 1;
    }
    return Ok((visited, queue)), seen;
  }

  /** Everything seen was reached from the seed, and whatever has left the queue has had its row visited. */
  ghost predicate Exploring(edges: Edges, seed: nat, seen: set<nat>, queue: seq<nat>)
  {
    && seed in seen
    && (forall v | v in seen :: Reaches(edges, seed, v))
    && (forall v | v in queue :: v in seen)
    && (forall u: nat, v: nat | u in seen && u !in queue && (u, v) in edges :: v in seen)
  }

  lemma ExploreStart(edges: Edges, seed: nat)
    ensures Exploring(edges, seed, {seed}, [seed])
  {
    ReachesSelf(edges, seed);
  }

  lemma ExploreStep(edges: Edges, seed: nat, seen: set<nat>, queue: seq<nat>, row: seq<nat>, seen': set<nat>,
                    queue': seq<nat>)
    requires Exploring(edges, seed, seen, queue) && queue != []
    requires forall v: nat :: v in row <==> (queue[0], v) in edges
    requires forall v: nat :: v in seen' <==> v in seen || v in row
    requires queue[1..] <= queue' && forall v: nat :: v in queue'[|queue| - 1..] <==> v in seen' && v !in seen
    ensures Exploring(edges, seed, seen', queue')
  {
    assert queue' == queue[1..] + queue'[|queue| - 1..];
    forall v | v in seen'
      ensures Reaches(edges, seed, v)
    {
      if v !in seen {
        ReachesOn(edges, seed, queue[0], v);
      }
    }
    forall u: nat, v: nat | u in seen' && u !in queue' && (u, v) in edges
      ensures v in seen'
    {
      assert u !in queue'[|queue| - 1..];
      assert u !in queue[1..];
    }
  }

  lemma ExploreEnd(edges: Edges, seed: nat, seen: set<nat>)
    requires Exploring(edges, seed, seen, [])
    ensures forall v: nat :: v in seen <==> Reaches(edges, seed, v)
  {
    forall v: nat | Reaches(edges, seed, v)
      ensures v in seen
    {
      StaysInside(edges, seen, seed, v);
    }
  }

  /** Breadth-first search over one direction. */
  method Explore(offsets: seq<nat>, neighbors: seq<nat>, n: nat, ghost edges: Edges, seed: nat, guard: ExecutionGuard)
    returns (r: Result<seq<bool>, AnalyticsError>)
    requires Rows(offsets, neighbors, n, edges) && seed < n && guard.reported.None?
    modifies guard
    ensures r.Ok? ==>
              guard.reported.None? && |r.value| == n && forall v: nat | v < n :: r.value[v] <==> Reaches(edges, seed, v)
    ensures r.Err? ==> guard.reported == Some(r.error)
  {
    hide Exploring;
    var visited, queue := seq(n, v => v == seed), [seed];
    ghost var seen: set<nat> := {seed};
    ExploreStart(edges, seed);
    while queue != []
      invariant guard.reported.None? && |visited| == n && Marks(visited, seen)
      invariant Exploring(edges, seed, seen, queue)
      decreases guard.maxWorkItems + 1 - guard.workItems
    {
      ExploreQueue(edges, seed, seen, queue);
      var vertex := queue[0];
      assert vertex in seen;
      RowIs(offsets, neighbors, n, edges, vertex);
      :- guard.Step();
      ghost var seen';
      var next;
      next, seen' :- VisitRow(neighbors, offsets[vertex], offsets[vertex + 1], visited, queue[1..], seen, guard);
      ExploreStep(edges, seed, seen, queue, neighbors[offsets[vertex]..offsets[vertex + 1]], seen', next.1);
      visited, queue, seen := next.0, next.1, seen';
    }
    ExploreEnd(edges, seed, seen);
    return Ok(visited);
  }

  lemma ExploreQueue(edges: Edges, seed: nat, seen: set<nat>, queue: seq<nat>)
    requires Exploring(edges, seed, seen, queue)
    ensures forall v | v in queue :: v in seen
  {
  }

  lemma RowIs(offsets: seq<nat>, neighbors: seq<nat>, n: nat, edges: Edges, vertex: nat)
    requires Rows(offsets, neighbors, n, edges) && vertex < n
    ensures offsets[vertex] <= offsets[vertex + 1] <= |neighbors|
    ensures forall v: nat :: v in neighbors[offsets[vertex]..offsets[vertex + 1]] <==> (vertex, v) in edges
  {
    forall v: nat | v in neighbors[offsets[vertex]..offsets[vertex + 1]]
      ensures (vertex, v) in edges
    {
      var k :| 0 <= k < offsets[vertex + 1] - offsets[vertex]
          && neighbors[offsets[vertex]..offsets[vertex + 1]][k] == v;
      assert InRange(offsets, vertex, offsets[vertex] + k);
    }
  }

  /** The identifiers of the vertices in a class. */
  ghost predicate Named(csr: SnapshotCsr, members: seq<nat>, ids: seq<nat>)
  {
    |ids| == |members| && forall k | 0 <= k < |members| ::
        members[k] < csr.VertexCount() && ids[k] == csr.vertexIds[members[k]]
  }

  ghost predicate AllNamed(csr: SnapshotCsr, classes: seq<seq<nat>>, ids: seq<seq<nat>>)
  {
    |ids| == |classes| && forall i | 0 <= i < |classes| :: Named(csr, classes[i], ids[i])
  }

  /** The classes found so far are whole classes of mutual reachability, and cover exactly `done`. */
  ghost predicate Found(edges: Edges, classes: seq<seq<nat>>, done: set<nat>, n: nat)
  {
    && (forall u | u in done :: u < n && Assigned(classes, u))
    && (forall i | 0 <= i < |classes| :: IsClass(edges, classes[i], done, n))
    && (forall i, j, u, v | 0 <= i < j < |classes| && u in classes[i] && v in classes[j] :: !Mutual(edges, u, v))
  }

  /** `members` is the set of all vertices mutually reachable with any one of its members. */
  ghost predicate IsClass(edges: Edges, members: seq<nat>, done: set<nat>, n: nat)
  {
    && NoRepeats(members)
    && (forall u | u in members :: u in done && u < n)
    && (forall u, v: nat | u in members && v < n :: v in members <==> Mutual(edges, u, v))
  }

  lemma MutualIsEquivalence(edges: Edges, u: nat, v: nat, w: nat)
    ensures Mutual(edges, u, u)
    ensures Mutual(edges, u, v) <==> Mutual(edges, v, u)
    ensures Mutual(edges, u, v) && Mutual(edges, v, w) ==> Mutual(edges, u, w)
  {
    ReachesSelf(edges, u);
    if Mutual(edges, u, v) && Mutual(edges, v, w) {
      ReachesThrough(edges, u, v, w);
      ReachesThrough(edges, w, v, u);
    }
  }

  /** A class found from a vertex outside `done` is new. */
  lemma FoundNext(edges: Edges, classes: seq<seq<nat>>, done: set<nat>, n: nat, seed: nat, members: seq<nat>,
                  done': set<nat>)
    requires Found(edges, classes, done, n) && seed < n && seed !in done
    requires NoRepeats(members) && (forall v | v in members :: v < n)
    requires forall v: nat | v < n :: v in members <==> Mutual(edges, seed, v)
    requires forall v: nat :: v in done' <==> v in done || v in members
    ensures Found(edges, classes + [members], done', n)
  {
    var all := classes + [members];
    forall u, v: nat | u in members && v < n
      ensures v in members <==> Mutual(edges, u, v)
    {
      MutualIsEquivalence(edges, seed, u, v);
      MutualIsEquivalence(edges, u, seed, v);
    }
    forall u | u in done'
      ensures u < n && Assigned(all, u)
    {
      if u in done {
        var i :| 0 <= i < |classes| && u in classes[i];
        assert all[i] == classes[i];
      } else {
        assert all[|classes|] == members;
      }
    }
    forall i | 0 <= i < |all|
      ensures IsClass(edges, all[i], done', n)
    {
      if i < |classes| {
        assert IsClass(edges, classes[i], done, n);
      }
    }
    forall i, j, u, v | 0 <= i < j < |all| && u in all[i] && v in all[j]
      ensures !Mutual(edges, u, v)
    {
      if j == |classes| {
        FoundApart(edges, classes, done, n, seed, i, u, v);
      }
    }
  }

  lemma FoundApart(edges: Edges, classes: seq<seq<nat>>, done: set<nat>, n: nat, seed: nat, i: nat, u: nat, v: nat)
    requires Found(edges, classes, done, n) && seed < n && seed !in done
    requires i < |classes| && u in classes[i] && Mutual(edges, seed, v)
    ensures !Mutual(edges, u, v)
  {
    assert IsClass(edges, classes[i], done, n);
    MutualIsEquivalence(edges, seed, v, u);
    MutualIsEquivalence(edges, v, u, seed);
    MutualIsEquivalence(edges, u, seed, v);
  }

  /** Led by seeds below `seed`, so that the class of `seed` may follow. */
  ghost predicate LedBelow(classes: seq<seq<nat>>, seed: nat)
  {
    Led(classes) && forall i | 0 <= i < |classes| :: classes[i][0] < seed
  }

  lemma LedNext(classes: seq<seq<nat>>, seed: nat, members: seq<nat>)
    requires LedBelow(classes, seed) && members != [] && members[0] == seed && forall v | v in members :: seed <= v
    ensures LedBelow(classes + [members], seed + 1)
  {
  }

  /** With everything below it done, a seed is the least of its class. */
  lemma SeedIsLeast(edges: Edges, classes: seq<seq<nat>>, done: set<nat>, n: nat, seed: nat, members: seq<nat>)
    requires Found(edges, classes, done, n) && seed < n && seed !in done && forall v: nat | v < seed :: v in done
    requires (forall v | v in members :: v < n) && forall v: nat | v < n :: v in members <==> Mutual(edges, seed, v)
    ensures forall v | v in members :: seed <= v
  {
    forall v | v in members ensures v !in done {
      MutualIsEquivalence(edges, v, v, v);
      if v in done {
        var i :| 0 <= i < |classes| && v in classes[i];
        FoundApart(edges, classes, done, n, seed, i, v, v);
      }
    }
  }

  lemma LeastLeads(members: seq<nat>, seed: nat)
    requires Rising(members) && seed in members && forall v | v in members :: seed <= v
    ensures members != [] && members[0] == seed
  {
    var a :| 0 <= a < |members| && members[a] == seed;
    assert members[0] in members;
  }

  lemma RisesOn(members: seq<nat>, v: nat)
    requires Rising(members) && forall u | u in members :: u < v
    ensures Rising(members + [v])
  {
    forall a | 0 <= a < |members| ensures members[a] < v { assert members[a] in members; }
  }

  lemma FoundAll(edges: Edges, classes: seq<seq<nat>>, done: set<nat>, n: nat)
    requires Found(edges, classes, done, n) && (forall v: nat | v < n :: v in done) && Led(classes)
    ensures Partitioned(edges, classes, n)
  {
    forall i, j, u, v | 0 <= i < |classes| && 0 <= j < |classes| && u in classes[i] && v in classes[j]
      ensures i == j <==> Mutual(edges, u, v)
    {
      assert IsClass(edges, classes[i], done, n) && IsClass(edges, classes[j], done, n);
      MutualIsEquivalence(edges, u, v, u);
    }
    forall i | 0 <= i < |classes|
      ensures NoRepeats(classes[i]) && forall u | u in classes[i] :: u < n
    {
      assert IsClass(edges, classes[i], done, n);
    }
  }

  /** Collects, in order, the vertices flagged in both tables. */
  method Intersect(csr: SnapshotCsr, forward: seq<bool>, backward: seq<bool>, taken0: seq<bool>, ghost done0: set<nat>,
                   guard: ExecutionGuard)
    returns (r: Result<(seq<nat>, seq<bool>), AnalyticsError>, ghost members: seq<nat>, ghost done: set<nat>)
    requires csr.Valid() && |forward| == |backward| == |taken0| == csr.VertexCount() && guard.reported.None?
    requires Marks(taken0, done0)
    modifies guard
    ensures r.Ok? ==> guard.reported.None? && |r.value.1| == |taken0| && Marks(r.value.1, done)
    ensures r.Ok? ==> forall v: nat :: v in members <==> v < csr.VertexCount() && forward[v] && backward[v]
    ensures r.Ok? ==> NoRepeats(members) && Rising(members) && Named(csr, members, r.value.0)
    ensures r.Ok? ==> forall v: nat :: v in done <==> v in done0 || v in members
    ensures r.Err? ==> guard.reported == Some(r.error)
  {
    var component, taken := [], taken0;
    members, done := [], done0;
    var v := 0;
    while v < csr.VertexCount()
      invariant 0 <= v <= csr.VertexCount() && guard.reported.None? && |taken| == |taken0| && Marks(taken, done)
      invariant forall u: nat :: u in members <==> u < v && forward[u] && backward[u]
      invariant NoRepeats(members) && Rising(members) && Named(csr, members, component)
      invariant forall u: nat :: u in done <==> u in done0 || u in members
    {
      :- guard.Step();
      if forward[v] && backward[v] {
        Mark(taken, done, v);
        taken := taken[v := true];
        done := done + {v};
        component := component + [csr.vertexIds[v]];
        RisesOn(members, v);
        members := members + [v];
      }
      v := v + 1;
    }
    return Ok((component, taken)), members, done;
  }

  method StronglyConnected(csr: SnapshotCsr, guard: ExecutionGuard)
    returns (r: Result<seq<seq<nat>>, AnalyticsError>, ghost classes: seq<seq<nat>>)
    requires csr.Valid() && guard.reported.None?
    modifies guard
    ensures r.Ok? ==> Partitioned(Arrows(csr), classes, csr.VertexCount()) && AllNamed(csr, classes, r.value)
    ensures r.Ok? ==> forall i | 0 <= i < |classes| :: Rising(classes[i])
    ensures r.Err? ==> guard.reported == Some(r.error) || (r.error == MissingReverseCsr && csr.reverse.None?)
  {
    hide Found, Partitioned, Rows, Mutual, Marks, NoRepeats, Rising, LedBelow;
    classes := [];
    if csr.reverse.None? {
      return Err(MissingReverseCsr), classes;
    }
    var n, reverse := csr.VertexCount(), csr.reverse.value;
    :- guard.Reserve(n * 3);
    ForwardRows(csr);
    ReverseRows(csr);
    ghost var edges := Arrows(csr);
    var taken := seq(n, _ => false);
    var components := [];
    ghost var done: set<nat> := {};
    MarksNone(taken);
    FoundNone(edges, n);
    var seed := 0;
    while seed < n
      invariant 0 <= seed <= n && guard.reported.None? && |taken| == n && Marks(taken, done)
      invariant forall v: nat | v < seed :: v in done
      invariant Found(edges, classes, done, n) && AllNamed(csr, classes, components)
      invariant LedBelow(classes, seed) && forall i | 0 <= i < |classes| :: Rising(classes[i])
    {
      :- guard.Step();
      LedOn(classes, seed);
      MarkedIs(taken, done, seed);
      if !taken[seed] {
        var forward :- Explore(csr.offsets, csr.neighbors, n, edges, seed, guard);
        var backward :- Explore(reverse.offsets, reverse.neighbors, n, Transpose(edges), seed, guard);
        ghost var members, done';
        var next;
        next, members, done' :- Intersect(csr, forward, backward, taken, done, guard);
        MutualIs(edges, n, seed, forward, backward, members);
        SeedIsLeast(edges, classes, done, n, seed, members);
        LeastLeads(members, seed);
        LedNext(classes, seed, members);
        FoundNext(edges, classes, done, n, seed, members, done');
        components, taken := components + [next.0], next.1;
        classes, done := classes + [members], done';
      }
      seed := seed + 1;
    }
    LedAll(classes, n);
    FoundAll(edges, classes, done, n);
    return Ok(components), classes;
  }

  lemma FoundNone(edges: Edges, n: nat)
    ensures Found(edges, [], {}, n) && LedBelow([], 0)
  {
  }

  lemma LedOn(classes: seq<seq<nat>>, seed: nat)
    requires LedBelow(classes, seed)
    ensures LedBelow(classes, seed + 1)
  {
  }

  lemma LedAll(classes: seq<seq<nat>>, n: nat)
    requires LedBelow(classes, n)
    ensures Led(classes)
  {
  }

  lemma MutualIs(edges: Edges, n: nat, seed: nat, forward: seq<bool>, backward: seq<bool>, members: seq<nat>)
    requires |forward| == |backward| == n && seed < n
    requires forall v: nat | v < n :: forward[v] <==> Reaches(edges, seed, v)
    requires forall v: nat | v < n :: backward[v] <==> Reaches(Transpose(edges), seed, v)
    requires forall v: nat :: v in members <==> v < n && forward[v] && backward[v]
    ensures forall v: nat | v < n :: v in members <==> Mutual(edges, seed, v)
    ensures seed in members
  {
    forall v: nat | v < n
      ensures v in members <==> Mutual(edges, seed, v)
    {
      ReachesBack(edges, v, seed);
    }
    MutualIsEquivalence(edges, seed, seed, seed);
  }

  // ----- ignoring direction

  /** The edges in both directions. */
  ghost function Links(csr: SnapshotCsr): (edges: Edges)
    requires csr.Valid()
  {
    Arrows(csr) + Transpose(Arrows(csr))
  }

  ghost predicate Symmetric(edges: Edges)
  {
    forall u: nat, v: nat | (u, v) in edges :: (v, u) in edges
  }

  lemma SymmetricReach(edges: Edges, u: nat, v: nat)
    requires Symmetric(edges)
    ensures Reaches(edges, u, v) <==> Mutual(edges, u, v)
  {
    assert Transpose(edges) == edges;
    ReachesBack(edges, u, v);
  }

  method NeighborsBothDirections(csr: SnapshotCsr, vertex: nat, guard: ExecutionGuard)
    returns (r: Result<set<nat>, AnalyticsError>)
    requires csr.Valid() && csr.reverse.Some? && vertex < csr.VertexCount() && guard.reported.None?
    modifies guard
    ensures r.Ok? ==> guard.reported.None? && forall v: nat :: v in r.value <==> (vertex, v) in Links(csr)
    ensures guard.workItems >= old(guard.workItems)
    ensures r.Err? ==> guard.reported == Some(r.error)
  {
    hide Rows;
    ForwardRows(csr);
    ReverseRows(csr);
    var reverse := csr.reverse.value;
    RowIs(csr.offsets, csr.neighbors, csr.VertexCount(), Arrows(csr), vertex);
    RowIs(reverse.offsets, reverse.neighbors, csr.VertexCount(), Transpose(Arrows(csr)), vertex);
    var forward :- CollectRow(csr.neighbors, csr.offsets[vertex], csr.offsets[vertex + 1], {}, guard);
    var both :- CollectRow(reverse.neighbors, reverse.offsets[vertex], reverse.offsets[vertex + 1], forward, guard);
    return Ok(both);
  }

  method CollectRow(neighbors: seq<nat>, lo: nat, hi: nat, found0: set<nat>, guard: ExecutionGuard)
    returns (r: Result<set<nat>, AnalyticsError>)
    requires lo <= hi <= |neighbors| && guard.reported.None?
    modifies guard
    ensures r.Ok? ==> guard.reported.None? && forall v: nat :: v in r.value <==> v in found0 || v in neighbors[lo..hi]
    ensures guard.workItems >= old(guard.workItems)
    ensures r.Err? ==> guard.reported == Some(r.error)
  {
    var found := found0;
    var p := lo;
    while p < hi
      invariant lo <= p <= hi && guard.reported.None? && guard.workItems >= old(guard.workItems)
      invariant forall v: nat :: v in found <==> v in found0 || v in neighbors[lo..p]
    {
      :- guard.Step();
      assert neighbors[lo..p + 1] == neighbors[lo..p] + [neighbors[p]];
      found := found + {neighbors[p]};
      p := p + 1;
    }
    return Ok(found);
  }

  /** A component in the making: `members` have been visited, `queue` is next, and `before` is left alone. */
  ghost predicate Growing(edges: Edges, seed: nat, before: set<nat>, seen: set<nat>, members: seq<nat>, queue: seq<nat>)
  {
    && Closed(edges, before) && seed !in before && members + queue != [] && (members + queue)[0] == seed
    && NoRepeats(members + queue)
    && (forall v: nat :: v in seen <==> v in before || v in members + queue)
    && (forall v | v in members + queue :: v !in before && Reaches(edges, seed, v))
    && (forall u: nat, v: nat | u in members && (u, v) in edges :: v in seen)
  }

  lemma GrowStart(edges: Edges, seed: nat, before: set<nat>)
    requires Closed(edges, before) && seed !in before
    ensures Growing(edges, seed, before, before + {seed}, [], [seed])
  {
    ReachesSelf(edges, seed);
    assert [] + [seed] == [seed];
  }

  lemma NoRepeatsAppended(a: seq<nat>, b: seq<nat>)
    requires NoRepeats(a) && NoRepeats(b) && forall v | v in a :: v !in b
    ensures NoRepeats(a + b)
  {
    forall i, j | 0 <= i < j < |a + b|
      ensures (a + b)[i] != (a + b)[j]
    {
      if i < |a| <= j {
        assert a[i] in a && b[j - |a|] in b;
      }
    }
  }

  /** One vertex leaves the queue; its unseen neighbours join it. */
  lemma GrowStep(edges: Edges, seed: nat, before: set<nat>, seen: set<nat>, members: seq<nat>, queue: seq<nat>,
                 fresh': seq<nat>, seen': set<nat>)
    requires Growing(edges, seed, before, seen, members, queue) && queue != []
    requires NoRepeats(fresh') && forall v: nat :: v in fresh' <==> (queue[0], v) in edges && v !in seen
    requires forall v: nat :: v in seen' <==> v in seen || (queue[0], v) in edges
    ensures Growing(edges, seed, before, seen', members + [queue[0]], queue[1..] + fresh')
  {
    var old', new' := members + queue, members + [queue[0]] + (queue[1..] + fresh');
    assert queue == [queue[0]] + queue[1..];
    assert new' == old' + fresh';
    NoRepeatsAppended(old', fresh');
    forall v | v in new'
      ensures v !in before && Reaches(edges, seed, v)
    {
      if v in fresh' {
        ReachesOn(edges, seed, queue[0], v);
      }
    }
  }

  /** A finished component is a class, and the vertices seen are again closed. */
  lemma GrowEnd(edges: Edges, seed: nat, before: set<nat>, seen: set<nat>, members: seq<nat>, n: nat)
    requires Symmetric(edges) && Growing(edges, seed, before, seen, members, [])
    ensures NoRepeats(members) && members != [] && members[0] == seed
    ensures forall v: nat :: v in members <==> Mutual(edges, seed, v)
    ensures forall v: nat :: v in seen <==> v in before || v in members
    ensures Closed(edges, seen)
  {
    assert members + [] == members;
    forall v: nat
      ensures v in members <==> Mutual(edges, seed, v)
    {
      SymmetricReach(edges, seed, v);
      if Reaches(edges, seed, v) {
        StaysInside(edges, seen, seed, v);
        if v in before {
          StaysInside(edges, before, v, seed);
        }
      }
    }
  }

  /** Marks and queues the members of `todo` that were not seen before. */
  method VisitSet(todo0: set<nat>, visited0: seq<bool>, ghost seen0: set<nat>, guard: ExecutionGuard)
    returns (r: Result<(seq<bool>, seq<nat>), AnalyticsError>, ghost seen: set<nat>)
    requires guard.reported.None? && Marks(visited0, seen0) && forall v | v in todo0 :: v < |visited0|
    modifies guard
    ensures r.Ok? ==> guard.reported.None? && |r.value.0| == |visited0| && Marks(r.value.0, seen)
    ensures guard.workItems >= old(guard.workItems)
    ensures r.Ok? ==> forall v: nat :: v in seen <==> v in seen0 || v in todo0
    ensures r.Ok? ==> NoRepeats(r.value.1) && forall v: nat :: v in r.value.1 <==> v in todo0 && v !in seen0
    ensures r.Err? ==> guard.reported == Some(r.error)
  {
    var visited, queue := visited0, [];
    seen := seen0;
    var todo := todo0;
    while todo != {}
      invariant todo <= todo0 && guard.reported.None? && guard.workItems >= old(guard.workItems)
      invariant |visited| == |visited0| && Marks(visited, seen)
      invariant forall v: nat :: v in seen <==> v in seen0 || (v in todo0 && v !in todo)
      invariant NoRepeats(queue) && forall v: nat :: v in queue <==> v in todo0 && v !in todo && v !in seen0
    {
      :- guard.Step();
      var neighbor :| neighbor in todo;
      if !visited[neighbor] {
        Mark(visited, seen, neighbor);
        visited := visited[neighbor := true];
        queue := queue + [neighbor];
        seen := seen + {neighbor};
      }
      todo := todo - {neighbor};
    }
    return Ok((visited, queue)), seen;
  }

  /** Breadth-first search, ignoring direction, from an unseen vertex. */
  method GrowComponent(csr: SnapshotCsr, seed: nat, visited0: seq<bool>, ghost before: set<nat>, guard: ExecutionGuard)
    returns (r: Result<(seq<bool>, seq<nat>), AnalyticsError>, ghost members: seq<nat>, ghost seen: set<nat>)
    requires csr.Valid() && csr.reverse.Some? && seed < csr.VertexCount() && guard.reported.None?
    requires |visited0| == csr.VertexCount() && Marks(visited0, before) && seed !in before && Closed(Links(csr), before)
    modifies guard
    ensures r.Ok? ==> guard.reported.None? && |r.value.0| == csr.VertexCount() && Marks(r.value.0, seen)
    ensures r.Ok? ==> Growing(Links(csr), seed, before, seen, members, []) && Named(csr, members, r.value.1)
    ensures r.Err? ==> guard.reported == Some(r.error)
  {
    hide Growing, Closed, Marks;
    ghost var edges := Links(csr);
    var queue, visited, component := [seed], visited0[seed := true], [];
    members, seen := [], before + {seed};
    Mark(visited0, before, seed);
    GrowStart(edges, seed, before);
    while queue != []
      invariant guard.reported.None? && |visited| == csr.VertexCount() && Marks(visited, seen)
      invariant Growing(edges, seed, before, seen, members, queue) && Named(csr, members, component)
      decreases guard.maxWorkItems + 1 - guard.workItems
    {
      :- guard.Step();
      var vertex := queue[0];
      assert vertex in queue;
      QueueIsSeen(edges, seed, before, seen, members, queue, visited);
      component := component + [csr.vertexIds[vertex]];
      var neighbors :- NeighborsBothDirections(csr, vertex, guard);
      LinksBelow(csr);
      assert forall v | v in neighbors :: (vertex, v) in edges;
      ghost var seen';
      var next;
      next, seen' :- VisitSet(neighbors, visited, seen, guard);
      GrowStep(edges, seed, before, seen, members, queue, next.1, seen');
      visited, queue := next.0, queue[1..] + next.1;
      members, seen := members + [vertex], seen';
    }
    return Ok((visited, component)), members, seen;
  }

  lemma QueueIsSeen(edges: Edges, seed: nat, before: set<nat>, seen: set<nat>, members: seq<nat>, queue: seq<nat>,
                    visited: seq<bool>)
    requires Growing(edges, seed, before, seen, members, queue) && Marks(visited, seen)
    ensures forall v | v in queue :: v < |visited|
  {
    assert forall v | v in queue :: v in members + queue;
  }

  lemma LinksBelow(csr: SnapshotCsr)
    requires csr.Valid()
    ensures forall u: nat, v: nat | (u, v) in Links(csr) :: u < csr.VertexCount() && v < csr.VertexCount()
    ensures Symmetric(Links(csr))
  {
  }

  method WeaklyConnected(csr: SnapshotCsr, guard: ExecutionGuard)
    returns (r: Result<seq<seq<nat>>, AnalyticsError>, ghost classes: seq<seq<nat>>)
    requires csr.Valid() && guard.reported.None?
    modifies guard
    ensures r.Ok? ==> Partitioned(Links(csr), classes, csr.VertexCount()) && AllNamed(csr, classes, r.value)
    ensures r.Err? ==> guard.reported == Some(r.error) || (r.error == MissingReverseCsr && csr.reverse.None?)
  {
    hide Found, Partitioned, Mutual, Marks, Growing, Closed, NoRepeats, LedBelow;
    classes := [];
    if csr.reverse.None? {
      return Err(MissingReverseCsr), classes;
    }
    var n := csr.VertexCount();
    :- guard.Reserve(n);
    ghost var edges := Links(csr);
    LinksBelow(csr);
    var visited := seq(n, _ => false);
    var components := [];
    ghost var done: set<nat> := {};
    MarksNone(visited);
    FoundNone(edges, n);
    ClosedNone(edges);
    var seed := 0;
    while seed < n
      invariant 0 <= seed <= n && guard.reported.None? && |visited| == n && Marks(visited, done)
      invariant forall v: nat | v < seed :: v in done
      invariant Closed(edges, done) && Found(edges, classes, done, n) && AllNamed(csr, classes, components)
      invariant LedBelow(classes, seed)
    {
      :- guard.Step();
      LedOn(classes, seed);
      MarkedIs(visited, done, seed);
      if !visited[seed] {
        ghost var members, seen;
        var next;
        next, members, seen :- GrowComponent(csr, seed, visited, done, guard);
        GrowEnd(edges, seed, done, seen, members, n);
        SeedIsLeast(edges, classes, done, n, seed, members);
        LedNext(classes, seed, members);
        FoundNext(edges, classes, done, n, seed, members, seen);
        components, visited := components + [next.1], next.0;
        classes, done := classes + [members], seen;
      }
      seed := seed + 1;
    }
    LedAll(classes, n);
    FoundAll(edges, classes, done, n);
    return Ok(components), classes;
  }

  lemma ClosedNone(edges: Edges)
    ensures Closed(edges, {})
  {
  }
}

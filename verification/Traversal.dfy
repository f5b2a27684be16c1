/** Depth-limited breadth-first search. */
module Traversal {
  import opened Wrappers
  import opened Guard
  import opened Csr
  import opened Trails
  import R = Reachability

  ghost predicate Walk(csr: SnapshotCsr, es: seq<nat>, source: nat, v: nat)
    requires csr.Valid()
  {
    Trail(csr, UnitWeights(csr.EdgeCount()), es, source, v)
  }

  datatype Entry = Entry(vertex: nat, depth: nat)

  /** The depth at which each vertex was first seen. */
  type Depths = map<nat, nat>

  /** Entries in the order they were queued: depths never fall, and never rise by more than one past `floor`. */
  ghost predicate Layered(queue: seq<Entry>, floor: nat)
  {
    && (forall i, j | 0 <= i < j < |queue| :: queue[i].depth <= queue[j].depth)
    && (forall i | 0 <= i < |queue| :: floor <= queue[i].depth <= floor + 1)
  }

  /** Each recorded depth is the length of some walk. */
  ghost predicate Recorded(csr: SnapshotCsr, source: nat, limit: nat, depths: Depths)
    requires csr.Valid()
  {
    && source in depths && depths[source] == 0
    && (forall v | v in depths :: v < csr.VertexCount() && depths[v] <= limit &&
          exists es :: Walk(csr, es, source, v) && |es| == depths[v])
  }

  /** Expanded vertices come in order of depth, none deeper than `floor`. */
  ghost predicate Ordered(depths: Depths, order: seq<nat>, floor: nat)
  {
    && (forall i | 0 <= i < |order| :: order[i] in depths && depths[order[i]] <= floor)
    && (forall i, j | 0 <= i <= j < |order| :: depths[order[i]] <= depths[order[j]])
  }

  /** The successors of every expanded vertex above the limit are recorded one layer down at most. */
  ghost predicate Followed(csr: SnapshotCsr, limit: nat, depths: Depths, order: seq<nat>)
    requires csr.Valid()
  {
    forall e: nat | e < csr.EdgeCount() && csr.Source(e) in order && csr.Source(e) in depths
        && depths[csr.Source(e)] < limit ::
      csr.neighbors[e] in depths && depths[csr.neighbors[e]] <= depths[csr.Source(e)] + 1
  }

  /** `order` has been expanded, `queue` is waiting; `depths` records both. */
  ghost predicate Searching(csr: SnapshotCsr, source: nat, limit: nat, depths: Depths, order: seq<nat>,
                            queue: seq<Entry>, floor: nat)
    requires csr.Valid()
  {
    && Recorded(csr, source, limit, depths)
    && Listed(depths, order, queue)
    && Layered(queue, floor)
    && Ordered(depths, order, floor)
    && Followed(csr, limit, depths, order)
  }

  /** Every recorded vertex is listed exactly once, expanded or waiting. */
  ghost predicate Listed(depths: Depths, order: seq<nat>, queue: seq<Entry>)
  {
    && (forall i | 0 <= i < |queue| :: queue[i].vertex in depths &&
          depths[queue[i].vertex] == queue[i].depth && queue[i].vertex !in order)
    && (forall i, j | 0 <= i < j < |queue| :: queue[i].vertex != queue[j].vertex)
    && (forall v | v in order :: v in depths)
    && R.NoRepeats(order)
    && (forall v | v in depths :: v in order || Waiting(queue, v))
  }

  ghost predicate Waiting(queue: seq<Entry>, v: nat)
  {
    exists i :: 0 <= i < |queue| && queue[i].vertex == v
  }

  lemma SearchStart(csr: SnapshotCsr, source: nat, limit: nat)
    requires csr.Valid() && source < csr.VertexCount()
    ensures Searching(csr, source, limit, map[source := 0], [], [Entry(source, 0)], 0)
  {
    assert Walk(csr, [], source, source);
    assert [Entry(source, 0)][0].vertex == source;
  }

  /** Midway through expanding the head of the queue: edges of its row before `e` have been followed. */
  ghost predicate Expanding(csr: SnapshotCsr, source: nat, limit: nat, depths: Depths, order: seq<nat>,
                            queue: seq<Entry>, head: Entry, e: nat)
    requires csr.Valid()
  {
    && Searching(csr, source, limit, depths, order, queue, head.depth)
    && queue != [] && queue[0] == head && head.depth < limit && head.vertex < csr.VertexCount()
    && (forall i: nat | csr.offsets[head.vertex] <= i < e && i < csr.EdgeCount() ::
          csr.neighbors[i] in depths && depths[csr.neighbors[i]] <= head.depth + 1)
  }

  lemma Pop(csr: SnapshotCsr, source: nat, limit: nat, depths: Depths, order: seq<nat>, queue: seq<Entry>, floor: nat)
    requires csr.Valid() && Searching(csr, source, limit, depths, order, queue, floor) && queue != []
    ensures Searching(csr, source, limit, depths, order, queue, queue[0].depth)
    ensures queue[0].vertex < csr.VertexCount()
  {
  }

  /** Following one edge of the head. */
  lemma Follow(csr: SnapshotCsr, source: nat, limit: nat, depths: Depths, order: seq<nat>, queue: seq<Entry>,
               head: Entry, e: nat)
    requires csr.Valid() && Expanding(csr, source, limit, depths, order, queue, head, e)
    requires InRange(csr.offsets, head.vertex, e)
    ensures e < csr.EdgeCount()
    ensures csr.neighbors[e] in depths ==> Expanding(csr, source, limit, depths, order, queue, head, e + 1)
    ensures csr.neighbors[e] !in depths ==>
              Expanding(csr, source, limit, depths[csr.neighbors[e] := head.depth + 1], order, queue
                  + [Entry(csr.neighbors[e], head.depth + 1)], head, e + 1)
  {
    csr.SourceOf(head.vertex, e);
    var v := csr.neighbors[e];
    if v in depths {
      SeenDepth(csr, source, limit, depths, order, queue, head, v);
    } else {
      Discover(csr, source, limit, depths, order, queue, head, e);
    }
  }

  /** Nothing seen so far is deeper than the next layer. */
  lemma SeenDepth(csr: SnapshotCsr, source: nat, limit: nat, depths: Depths, order: seq<nat>, queue: seq<Entry>,
                  head: Entry, v: nat)
    requires csr.Valid() && Searching(csr, source, limit, depths, order, queue, head.depth) && v in depths
    ensures depths[v] <= head.depth + 1
  {
    if v !in order {
      assert Waiting(queue, v);
    }
  }

  lemma Discover(csr: SnapshotCsr, source: nat, limit: nat, depths: Depths, order: seq<nat>, queue: seq<Entry>,
                 head: Entry, e: nat)
    requires csr.Valid() && Expanding(csr, source, limit, depths, order, queue, head, e) && e < csr.EdgeCount()
    requires csr.Source(e) == head.vertex
    requires csr.neighbors[e] !in depths
    ensures Searching(csr, source, limit, depths[csr.neighbors[e] := head.depth + 1], order, queue
        + [Entry(csr.neighbors[e], head.depth + 1)], head.depth)
  {
    hide Listed, Recorded;
    var v := csr.neighbors[e];
    HeadIsRecorded(depths, order, queue);
    NewIsUnlisted(depths, order, queue, v);
    DiscoverRecorded(csr, source, limit, depths, head.depth, e);
    DiscoverListed(depths, order, queue, v, head.depth + 1);
  }

  lemma HeadIsRecorded(depths: Depths, order: seq<nat>, queue: seq<Entry>)
    requires Listed(depths, order, queue) && queue != []
    ensures queue[0].vertex in depths && depths[queue[0].vertex] == queue[0].depth
  {
  }

  lemma NewIsUnlisted(depths: Depths, order: seq<nat>, queue: seq<Entry>, v: nat)
    requires Listed(depths, order, queue) && v !in depths
    ensures v !in order
  {
  }

  lemma DiscoverRecorded(csr: SnapshotCsr, source: nat, limit: nat, depths: Depths, d: nat, e: nat)
    requires csr.Valid() && Recorded(csr, source, limit, depths) && e < csr.EdgeCount() && d < limit
    requires csr.Source(e) in depths && depths[csr.Source(e)] == d && csr.neighbors[e] !in depths
    ensures Recorded(csr, source, limit, depths[csr.neighbors[e] := d + 1])
  {
    var u, v := csr.Source(e), csr.neighbors[e];
    var es :| Walk(csr, es, source, u) && |es| == d;
    TrailOn(csr, UnitWeights(csr.EdgeCount()), es, source, u, e);
    hide Walk;
    assert Walk(csr, es + [e], source, v) && |es + [e]| == d + 1;
  }

  lemma DiscoverListed(depths: Depths, order: seq<nat>, queue: seq<Entry>, v: nat, d: nat)
    requires Listed(depths, order, queue) && v !in depths
    ensures Listed(depths[v := d], order, queue + [Entry(v, d)])
  {
    var queue' := queue + [Entry(v, d)];
    forall u | u in depths[v := d]
      ensures u in order || Waiting(queue', u)
    {
      if u == v {
        assert queue'[|queue|].vertex == v;
      } else if u !in order {
        assert Waiting(queue, u);
        var i :| 0 <= i < |queue| && queue[i].vertex == u;
        assert queue'[i].vertex == u;
      }
    }
  }

  /** The head has been expanded, or lies at the limit. */
  lemma Expanded(csr: SnapshotCsr, source: nat, limit: nat, depths: Depths, order: seq<nat>, queue: seq<Entry>)
    requires csr.Valid() && queue != [] && Searching(csr, source, limit, depths, order, queue, queue[0].depth)
    requires queue[0].vertex < csr.VertexCount()
    requires queue[0].depth < limit ==>
               Expanding(csr, source, limit, depths, order, queue, queue[0], csr.offsets[queue[0].vertex + 1])
    ensures Searching(csr, source, limit, depths, order + [queue[0].vertex], queue[1..], queue[0].depth)
  {
    hide Listed, Recorded;
    HeadIsRecorded(depths, order, queue);
    ExpandedListed(depths, order, queue);
    ExpandedFollowed(csr, limit, depths, order, queue[0]);
  }

  lemma ExpandedFollowed(csr: SnapshotCsr, limit: nat, depths: Depths, order: seq<nat>, head: Entry)
    requires csr.Valid() && Followed(csr, limit, depths, order) && head.vertex < csr.VertexCount()
    requires head.vertex in depths && depths[head.vertex] == head.depth
    requires head.depth < limit ==>
              forall i: nat | csr.offsets[head.vertex] <= i < csr.offsets[head.vertex + 1] && i < csr.EdgeCount() ::
               csr.neighbors[i] in depths && depths[csr.neighbors[i]] <= head.depth + 1
    ensures Followed(csr, limit, depths, order + [head.vertex])
  {
    forall e: nat | e < csr.EdgeCount() && csr.Source(e) == head.vertex && head.depth < limit
      ensures csr.neighbors[e] in depths && depths[csr.neighbors[e]] <= head.depth + 1
    {
      assert InRange(csr.offsets, csr.Source(e), e);
    }
  }

  lemma ExpandedListed(depths: Depths, order: seq<nat>, queue: seq<Entry>)
    requires Listed(depths, order, queue) && queue != []
    ensures Listed(depths, order + [queue[0].vertex], queue[1..])
  {
    forall v | v in depths
      ensures v in order + [queue[0].vertex] || Waiting(queue[1..], v)
    {
      if v !in order && v != queue[0].vertex {
        assert Waiting(queue, v);
        var i :| 0 <= i < |queue| && queue[i].vertex == v;
        assert queue[1..][i - 1].vertex == v;
      }
    }
  }

  /** Walks within the limit end at a recorded vertex, no shallower than recorded. */
  lemma {:induction false} WalkRecorded(csr: SnapshotCsr, source: nat, limit: nat, depths: Depths, order: seq<nat>,
                                        floor: nat, es: seq<nat>, v: nat)
    requires csr.Valid() && Searching(csr, source, limit, depths, order, [], floor)
    requires Walk(csr, es, source, v) && |es| <= limit
    ensures v in order && v in depths && depths[v] <= |es|
    decreases |es|
  {
    if es != [] {
      var e := es[|es| - 1];
      WalkRecorded(csr, source, limit, depths, order, floor, es[..|es| - 1], csr.Source(e));
    }
  }

  /** `d` is the least number of edges of all walks to `v`. */
  ghost predicate HopsTo(csr: SnapshotCsr, source: nat, v: nat, d: nat)
    requires csr.Valid()
  {
    && (exists es :: Walk(csr, es, source, v) && |es| == d)
    && (forall es | Walk(csr, es, source, v) :: d <= |es|)
  }

  lemma SearchEnd(csr: SnapshotCsr, source: nat, limit: nat, depths: Depths, order: seq<nat>, floor: nat)
    requires csr.Valid() && Searching(csr, source, limit, depths, order, [], floor)
    ensures forall v | v in order ::
        v < csr.VertexCount() && v in depths && depths[v] <= limit && HopsTo(csr, source, v, depths[v])
    ensures forall v, es | Walk(csr, es, source, v) && |es| <= limit :: v in order
    ensures R.NoRepeats(order) && forall i, j | 0 <= i <= j < |order| :: depths[order[i]] <= depths[order[j]]
  {
    forall v: nat, es | Walk(csr, es, source, v) && |es| <= limit
      ensures v in order && v in depths && depths[v] <= |es|
    {
      WalkRecorded(csr, source, limit, depths, order, floor, es, v);
    }
  }

  /** Hop counts are the shortest distances for unit weights. */
  lemma HopsAreDistances(csr: SnapshotCsr, source: nat, v: nat, d: nat)
    requires csr.Valid() && HopsTo(csr, source, v, d)
    ensures Shortest(csr, UnitWeights(csr.EdgeCount()), source, v, Some(d as real))
  {
    var weights := UnitWeights(csr.EdgeCount());
    forall es | Walk(csr, es, source, v)
      ensures Length(weights, es) == |es| as real
    {
      TrailEdges(csr, es, source, v);
      UnitLength(csr.EdgeCount(), es);
    }
    var es :| Walk(csr, es, source, v) && |es| == d;
    assert Trail(csr, weights, es, source, v) && Length(weights, es) == d as real;
  }

  lemma {:induction false} TrailEdges(csr: SnapshotCsr, es: seq<nat>, source: nat, v: nat)
    requires csr.Valid() && Walk(csr, es, source, v)
    ensures forall k | 0 <= k < |es| :: es[k] < csr.EdgeCount()
  {
    if es != [] {
      TrailEdges(csr, es[..|es| - 1], source, csr.Source(es[|es| - 1]));
    }
  }

  method BreadthFirst(csr: SnapshotCsr, source: nat, limit: U32, guard: ExecutionGuard)
    returns (r: Result<seq<nat>, AnalyticsError>, ghost order: seq<nat>, ghost depths: Depths)
    requires csr.Valid() && source < csr.VertexCount() && guard.reported.None?
    modifies guard
    ensures r.Ok? ==>
              |r.value| == |order| && forall k | 0 <= k < |order| ::
                  order[k] < csr.VertexCount() && r.value[k] == csr.vertexIds[order[k]]
    ensures r.Ok? ==> R.NoRepeats(order)
    ensures r.Ok? ==> forall v | v in order :: v in depths && depths[v] <= limit && HopsTo(csr, source, v, depths[v])
    ensures r.Ok? ==> forall v, es | Walk(csr, es, source, v) && |es| <= limit :: v in order
    ensures r.Ok? ==> forall i, j | 0 <= i <= j < |order| :: depths[order[i]] <= depths[order[j]]
    ensures r.Err? ==> guard.reported == Some(r.error)
  {
    hide Searching, Expanding, HopsTo;
    order, depths := [], map[source := 0];
    var n := csr.VertexCount();
    :- guard.Reserve(n * 9);
    var visited := seq(n, v => v == source);
    var queue, result := [Entry(source, 0)], [];
    ghost var floor: nat := 0;
    SearchStart(csr, source, limit);
    while queue != []
      invariant guard.reported.None? && |visited| == n && forall v: nat | v < n :: visited[v] <==> v in depths
      invariant Searching(csr, source, limit, depths, order, queue, floor)
      invariant |result| == |order|
      invariant forall k | 0 <= k < |order| :: order[k] < n && result[k] == csr.vertexIds[order[k]]
      decreases guard.maxWorkItems + 1 - guard.workItems
    {
      :- guard.Step();
      Pop(csr, source, limit, depths, order, queue, floor);
      var head := queue[0];
      result := result + [csr.vertexIds[head.vertex]];
      if head.depth < limit {
        var next;
        next, depths :- ExpandRow(csr, source, limit, depths, order, queue, visited, guard);
        visited, queue := next.0, next.1;
      }
      Expanded(csr, source, limit, depths, order, queue);
      order, floor, queue := order + [head.vertex], head.depth, queue[1..];
    }
    SearchEnd(csr, source, limit, depths, order, floor);
    return Ok(result), order, depths;
  }

  method ExpandRow(csr: SnapshotCsr, ghost source: nat, limit: nat, ghost depths0: Depths, ghost order: seq<nat>,
                   queue0: seq<Entry>, visited0: seq<bool>, guard: ExecutionGuard)
    returns (r: Result<(seq<bool>, seq<Entry>), AnalyticsError>, ghost depths: Depths)
    requires csr.Valid() && guard.reported.None? && queue0 != [] && queue0[0].depth < limit
    requires queue0[0].vertex < csr.VertexCount()
    requires |visited0| == csr.VertexCount() && forall v: nat | v < |visited0| :: visited0[v] <==> v in depths0
    requires Searching(csr, source, limit, depths0, order, queue0, queue0[0].depth)
    modifies guard
    ensures guard.workItems >= old(guard.workItems)
    ensures r.Ok? ==>
              guard.reported.None? && |r.value.0| == csr.VertexCount() && forall v: nat | v < |r.value.0| ::
                  r.value.0[v] <==> v in depths
    ensures r.Ok? ==> queue0 <= r.value.1 && Searching(csr, source, limit, depths, order, r.value.1, queue0[0].depth)
    ensures r.Ok? ==>
              Expanding(csr, source, limit, depths, order, r.value.1, queue0[0], csr.offsets[queue0[0].vertex + 1])
    ensures r.Err? ==> guard.reported == Some(r.error)
  {
    hide Searching, Expanding;
    var head := queue0[0];
    var queue, visited := queue0, visited0;
    depths := depths0;
    var e := csr.offsets[head.vertex];
    ExpandStart(csr, source, limit, depths, order, queue);
    while e < csr.offsets[head.vertex + 1]
      invariant csr.offsets[head.vertex] <= e <= csr.offsets[head.vertex + 1] && guard.reported.None?
      invariant guard.workItems >= old(guard.workItems)
      invariant |visited| == csr.VertexCount() && forall v: nat | v < |visited| :: visited[v] <==> v in depths
      invariant queue0 <= queue && Expanding(csr, source, limit, depths, order, queue, head, e)
    {
      :- guard.Step();
      Follow(csr, source, limit, depths, order, queue, head, e);
      var neighbor := csr.neighbors[e];
      if !visited[neighbor] {
        visited := visited[neighbor := true];
        queue := queue + [Entry(neighbor, head.depth + 1)];
        depths := depths[neighbor := head.depth + 1];
      }
      e := e + 1;
    }
    ExpandEnd(csr, source, limit, depths, order, queue, head, e);
    return Ok((visited, queue)), depths;
  }

  lemma ExpandStart(csr: SnapshotCsr, source: nat, limit: nat, depths: Depths, order: seq<nat>, queue: seq<Entry>)
    requires csr.Valid() && queue != [] && queue[0].depth < limit && queue[0].vertex < csr.VertexCount()
    requires Searching(csr, source, limit, depths, order, queue, queue[0].depth)
    ensures Expanding(csr, source, limit, depths, order, queue, queue[0], csr.offsets[queue[0].vertex])
  {
  }

  lemma ExpandEnd(csr: SnapshotCsr, source: nat, limit: nat, depths: Depths, order: seq<nat>, queue: seq<Entry>,
                  head: Entry, e: nat)
    requires csr.Valid() && Expanding(csr, source, limit, depths, order, queue, head, e)
    ensures Searching(csr, source, limit, depths, order, queue, head.depth)
  {
  }
}

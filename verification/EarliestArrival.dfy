/** Earliest arrival: settle vertices in order of arrival, then walk the predecessors back. */
module EarliestArrival {
  import opened Wrappers
  import opened Guard
  import opened Csr
  import opened KernelValues
  import opened FiniteSets
  import opened Sequences
  import opened TimedRoutes
  import opened LabelSetting
  import opened Temporal

  /** The unsettled vertex with the least `(time, index)`, where `inf` counts as unreached. */
  method SelectNext(times: seq<int>, settled: seq<bool>, ghost done: set<nat>, inf: int, guard: ExecutionGuard)
    returns (r: Result<Option<nat>, AnalyticsError>)
    requires |times| == |settled| && Marks(settled, done) && guard.reported.None?
    modifies guard
    ensures r.Ok? ==> guard.reported.None?
    ensures r == Ok(None) ==> forall v: nat | v < |times| && v !in done :: times[v] == inf
    ensures r.Ok? && r.value.Some? ==> r.value.value < |times| && r.value.value !in done && times[r.value.value] != inf
    ensures r.Ok? && r.value.Some? ==>
              forall v: nat | v < |times| && v !in done && times[v] != inf :: times[r.value.value] <= times[v]
    ensures guard.memoryBytes == old(guard.memoryBytes) && guard.workItems <= old(guard.workItems) + |times|
    ensures r.Err? ==>
              guard.reported == Some(r.error)
                  && Stops(r.error, guard.cancelled, old(guard.workItems) + |times|, guard.maxWorkItems)
  {
    var current: Option<nat> := None;
    var v := 0;
    while v < |times|
      invariant 0 <= v <= |times| && guard.reported.None?
      invariant guard.memoryBytes == old(guard.memoryBytes) && guard.workItems == old(guard.workItems) + v
      invariant current.None? ==> forall x: nat | x < v && x !in done :: times[x] == inf
      invariant current.Some? ==> current.value < v && current.value !in done && times[current.value] != inf
      invariant current.Some? ==>
                forall x: nat | x < v && x !in done && times[x] != inf :: times[current.value] <= times[x]
    {
      :- guard.Step();
      if !settled[v] && times[v] != inf
          && (current.None? || times[v] < times[current.value] ||
              (times[v] == times[current.value] && v < current.value)) {
        current := Some(v);
      }
      v := v + 1;
    }
    return Ok(current);
  }

  /** The arcs that leave the vertices in `done`. */
  ghost predicate LeavesOf(net: Net, done: set<nat>, used: set<nat>)
  {
    forall i: nat | i < |net.arcs| :: i in used <==> net.arcs[i].from in done
  }

  lemma LeavesNone(net: Net)
    ensures LeavesOf(net, {}, {})
  {
  }

  lemma LeavesNext(csr: SnapshotCsr, w: Window, net: Net, vertex: nat, done: set<nat>, used: set<nat>, used': set<nat>)
    requires csr.Valid() && net.source < csr.VertexCount() && net == ForwardNet(csr, w, net.source)
    requires vertex in done && vertex < csr.VertexCount() && LeavesOf(net, done - {vertex}, used)
    requires forall i: nat :: i in used' <==> i in used || csr.offsets[vertex] <= i < csr.offsets[vertex + 1]
    ensures LeavesOf(net, done, used')
  {
    forall i: nat | i < |net.arcs|
      ensures i in used' <==> net.arcs[i].from in done
    {
      assert net.arcs[i] == ForwardArc(csr, w, i);
      assert InRange(csr.offsets, csr.Source(i), i);
      if InRange(csr.offsets, vertex, i) {
        csr.SourceOf(vertex, i);
      }
    }
  }

  /** The edges of a row are new to what was used before its vertex was settled. */
  lemma RowIsNew(csr: SnapshotCsr, w: Window, net: Net, vertex: nat, done: set<nat>, used: set<nat>, e: nat)
    requires csr.Valid() && net.source < csr.VertexCount() && net == ForwardNet(csr, w, net.source)
    requires LeavesOf(net, done - {vertex}, used) && InRange(csr.offsets, vertex, e)
    ensures e !in used
  {
    csr.SourceOf(vertex, e);
    assert net.arcs[e] == ForwardArc(csr, w, e);
  }

  /** Tries every edge out of the vertex settled last. */
  method RelaxOutgoing(csr: SnapshotCsr, w: Window, ghost net: Net, s0: Search, vertex: nat,
                       ghost done: set<nat>, ghost used0: set<nat>, guard: ExecutionGuard)
    returns (r: Result<Search, AnalyticsError>, ghost used: set<nat>)
    requires csr.Valid() && net.source < csr.VertexCount() && net == ForwardNet(csr, w, net.source) && w.start <= w.end
    requires vertex in done && vertex < csr.VertexCount() && guard.reported.None?
    requires |s0.times| == net.n && Progress(net, s0, done, used0, s0.times[vertex])
    requires LeavesOf(net, done - {vertex}, used0)
    modifies guard
    ensures r.Ok? ==> guard.reported.None? && LeavesOf(net, done, used)
    ensures r.Ok? ==> |r.value.times| == net.n && Progress(net, r.value, done, used, r.value.times[vertex])
    ensures guard.memoryBytes == old(guard.memoryBytes)
    ensures r.Ok? ==>
              guard.workItems == old(guard.workItems) + |used| - |used0| && forall e | e in used :: e < csr.EdgeCount()
    ensures r.Err? ==>
              || (guard.reported == Some(r.error)
                  && Stops(r.error, guard.cancelled, old(guard.workItems) + csr.EdgeCount() - |used0|,
                           guard.maxWorkItems))
              || (r.error == MissingProperty && TimesMissing(csr, w))
  {
    hide Progress, LeavesOf;
    used := used0;
    var s := s0;
    var e := csr.offsets[vertex];
    while e < csr.offsets[vertex + 1]
      invariant csr.offsets[vertex] <= e <= csr.offsets[vertex + 1] && guard.reported.None?
      invariant guard.memoryBytes == old(guard.memoryBytes)
      invariant guard.workItems == old(guard.workItems) + |used| - |used0|
      invariant |s.times| == net.n && Progress(net, s, done, used, s.times[vertex])
      invariant forall i: nat :: i in used <==> i in used0 || csr.offsets[vertex] <= i < e
    {
      csr.SourceOf(vertex, e);
      RowIsNew(csr, w, net, vertex, done, used0, e);
      TimesBelow(net, s, done, used, s.times[vertex]);
      BelowRange(csr.EdgeCount(), used + {e});
      :- guard.Step();
      assert net.arcs[e] == ForwardArc(csr, w, e);
      var times :- EdgeTimes(csr, w, e);
      var (departure, arrival) := times;
      Relaxed(net, s, done, used, e);
      ghost var s' := Relax(net, s, e);
      if departure < s.times[vertex] || departure < w.start || arrival < departure || arrival > w.end {
        assert s' == s;
      } else {
        var neighbor := csr.neighbors[e];
        var stable := s.links[neighbor].None? || Before((vertex, e), s.links[neighbor].value);
        if arrival < s.times[neighbor] || (arrival == s.times[neighbor] && stable) {
          s := Search(s.times[neighbor := arrival], s.links[neighbor := Some((vertex, e))]);
        }
        assert s' == s;
      }
      used := used + {e};
      e := e + 1;
    }
    LeavesNext(csr, w, net, vertex, done, used0, used);
    TimesBelow(net, s, done, used, s.times[vertex]);
    return Ok(s), used;
  }

  /** The vertices in `done` have been settled and marked, and their edges, `used`, have been tried. */
  ghost predicate Searching(csr: SnapshotCsr, w: Window, net: Net, s: Search, settled: seq<bool>,
                            done: set<nat>, used: set<nat>, top: int)
    requires csr.Valid() && w.start <= w.end
  {
    && net.source < csr.VertexCount() && net == ForwardNet(csr, w, net.source)
    && |s.times| == |settled| == csr.VertexCount() && Marks(settled, done)
    && Progress(net, s, done, used, top) && LeavesOf(net, done, used) && forall e | e in used :: e < csr.EdgeCount()
  }

  /** One round: settles the next vertex and tries its edges; none when every unsettled vertex is unreached. */
  method SettleNext(csr: SnapshotCsr, w: Window, ghost net: Net, s0: Search, settled0: seq<bool>,
                    ghost done0: set<nat>, ghost used0: set<nat>, ghost top0: int, guard: ExecutionGuard)
    returns (r: Result<Option<(Search, seq<bool>)>, AnalyticsError>,
             ghost done: set<nat>, ghost used: set<nat>, ghost top: int)
    requires csr.Valid() && w.start <= w.end && guard.reported.None?
    requires Searching(csr, w, net, s0, settled0, done0, used0, top0)
    modifies guard
    ensures r.Ok? ==> guard.reported.None?
    ensures r == Ok(None) ==> forall v: nat | v < csr.VertexCount() && v !in done0 :: s0.times[v] == I64_MAX
    ensures r == Ok(None) ==> guard.workItems <= old(guard.workItems) + csr.VertexCount() + 1
    ensures r.Ok? && r.value.Some? ==> Searching(csr, w, net, r.value.value.0, r.value.value.1, done, used, top)
    ensures r.Ok? && r.value.Some? ==> |done| == |done0| + 1
    ensures r.Ok? && r.value.Some? ==>
              guard.workItems <= old(guard.workItems) + csr.VertexCount() + 1 + |used| - |used0|
    ensures r.Err? ==>
              || (r.error == MissingProperty && TimesMissing(csr, w))
              || (guard.reported == Some(r.error)
                  && Stops(r.error, guard.cancelled,
                           old(guard.workItems) + csr.VertexCount() + 1 + csr.EdgeCount() - |used0|,
                           guard.maxWorkItems))
  {
    hide Progress, Marks, LeavesOf, TimesMissing, Offsets, SnapshotCsr.Transposed;
    done, used, top := done0, used0, top0;
    TimesBelow(net, s0, done, used, top);
    BelowRange(csr.EdgeCount(), used);
    :- guard.Step();
    var current :- SelectNext(s0.times, settled0, done, I64_MAX, guard);
    if current.None? {
      return Ok(None), done, used, top;
    }
    var vertex := current.value;
    Settle(net, s0, done, used, top, vertex);
    Mark(settled0, done, vertex);
    assert done + {vertex} - {vertex} == done;
    done := done + {vertex};
    var s;
    s, used :- RelaxOutgoing(csr, w, net, s0, vertex, done, used, guard);
    top := s.times[vertex];
    return Ok(Some((s, settled0[vertex := true]))), done, used, top;
  }

  method SearchForward(csr: SnapshotCsr, w: Window, source: nat, guard: ExecutionGuard)
    returns (r: Result<Search, AnalyticsError>)
    requires csr.Valid() && source < csr.VertexCount() && w.start <= w.end && guard.reported.None?
    modifies guard
    ensures r.Ok? ==> Solved(ForwardNet(csr, w, source), r.value) && guard.reported.None?
    ensures r.Ok? ==> guard.workItems <= old(guard.workItems) + SearchWork(csr)
    ensures r.Err? ==>
              || (r.error == MissingProperty && TimesMissing(csr, w))
              || (guard.reported == Some(r.error)
                  && (|| Stops(r.error, guard.cancelled, old(guard.workItems) + SearchWork(csr), guard.maxWorkItems)
                      || Stops(r.error, guard.cancelled, old(guard.memoryBytes) + csr.VertexCount() * 24,
                               guard.maxMemoryBytes)))
  {
    hide Searching, Solved, SearchWork, RoundWork, TimesMissing, Offsets, SnapshotCsr.Valid;
    var n := csr.VertexCount();
    :- guard.Reserve(n * 24);
    ghost var net := ForwardNet(csr, w, source);
    var s := Search(seq(n, v => if v == source then w.start else I64_MAX), seq(n, _ => None));
    var settled := seq(n, _ => false);
    ghost var done: set<nat>, used: set<nat>, top: int := {}, {}, w.start;
    SearchStarts(csr, w, net, s, settled);
    NoRounds(csr);
    var i := 0;
    while i < n
      invariant 0 <= i <= n && guard.reported.None? && |done| == i
      invariant Searching(csr, w, net, s, settled, done, used, top)
      invariant guard.workItems <= old(guard.workItems) + RoundWork(csr, i) + |used|
      invariant guard.workItems <= old(guard.workItems) + SearchWork(csr)
    {
      UsedFits(csr, w, net, s, settled, done, used, top);
      RoundFits(csr, i, used);
      var next;
      ghost var done', used', top';
      next, done', used', top' :- SettleNext(csr, w, net, s, settled, done, used, top, guard);
      if next.None? {
        break;
      }
      s, settled := next.value.0, next.value.1;
      done, used, top := done', used', top';
      UsedFits(csr, w, net, s, settled, done, used, top);
      RoundFits(csr, i, used);
      i := i + 1;
    }
    UsedFits(csr, w, net, s, settled, done, used, top);
    SearchEnds(csr, w, net, s, settled, done, used, top);
    return Ok(s);
  }

  lemma UsedFits(csr: SnapshotCsr, w: Window, net: Net, s: Search, settled: seq<bool>,
                 done: set<nat>, used: set<nat>, top: int)
    requires csr.Valid() && w.start <= w.end && Searching(csr, w, net, s, settled, done, used, top)
    ensures |s.times| == csr.VertexCount() && forall e | e in used :: e < csr.EdgeCount()
  {
  }

  lemma SearchStarts(csr: SnapshotCsr, w: Window, net: Net, s: Search, settled: seq<bool>)
    requires csr.Valid() && w.start <= w.end && net.source < csr.VertexCount() && net == ForwardNet(csr, w, net.source)
    requires |s.times| == |s.links| == |settled| == csr.VertexCount()
    requires forall v: nat | v < csr.VertexCount() ::
               s.times[v] == (if v == net.source then w.start else I64_MAX) && s.links[v] == None && !settled[v]
    ensures Searching(csr, w, net, s, settled, {}, {}, w.start)
  {
    hide Progress;
    MarksNone(settled);
    LeavesNone(net);
    Started(net);
    assert s.times == Start(net).times && s.links == Start(net).links;
  }

  lemma SearchEnds(csr: SnapshotCsr, w: Window, net: Net, s: Search, settled: seq<bool>,
                   done: set<nat>, used: set<nat>, top: int)
    requires csr.Valid() && w.start <= w.end && Searching(csr, w, net, s, settled, done, used, top)
    requires |s.times| == csr.VertexCount()
    requires |done| == csr.VertexCount() || forall v: nat | v < csr.VertexCount() && v !in done :: s.times[v] == I64_MAX
    ensures Solved(net, s)
  {
    hide Progress, Solved, Net.Valid, Marks;
    TimesBelow(net, s, done, used, top);
    BelowRange(net.n, done);
    Finished(net, s, done, used, top);
  }

  lemma TimesBelow(net: Net, s: Search, settled: set<nat>, used: set<nat>, top: int)
    requires net.Valid() && Progress(net, s, settled, used, top)
    ensures |s.times| == |s.links| == net.n && forall v: nat | v < net.n :: s.times[v] <= net.inf
    ensures forall v | v in settled :: v < net.n
    ensures forall i | i in used :: i < |net.arcs|
  {
  }

  /** The identifiers of the vertices and edges that `es` visits after `v`. */
  ghost predicate Visits(csr: SnapshotCsr, es: seq<nat>, v: nat, vertices: seq<nat>, edgeIds: seq<nat>)
  {
    && v < csr.VertexCount()
    && (forall k | 0 <= k < |es| :: es[k] < csr.EdgeCount() &&
          es[k] < |csr.neighbors| && csr.neighbors[es[k]] < csr.VertexCount())
    && |vertices| == |es| + 1 && vertices[0] == csr.vertexIds[v]
    && |edgeIds| == |es|
    && forall k | 0 <= k < |es| :: edgeIds[k] == csr.edgeIds[es[k]] &&
         vertices[k + 1] == csr.vertexIds[csr.neighbors[es[k]]]
  }

  /** `k` links have been followed from `target` to `current`; the lists hold what they passed, last first. */
  ghost predicate Walked(csr: SnapshotCsr, net: Net, s: Search, target: nat, k: nat, current: nat,
                         vertices: seq<nat>, edgeIds: seq<nat>, edgeIndices: seq<nat>)
  {
    && Solved(net, s) && target < net.n && s.times[target] < net.inf
    && current == Chain(net, s, target, k)
    && (forall j: nat | j < k :: Chain(net, s, target, j) != net.source)
    && Tail(net, s, Reversed(edgeIndices), current, target)
    && Visits(csr, Reversed(edgeIndices), current, Reversed(vertices), Reversed(edgeIds))
  }

  lemma WalkStart(csr: SnapshotCsr, w: Window, net: Net, s: Search, target: nat)
    requires csr.Valid() && net.source < csr.VertexCount() && net == ForwardNet(csr, w, net.source)
    requires Solved(net, s) && target < net.n && s.times[target] < net.inf
    ensures Walked(csr, net, s, target, 0, target, [csr.vertexIds[target]], [], [])
  {
    hide Solved;
    assert Reversed([csr.vertexIds[target]]) == [csr.vertexIds[target]];
  }

  /** Prepending an edge from `u` to `v` to what is visited after `v`. */
  lemma VisitsEarlier(csr: SnapshotCsr, es: seq<nat>, v: nat, vertices: seq<nat>, edgeIds: seq<nat>, u: nat, e: nat)
    requires Visits(csr, es, v, vertices, edgeIds) && u < csr.VertexCount() && e < csr.EdgeCount()
    requires e < |csr.neighbors| && csr.neighbors[e] == v
    ensures Visits(csr, [e] + es, u, [csr.vertexIds[u]] + vertices, [csr.edgeIds[e]] + edgeIds)
  {
  }

  lemma ChainNext(net: Net, s: Search, v: nat, k: nat)
    requires Solved(net, s) && v < net.n && s.times[v] < net.inf && Chain(net, s, v, k) != net.source
    ensures |s.links| == net.n && s.links[Chain(net, s, v, k)].Some?
    ensures Chain(net, s, v, k + 1) == s.links[Chain(net, s, v, k)].value.0
  {
    hide Solved;
    var u, e := LinkOf(net, s, Chain(net, s, v, k));
  }

  lemma WalkStep(csr: SnapshotCsr, w: Window, net: Net, s: Search, target: nat, k: nat, current: nat,
                 vertices: seq<nat>, edgeIds: seq<nat>, edgeIndices: seq<nat>)
    requires csr.Valid() && net.source < csr.VertexCount() && net == ForwardNet(csr, w, net.source)
    requires Walked(csr, net, s, target, k, current, vertices, edgeIds, edgeIndices) && current != net.source
    ensures current < |s.links| && s.links[current].Some?
    ensures var (u, e) := s.links[current].value;
            && u < csr.VertexCount() && e < csr.EdgeCount()
            && Walked(csr, net, s, target, k + 1, u,
                      vertices + [csr.vertexIds[u]], edgeIds + [csr.edgeIds[e]], edgeIndices + [e])
  {
    hide Solved, Reversed, SnapshotCsr.Transposed, Offsets, Visits, Tail, Chain;
    var u, e := LinkOf(net, s, current);
    var es := Reversed(edgeIndices);
    ExtendTail(net, s, es, current, target);
    ChainNext(net, s, target, k);
    assert net.arcs[e] == ForwardArc(csr, w, e);
    VisitsEarlier(csr, es, current, Reversed(vertices), Reversed(edgeIds), u, e);
    ReversedAppended(edgeIndices, e);
    ReversedAppended(vertices, csr.vertexIds[u]);
    ReversedAppended(edgeIds, csr.edgeIds[e]);
  }

  lemma WalkEnd(csr: SnapshotCsr, w: Window, net: Net, s: Search, target: nat, k: nat,
                vertices: seq<nat>, edgeIds: seq<nat>, edgeIndices: seq<nat>)
    requires csr.Valid() && net.source < csr.VertexCount() && net == ForwardNet(csr, w, net.source) && w.start <= w.end
    requires Walked(csr, net, s, target, k, net.source, vertices, edgeIds, edgeIndices)
    ensures var es := Reversed(edgeIndices);
            && net.Route(es, target) && net.Time(es, target) == s.times[target]
            && Visits(csr, es, net.source, Reversed(vertices), Reversed(edgeIds))
            && (es != [] ==>
                  EdgeTimes(csr, w, es[0]).Ok? &&
                  csr.EdgeInteger(w.departure, es[0]) == Some(EdgeTimes(csr, w, es[0]).value.0))
  {
    hide Reversed, SnapshotCsr.Transposed, Offsets;
    var es := Reversed(edgeIndices);
    TailIsRoute(net, s, es, target);
    if es == [] {
      assert net.Earliest(target, s.times[target]) && net.Route(es, target);
    } else {
      assert net.arcs[es[0]] == ForwardArc(csr, w, es[0]);
    }
  }

  /** A label lies inside the range of a timestamp. */
  lemma LabelInRange(csr: SnapshotCsr, w: Window, source: nat, s: Search, v: nat)
    requires csr.Valid() && source < csr.VertexCount() && v < csr.VertexCount() && w.start <= w.end
    requires Solved(ForwardNet(csr, w, source), s)
    ensures |s.times| == |s.links| == csr.VertexCount() && w.start <= s.times[v] <= I64_MAX
  {
    var net := ForwardNet(csr, w, source);
    assert net.Earliest(v, s.times[v]);
    if s.times[v] < I64_MAX {
      var es :| net.Route(es, v) && net.Time(es, v) == s.times[v];
    }
  }

  /** Walks the predecessor links from `target` back to `source`. */
  method BuildEarliestPath(csr: SnapshotCsr, w: Window, source: nat, target: nat, s: Search, guard: ExecutionGuard)
    returns (r: Result<Option<TemporalPath>, AnalyticsError>, ghost es: seq<nat>)
    requires csr.Valid() && source < csr.VertexCount() && target < csr.VertexCount() && w.start <= w.end
    requires Solved(ForwardNet(csr, w, source), s) && guard.reported.None?
    modifies guard
    ensures r == Ok(None) <==> s.times[target] == I64_MAX
    ensures r.Ok? && r.value.Some? ==>
              var path := r.value.value;
              && ForwardNet(csr, w, source).Route(es, target)
              && path.arrivalTime == s.times[target] == ForwardNet(csr, w, source).Time(es, target)
              && Visits(csr, es, source, path.vertices, path.edgeIds)
              && path.departureTime == if es == [] then path.arrivalTime else EdgeTimes(csr, w, es[0]).value.0
    ensures r.Err? ==> guard.reported == Some(r.error)
    // the walk follows the links: it takes as many steps as they do, and never ends when they avoid the source
    ensures s.times[target] < I64_MAX ==>
              forall k | Chain(ForwardNet(csr, w, source), s, target, k) == source ::
                  guard.workItems <= old(guard.workItems) + k
    ensures s.times[target] < I64_MAX && (forall k :: Chain(ForwardNet(csr, w, source), s, target, k) != source) ==>
              r.Err?
    // links that reach the source leave only the guard to stop the walk
    ensures s.times[target] < I64_MAX && r.Err? ==>
              Chain(ForwardNet(csr, w, source), s, target, csr.VertexCount()) == source ==>
                Stops(r.error, guard.cancelled, old(guard.workItems) + csr.VertexCount(), guard.maxWorkItems)
  {
    hide Walked, Solved, Chain, Visits, EdgeTimes, Reversed, Net.Valid, Net.Route;
    ghost var net := ForwardNet(csr, w, source);
    es := [];
    LabelInRange(csr, w, source, s, target);
    var arrivalTime: I64 := s.times[target];
    if arrivalTime == I64_MAX {
      return Ok(None), es;
    }
    var vertices, edgeIds, edgeIndices := [csr.vertexIds[target]], [], [];
    var current := target;
    ghost var k := 0;
    WalkStart(csr, w, net, s, target);
    while current != source
      invariant guard.reported.None? && current < csr.VertexCount()
      invariant guard.workItems == old(guard.workItems) + k
      invariant Walked(csr, net, s, target, k, current, vertices, edgeIds, edgeIndices)
      decreases guard.maxWorkItems + 1 - guard.workItems
    {
      AvoidsSource(csr, net, s, target, k, current, vertices, edgeIds, edgeIndices);
      StepsBefore(net, s, target, k, csr.VertexCount());
      :- guard.Step();
      WalkStep(csr, w, net, s, target, k, current, vertices, edgeIds, edgeIndices);
      if s.links[current].None? {
        return Err(InvalidRequest), es;
      }
      var (previous, edgeIndex) := s.links[current].value;
      vertices := vertices + [csr.vertexIds[previous]];
      edgeIds := edgeIds + [csr.edgeIds[edgeIndex]];
      edgeIndices := edgeIndices + [edgeIndex];
      current := previous;
      k := k + 1;
    }
    WalkEnd(csr, w, net, s, target, k, vertices, edgeIds, edgeIndices);
    AvoidsSource(csr, net, s, target, k, current, vertices, edgeIds, edgeIndices);
    edgeIndices := Reversed(edgeIndices);
    es := edgeIndices;
    var departureTime :=
      if edgeIndices == [] then arrivalTime
      else var t := csr.EdgeInteger(w.departure, edgeIndices[0]); if t.Some? then t.value else arrivalTime;
    return Ok(Some(TemporalPath(Reversed(vertices), Reversed(edgeIds), departureTime, arrivalTime))), es;
  }

  /** A chain that reaches the source within `n` steps has not used them up before it does. */
  lemma StepsBefore(net: Net, s: Search, v: nat, k: nat, n: nat)
    requires Solved(net, s) && v < net.n && s.times[v] < net.inf && Chain(net, s, v, k) != net.source
    ensures Chain(net, s, v, n) == net.source ==> k < n
  {
    hide Solved, Chain;
    if Chain(net, s, v, n) == net.source && n <= k { ChainStops(net, s, v, n, k); }
  }

  lemma AvoidsSource(csr: SnapshotCsr, net: Net, s: Search, target: nat, k: nat, current: nat,
                     vertices: seq<nat>, edgeIds: seq<nat>, edgeIndices: seq<nat>)
    requires Walked(csr, net, s, target, k, current, vertices, edgeIds, edgeIndices)
    ensures Solved(net, s) && target < net.n && s.times[target] < net.inf
    ensures current == Chain(net, s, target, k)
    ensures forall j: nat | j < k :: Chain(net, s, target, j) != net.source
  {
  }

  lemma SolvedIsEarliest(net: Net, s: Search, v: nat)
    requires Solved(net, s) && v < net.n
    ensures |s.times| == net.n && net.Earliest(v, s.times[v])
  {
  }

  /** The links that solve the problem lead from `v` back to the source. */
  ghost predicate LinksArrive(net: Net, v: nat)
  {
    v < net.n && forall s | Solved(net, s) && s.times[v] < net.inf :: exists k: nat :: Chain(net, s, v, k) == net.source
  }

  lemma LinksArriveIn(net: Net, s: Search, v: nat)
    requires net.Valid() && Solved(net, s) && v < net.n && s.times[v] < net.inf
    requires exists k: nat :: Chain(net, s, v, k) == net.source
    ensures LinksArrive(net, v)
  {
    hide Solved, Chain, Net.Valid;
    forall s' | Solved(net, s') ensures s' == s { SearchIsUnique(net, s, s'); }
  }

  lemma EdgesLastForward(csr: SnapshotCsr, w: Window, source: nat)
    requires csr.Valid() && source < csr.VertexCount() && EdgesLast(csr, w)
    ensures Lasting(ForwardNet(csr, w, source))
  {
    var net := ForwardNet(csr, w, source);
    forall i | 0 <= i < |net.arcs| && net.arcs[i].open ensures net.arcs[i].ready < net.arcs[i].done {
      assert net.arcs[i] == ForwardArc(csr, w, i);
    }
  }

  /**
   * The links of the target reach the source unless an instant loop leads there, and then a bounded walk follows them.
   */
  lemma LinksEnd(net: Net, s: Search, v: nat)
    requires net.Valid() && Solved(net, s) && v < net.n && s.times[v] < net.inf
    ensures (exists es, path :: Lasso(net, es, path, v)) || Chain(net, s, v, net.n) == net.source
  {
    hide Solved, Chain, Lasso, Net.Valid;
    if !exists es, path :: Lasso(net, es, path, v) { ChainReachesSource(net, s, v); }
  }

  lemma NoLasso(net: Net, v: nat)
    requires Lasting(net)
    ensures !exists es, path :: Lasso(net, es, path, v)
  {
    hide Lasso, Lasting;
    forall es, path ensures !Lasso(net, es, path, v) { LastingHasNoLasso(net, es, path, v); }
  }

  /** An instant loop from which the target can be reached. */
  ghost predicate LassoAhead(csr: SnapshotCsr, request: TemporalRequest)
    requires csr.Valid() && !Malformed(csr, request)
  {
    var net := ForwardNet(csr, RequestWindow(request).value, RequestVertex(csr, request.source).value);
    exists es, path :: Lasso(net, es, path, RequestVertex(csr, request.target).value)
  }

  ghost predicate LinksLeadBack(csr: SnapshotCsr, request: TemporalRequest)
    requires csr.Valid() && !Malformed(csr, request)
  {
    var net := ForwardNet(csr, RequestWindow(request).value, RequestVertex(csr, request.source).value);
    LinksArrive(net, RequestVertex(csr, request.target).value)
  }

  /**
   * Earliest arrival on all edge timings: what the answer means, which errors can stop it, and that on edges that take
   * time a sufficient budget always brings an answer.
   */
  method Compute(csr: SnapshotCsr, request: TemporalRequest, guard: ExecutionGuard)
    returns (r: Result<Option<TemporalPath>, AnalyticsError>, ghost es: seq<nat>)
    requires csr.Valid() && guard.reported.None?
    modifies guard
    ensures r.Err? ==>
              || (r.error == InvalidRequest && Malformed(csr, request))
              || (r.error == MissingProperty && TimesMissingFor(csr, request))
              || (guard.reported == Some(r.error) && !Malformed(csr, request)
                  && (|| Stops(r.error, guard.cancelled, old(guard.workItems) + SearchWork(csr) + csr.VertexCount(),
                               guard.maxWorkItems)
                      || Stops(r.error, guard.cancelled, old(guard.memoryBytes) + csr.VertexCount() * 24,
                               guard.maxMemoryBytes)
                      || LassoAhead(csr, request)))
    ensures Answerable(csr, request) && !guard.cancelled ==>
              Affordable(csr, old(guard.workItems), guard.maxWorkItems, old(guard.memoryBytes), guard.maxMemoryBytes)
              ==> r.Ok?
    ensures r.Ok? && r.value.Some? ==> !Malformed(csr, request) && LinksLeadBack(csr, request)
    ensures r.Ok? ==>
              RequestVertex(csr, request.source).Ok? && RequestVertex(csr, request.target).Ok?
                  && RequestWindow(request).Ok?
    ensures r.Ok? ==>
              var source, target, w :=
                  RequestVertex(csr, request.source).value, RequestVertex(csr, request.target).value,
                    RequestWindow(request).value;
              match r.value
              case None => forall es | Journey(csr, w, es, source, target) ::
                  ArrivalOf(csr, w, es, source, target) == I64_MAX
              case Some(path) =>
                && EarliestArrivalIs(csr, w, source, target, path.arrivalTime)
                && Journey(csr, w, es, source, target)
                && ArrivalOf(csr, w, es, source, target) == path.arrivalTime < I64_MAX
                && Visits(csr, es, source, path.vertices, path.edgeIds)
                && path.departureTime == if es == [] then path.arrivalTime else DepartureOf(csr, w, es, source, target)
  {
    hide Solved, Chain, Lasso, Lasting, LinksArrive, EdgesLast, SearchWork, Net.Valid, Visits, Net.Route;
    es := [];
    var source :- RequestVertex(csr, request.source);
    var target :- RequestVertex(csr, request.target);
    var w :- RequestWindow(request);
    var s :- SearchForward(csr, w, source, guard);
    LabelInRange(csr, w, source, s, target);
    SolvedIsEarliest(ForwardNet(csr, w, source), s, target);
    LabelIsArrival(csr, w, source, target, s.times[target]);
    r, es := BuildEarliestPath(csr, w, source, target, s, guard);
    JourneyIsRoute(csr, w, es, source, target);
    ghost var net := ForwardNet(csr, w, source);
    if s.times[target] < I64_MAX {
      LinksEnd(net, s, target);
      if r.Ok? { LinksArriveIn(net, s, target); }
    }
    if EdgesLast(csr, w) {
      EdgesLastForward(csr, w, source);
      NoLasso(net, target);
    }
  }

  /** Edges that take no time between the first two vertices, and one from the third that reaches the second. */
  const LOOP_CSR: SnapshotCsr :=
    SnapshotCsr([1, 2, 3], [0, 1, 2, 3], [1, 0, 1], [1, 2, 3], None, map[],
                map["departs" := [Some(Integer(5)), Some(Integer(5)), Some(Integer(0))],
                    "arrives" := [Some(Integer(5)), Some(Integer(5)), Some(Integer(5))]])
  const LOOP_REQUEST: TemporalRequest :=
      TemporalRequest(Some(3), Some(1), Some("departs"), Some("arrives"), Some(0), Some(10))
  const LOOP_WINDOW: Window := Window("departs", "arrives", 0, 10)

  lemma LoopRequest()
    ensures RequestVertex(LOOP_CSR, LOOP_REQUEST.source) == Ok(2)
    ensures RequestVertex(LOOP_CSR, LOOP_REQUEST.target) == Ok(0)
    ensures RequestWindow(LOOP_REQUEST) == Ok(LOOP_WINDOW)
  {
  }

  lemma LoopSnapshot()
    ensures LOOP_CSR.Valid() && ForwardNet(LOOP_CSR, LOOP_WINDOW, 2) == LOOP_NET
  {
    hide SnapshotCsr.Valid;
    LoopIsValid();
    var net := ForwardNet(LOOP_CSR, LOOP_WINDOW, 2);
    LoopArcs(LOOP_CSR, LOOP_WINDOW);
    assert net.arcs == LOOP_NET.arcs;
  }

  lemma LoopIsValid()
    ensures LOOP_CSR.Valid()
  {
  }

  lemma LoopArcs(csr: SnapshotCsr, w: Window)
    requires csr.Valid() && csr.offsets == [0, 1, 2, 3] && csr.neighbors == [1, 0, 1] && w.start == 0 && w.end == 10
    requires EdgeTimes(csr, w, 0) == Ok((5, 5)) && EdgeTimes(csr, w, 1) == Ok((5, 5))
    requires EdgeTimes(csr, w, 2) == Ok((0, 5))
    ensures csr.EdgeCount() == 3
    ensures ForwardArc(csr, w, 0) == LOOP_NET.arcs[0] && ForwardArc(csr, w, 1) == LOOP_NET.arcs[1]
    ensures ForwardArc(csr, w, 2) == LOOP_NET.arcs[2]
  {
    hide EdgeTimes;
    assert InRange(csr.offsets, 0, 0) && InRange(csr.offsets, 1, 1) && InRange(csr.offsets, 2, 2);
    csr.SourceOf(0, 0);
    csr.SourceOf(1, 1);
    csr.SourceOf(2, 2);
  }

  /** There is a journey, but the links do not lead back along any. */
  lemma LoopFacts()
    ensures LOOP_CSR.Valid() && !LinksArrive(ForwardNet(LOOP_CSR, LOOP_WINDOW, 2), 0)
    ensures exists es :: Journey(LOOP_CSR, LOOP_WINDOW, es, 2, 0) && ArrivalOf(LOOP_CSR, LOOP_WINDOW, es, 2, 0) == 5
  {
    hide LOOP_CSR, LOOP_NET, LOOP_SEARCH, Solved, Chain;
    LoopSnapshot();
    InstantArcsCanLoop();
    var es := LoopRoute();
    JourneyIsRoute(LOOP_CSR, LOOP_WINDOW, es, 2, 0);
  }

  lemma LoopRoute() returns (es: seq<nat>)
    ensures LOOP_NET.Route(es, 0) && LOOP_NET.Time(es, 0) == 5
  {
    LoopRoutes(LOOP_NET);
    es :| LOOP_NET.Route(es, 0) && LOOP_NET.Time(es, 0) == 5;
  }

  /** On that snapshot the request is sound and the target can be reached, and yet no budget brings an answer. */
  method ComputeOnLoop(guard: ExecutionGuard) returns (r: Result<Option<TemporalPath>, AnalyticsError>)
    requires guard.reported.None?
    modifies guard
    ensures LOOP_CSR.Valid()
    ensures exists es :: Journey(LOOP_CSR, LOOP_WINDOW, es, 2, 0) && ArrivalOf(LOOP_CSR, LOOP_WINDOW, es, 2, 0) == 5
    ensures r.Err?
  {
    hide LOOP_CSR, LinksArrive, Lasso;
    LoopFacts();
    LoopRequest();
    ghost var es;
    r, es := Compute(LOOP_CSR, LOOP_REQUEST, guard);
  }
}

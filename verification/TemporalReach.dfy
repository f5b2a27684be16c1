/** Temporal reachability: sweep all edges in rounds until nothing improves. */
module TemporalReach {
  import opened Wrappers
  import opened Guard
  import opened Csr
  import opened TimedRoutes
  import opened Temporal

  /** Midway through a round: the arcs before `e` have been tried since the times were `before`. */
  ghost predicate Sweeping(net: Net, before: seq<int>, times: seq<int>, e: nat)
    requires net.Valid()
  {
    && net.Times(times) && net.Attained(times) && |before| == net.n
    && (forall v | 0 <= v < net.n :: times[v] <= before[v])
    && forall i: nat | i < e && i < |net.arcs| && net.arcs[i].open && before[net.arcs[i].from] <= net.arcs[i].ready ::
         times[net.arcs[i].to] <= net.arcs[i].done
  }

  lemma SweepOne(net: Net, before: seq<int>, times: seq<int>, e: nat)
    requires net.Valid() && e < |net.arcs| && Sweeping(net, before, times, e)
    ensures var a := net.arcs[e];
            var improves := a.open && times[a.from] <= a.ready && a.done < times[a.to];
            Sweeping(net, before, if improves then times[a.to := a.done] else times, e + 1)
  {
    hide Net.Attained, Net.Route;
    var a := net.arcs[e];
    if a.open && times[a.from] <= a.ready && a.done < times[a.to] {
      net.Attain(times, e);
    }
  }

  /** A row that starts at the time "never" has nothing to offer. */
  lemma SkipRow(csr: SnapshotCsr, w: Window, net: Net, before: seq<int>, times: seq<int>, vertex: nat)
    requires csr.Valid() && w.start <= w.end && net.source < csr.VertexCount() && net == ForwardNet(csr, w, net.source)
    requires vertex < csr.VertexCount() && Sweeping(net, before, times, csr.offsets[vertex]) && times[vertex] == I64_MAX
    ensures Sweeping(net, before, times, csr.offsets[vertex + 1])
  {
    forall i: nat | csr.offsets[vertex] <= i < csr.offsets[vertex + 1]
      ensures i < |net.arcs| && net.arcs[i].from == vertex
    {
      csr.SourceOf(vertex, i);
      assert net.arcs[i] == ForwardArc(csr, w, i);
    }
  }

  method SweepRow(csr: SnapshotCsr, w: Window, ghost net: Net, ghost before: seq<int>, times0: seq<int>,
                  changed0: bool, vertex: nat, guard: ExecutionGuard)
    returns (r: Result<(seq<int>, bool), AnalyticsError>)
    requires csr.Valid() && w.start <= w.end && net.source < csr.VertexCount() && net == ForwardNet(csr, w, net.source)
    requires vertex < csr.VertexCount() && Sweeping(net, before, times0, csr.offsets[vertex]) && guard.reported.None?
    requires !changed0 ==> times0 == before
    modifies guard
    ensures r.Ok? ==> Sweeping(net, before, r.value.0, csr.offsets[vertex + 1]) && guard.reported.None?
    ensures r.Ok? && !r.value.1 ==> r.value.0 == before
    ensures r.Err? ==> guard.reported == Some(r.error) || (r.error == MissingProperty && TimesMissing(csr, w))
  {
    hide Sweeping, Net.Attained;
    var times, changed := times0, changed0;
    var e := csr.offsets[vertex];
    while e < csr.offsets[vertex + 1]
      invariant csr.offsets[vertex] <= e <= csr.offsets[vertex + 1] && guard.reported.None?
      invariant Sweeping(net, before, times, e)
      invariant !changed ==> times == before
    {
      :- guard.Step();
      csr.SourceOf(vertex, e);
      assert net.arcs[e] == ForwardArc(csr, w, e);
      var edgeTimes :- EdgeTimes(csr, w, e);
      var (departure, arrival) := edgeTimes;
      SweepingLength(net, before, times, e);
      SweepOne(net, before, times, e);
      if departure >= times[vertex] && departure >= w.start && arrival >= departure && arrival <= w.end {
        var neighbor := csr.neighbors[e];
        if arrival < times[neighbor] {
          times := times[neighbor := arrival];
          changed := true;
        }
      }
      e := e + 1;
    }
    return Ok((times, changed));
  }

  method Sweep(csr: SnapshotCsr, w: Window, ghost net: Net, before: seq<int>, guard: ExecutionGuard)
    returns (r: Result<(seq<int>, bool), AnalyticsError>)
    requires csr.Valid() && w.start <= w.end && net.source < csr.VertexCount() && net == ForwardNet(csr, w, net.source)
    requires net.Times(before) && net.Attained(before) && guard.reported.None?
    modifies guard
    ensures r.Ok? ==> Sweeping(net, before, r.value.0, csr.EdgeCount()) && guard.reported.None?
    ensures r.Ok? && !r.value.1 ==> r.value.0 == before
    ensures r.Err? ==> guard.reported == Some(r.error) || (r.error == MissingProperty && TimesMissing(csr, w))
  {
    var times, changed := before, false;
    var vertex := 0;
    assert Sweeping(net, before, times, 0);
    hide Sweeping;
    while vertex < csr.VertexCount()
      invariant 0 <= vertex <= csr.VertexCount() && guard.reported.None?
      invariant |times| == csr.VertexCount() && Sweeping(net, before, times, csr.offsets[vertex])
      invariant !changed ==> times == before
    {
      :- guard.Step();
      if times[vertex] == I64_MAX {
        SkipRow(csr, w, net, before, times, vertex);
      } else {
        var swept :- SweepRow(csr, w, net, before, times, changed, vertex, guard);
        SweepingLength(net, before, swept.0, csr.offsets[vertex + 1]);
        times, changed := swept.0, swept.1;
      }
      vertex := vertex + 1;
    }
    return Ok((times, changed));
  }

  lemma SweepingLength(net: Net, before: seq<int>, times: seq<int>, e: nat)
    requires net.Valid() && Sweeping(net, before, times, e)
    ensures |times| == |before| == net.n && net.Times(times) && net.Attained(times)
    ensures e >= |net.arcs| ==> net.Swept(before, times)
  {
  }

  lemma WithinNone(net: Net, times: seq<int>)
    requires net.Valid() && net.Times(times)
    ensures net.Within(times, 0)
  {
  }

  /** A round without change leaves nothing to improve. */
  lemma QuietIsEarliest(net: Net, times: seq<int>)
    requires net.Valid() && net.Times(times) && net.Attained(times) && net.Swept(times, times)
    ensures forall v: nat | v < net.n :: net.Earliest(v, times[v])
  {
    net.ClosedIsEarliest(times);
  }

  lemma StartTimes(net: Net)
    requires net.Valid()
    ensures var times := seq(net.n, v => if v == net.source then net.t0 else net.inf);
            net.Times(times) && net.Attained(times)
  {
    assert net.Route([], net.source) && net.Time([], net.source) == net.t0;
  }

  /** The earliest arrival at every vertex, by at most as many rounds as there are vertices. */
  method Arrivals(csr: SnapshotCsr, w: Window, source: nat, guard: ExecutionGuard)
    returns (r: Result<seq<int>, AnalyticsError>)
    requires csr.Valid() && w.start <= w.end && source < csr.VertexCount() && guard.reported.None?
    modifies guard
    ensures r.Ok? ==> |r.value| == csr.VertexCount() && guard.reported.None?
    ensures r.Ok? ==> forall v: nat | v < csr.VertexCount() :: ForwardNet(csr, w, source).Earliest(v, r.value[v])
    ensures r.Err? ==> guard.reported == Some(r.error) || (r.error == MissingProperty && TimesMissing(csr, w))
  {
    hide Sweeping, Net.Earliest, Net.Attained, Net.Within, Net.Swept, Net.Route;
    var n := csr.VertexCount();
    :- guard.Reserve(n * 8);
    ghost var net := ForwardNet(csr, w, source);
    var times := seq(n, v => if v == source then w.start else I64_MAX);
    StartTimes(net);
    assert times == seq(net.n, v => if v == net.source then net.t0 else net.inf);
    WithinNone(net, times);
    var round := 0;
    while round < n
      invariant 0 <= round <= n && guard.reported.None?
      invariant net.Times(times) && net.Attained(times) && net.Within(times, round)
    {
      :- guard.Step();
      var swept :- Sweep(csr, w, net, times, guard);
      SweepingLength(net, times, swept.0, csr.EdgeCount());
      if !swept.1 {
        QuietIsEarliest(net, times);
        return Ok(times);
      }
      net.SweepExtends(times, swept.0, round);
      times := swept.0;
      round := round + 1;
    }
    net.RoundsAreEarliest(times);
    return Ok(times);
  }

  /** The vertices some journey reaches before the end of time, in ascending order. */
  method Compute(csr: SnapshotCsr, request: TemporalRequest, guard: ExecutionGuard)
    returns (r: Result<seq<nat>, AnalyticsError>)
    requires csr.Valid() && guard.reported.None?
    modifies guard
    ensures r.Err? ==>
              || guard.reported == Some(r.error)
              || (r.error == InvalidRequest && (RequestVertex(csr, request.source).Err? || RequestWindow(request).Err?))
              || (r.error == MissingProperty && RequestWindow(request).Ok? &&
                  TimesMissing(csr, RequestWindow(request).value))
    ensures r.Ok? ==> RequestVertex(csr, request.source).Ok? && RequestWindow(request).Ok?
    ensures r.Ok? ==> forall i, j | 0 <= i < j < |r.value| :: r.value[i] < r.value[j]
    ensures r.Ok? ==> forall id | id in r.value :: id in csr.vertexIds
    ensures r.Ok? ==> forall v: nat | v < csr.VertexCount() ::
              var source, w := RequestVertex(csr, request.source).value, RequestWindow(request).value;
              csr.vertexIds[v] in r.value <==> Reachable(csr, w, source, v)
  {
    var source :- RequestVertex(csr, request.source);
    var w :- RequestWindow(request);
    var times :- Arrivals(csr, w, source, guard);
    var reachable :- Collect(csr, times, guard);
    forall u: nat | u < csr.VertexCount()
      ensures csr.vertexIds[u] in reachable <==> Reachable(csr, w, source, u)
    {
      LabelIsReachable(csr, w, source, u, times[u]);
    }
    return Ok(reachable);
  }

  /** The identifiers of the vertices with a finite time. */
  method Collect(csr: SnapshotCsr, times: seq<int>, guard: ExecutionGuard)
    returns (r: Result<seq<nat>, AnalyticsError>)
    requires csr.Valid() && |times| == csr.VertexCount() && guard.reported.None?
    modifies guard
    ensures r.Err? ==> guard.reported == Some(r.error)
    ensures r.Ok? ==> forall i, j | 0 <= i < j < |r.value| :: r.value[i] < r.value[j]
    ensures r.Ok? ==> forall id | id in r.value :: id in csr.vertexIds
    ensures r.Ok? ==> forall v: nat | v < csr.VertexCount() :: csr.vertexIds[v] in r.value <==> times[v] != I64_MAX
  {
    var reachable: seq<nat> := [];
    ghost var chosen: seq<nat> := [];
    var v := 0;
    while v < csr.VertexCount()
      invariant 0 <= v <= csr.VertexCount() && guard.reported.None? && |chosen| == |reachable|
      invariant forall i | 0 <= i < |chosen| ::
          chosen[i] < v && times[chosen[i]] != I64_MAX && reachable[i] == csr.vertexIds[chosen[i]]
      invariant forall i, j | 0 <= i < j < |chosen| :: chosen[i] < chosen[j]
      invariant forall u: nat | u < v && times[u] != I64_MAX :: csr.vertexIds[u] in reachable
    {
      :- guard.Step();
      if times[v] != I64_MAX {
        reachable := reachable + [csr.vertexIds[v]];
        chosen := chosen + [v];
      }
      v := v + 1;
    }
    return Ok(reachable);
  }

  ghost predicate Reachable(csr: SnapshotCsr, w: Window, source: nat, v: nat)
    requires csr.Valid()
  {
    exists es :: Journey(csr, w, es, source, v) && ArrivalOf(csr, w, es, source, v) < I64_MAX
  }

  /** Reachable means exactly that the earliest-arrival search finds a finite label. */
  lemma LabelIsReachable(csr: SnapshotCsr, w: Window, source: nat, v: nat, t: int)
    requires csr.Valid() && w.start <= w.end && source < csr.VertexCount() && ForwardNet(csr, w, source).Earliest(v, t)
    ensures t != I64_MAX <==> Reachable(csr, w, source, v)
  {
    LabelIsArrival(csr, w, source, v, t);
  }
}

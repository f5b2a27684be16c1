/** Latest departure: the same search run backwards from the target over the reverse rows. */
module LatestDeparture {
  import opened Wrappers
  import opened Guard
  import opened Csr
  import opened FiniteSets
  import opened Sequences
  import opened TimedRoutes
  import opened LabelSetting
  import opened Temporal
  import E = EarliestArrival

  ghost function BackwardArc(csr: SnapshotCsr, w: Window, e: nat): Arc
    requires csr.Valid() && e < csr.EdgeCount()
  {
    var times := EdgeTimes(csr, w, e);
    Arc(csr.neighbors[e], csr.Source(e),
        if times.Ok? then -(times.value.1 as int) else 0, if times.Ok? then -(times.value.0 as int)
        else 0, Admissible(csr, w, e))
  }

  /** Travelling backward: ready at the arrival and done at the departure, with time negated. */
  ghost function BackwardNet(csr: SnapshotCsr, w: Window, target: nat): (net: Net)
    requires csr.Valid() && target < csr.VertexCount()
    ensures w.start <= w.end ==> net.Valid()
    ensures |net.arcs| == csr.EdgeCount()
    ensures forall e | 0 <= e < csr.EdgeCount() :: net.arcs[e] == BackwardArc(csr, w, e)
  {
    Net(seq(csr.EdgeCount(), e requires 0 <= e < csr.EdgeCount() => BackwardArc(csr, w, e)),
        csr.VertexCount(), target, -(w.end as int), -I64_MIN)
  }

  /** The label of a latest departure in backward time. */
  ghost function Negated(latest: seq<int>): (times: seq<int>)
    ensures |times| == |latest| && forall v | 0 <= v < |latest| :: times[v] == -latest[v]
  {
    seq(|latest|, v requires 0 <= v < |latest| => -latest[v])
  }

  ghost function Mirror(latest: seq<int>, successor: seq<Link>): Search
  {
    Search(Negated(latest), successor)
  }

  lemma MirrorUpdate(latest: seq<int>, successor: seq<Link>, v: nat, departure: int, link: Link)
    requires v < |latest| == |successor|
    ensures Mirror(latest[v := departure], successor[v := link]) ==
            Search(Negated(latest)[v := -departure], successor[v := link])
  {
    assert Negated(latest[v := departure]) == Negated(latest)[v := -departure];
  }

  /** The unsettled vertex with the latest departure, the lowest index first. */
  method SelectLatest(latest: seq<int>, settled: seq<bool>, ghost done: set<nat>, guard: ExecutionGuard)
    returns (r: Result<Option<nat>, AnalyticsError>)
    requires |latest| == |settled| && Marks(settled, done) && guard.reported.None?
    modifies guard
    ensures r.Ok? ==> guard.reported.None?
    ensures r == Ok(None) ==> forall v: nat | v < |latest| && v !in done :: latest[v] == I64_MIN
    ensures r.Ok? && r.value.Some? ==>
              r.value.value < |latest| && r.value.value !in done && latest[r.value.value] != I64_MIN
    ensures r.Ok? && r.value.Some? ==>
              forall v: nat | v < |latest| && v !in done && latest[v] != I64_MIN :: latest[v] <= latest[r.value.value]
    ensures guard.memoryBytes == old(guard.memoryBytes) && guard.workItems <= old(guard.workItems) + |latest|
    ensures r.Err? ==>
              guard.reported == Some(r.error)
                  && Stops(r.error, guard.cancelled, old(guard.workItems) + |latest|, guard.maxWorkItems)
  {
    var current: Option<nat> := None;
    var v := 0;
    while v < |latest|
      invariant 0 <= v <= |latest| && guard.reported.None?
      invariant guard.memoryBytes == old(guard.memoryBytes) && guard.workItems == old(guard.workItems) + v
      invariant current.None? ==> forall x: nat | x < v && x !in done :: latest[x] == I64_MIN
      invariant current.Some? ==> current.value < v && current.value !in done && latest[current.value] != I64_MIN
      invariant current.Some? ==>
                forall x: nat | x < v && x !in done && latest[x] != I64_MIN :: latest[x] <= latest[current.value]
    {
      :- guard.Step();
      if !settled[v] && latest[v] != I64_MIN
         && (current.None? || latest[v] > latest[current.value] ||
             (latest[v] == latest[current.value] && v < current.value)) {
        current := Some(v);
      }
      v := v + 1;
    }
    return Ok(current);
  }

  /** The reverse row of `vertex` lists exactly the arcs that leave it in backward time. */
  lemma LeavesNext(csr: SnapshotCsr, w: Window, net: Net, vertex: nat, done: set<nat>, used: set<nat>, used': set<nat>)
    requires csr.Valid() && csr.reverse.Some? && net.source < csr.VertexCount()
    requires net == BackwardNet(csr, w, net.source)
    requires vertex in done && vertex < csr.VertexCount() && E.LeavesOf(net, done - {vertex}, used)
    requires var reverse := csr.reverse.value;
      forall i: nat :: i in used' <==> i in used || InRow(csr, reverse, vertex, reverse.offsets[vertex + 1], i)
    ensures E.LeavesOf(net, done, used')
  {
    var reverse := csr.reverse.value;
    forall i: nat | i < |net.arcs|
      ensures i in used' <==> net.arcs[i].from in done
    {
      assert net.arcs[i] == BackwardArc(csr, w, i);
      var p := csr.PositionOf(i);
      if csr.neighbors[i] == vertex {
        assert InRow(csr, reverse, vertex, reverse.offsets[vertex + 1], i);
      }
      if InRow(csr, reverse, vertex, reverse.offsets[vertex + 1], i) {
        RowEnters(csr, vertex, i);
      }
    }
  }

  lemma RowEnters(csr: SnapshotCsr, vertex: nat, i: nat)
    requires csr.Valid() && csr.reverse.Some? && vertex < csr.VertexCount() && i < csr.EdgeCount()
    requires InRow(csr, csr.reverse.value, vertex, csr.reverse.value.offsets[vertex + 1], i)
    ensures csr.neighbors[i] == vertex
  {
    var reverse := csr.reverse.value;
    var q: nat :| reverse.offsets[vertex] <= q < reverse.offsets[vertex + 1] && q < |reverse.forwardEdgeIndices|
        && reverse.forwardEdgeIndices[q] == i;
    assert InRange(reverse.offsets, vertex, q);
  }

  /** Edge `e` stands in the reverse row of `vertex` before position `limit`. */
  ghost predicate InRow(csr: SnapshotCsr, reverse: ReverseCsr, vertex: nat, limit: nat, e: nat)
  {
    exists q: nat :: vertex < |reverse.offsets| && reverse.offsets[vertex] <= q < limit
        && q < |reverse.forwardEdgeIndices| && reverse.forwardEdgeIndices[q] == e
  }

  /** A position of the row holds an edge that was not used before its vertex was settled, nor earlier in the row. */
  lemma RowIsNew(csr: SnapshotCsr, w: Window, net: Net, vertex: nat, done: set<nat>, used: set<nat>, p: nat)
    requires csr.Valid() && csr.reverse.Some? && net.source < csr.VertexCount()
    requires net == BackwardNet(csr, w, net.source)
    requires E.LeavesOf(net, done - {vertex}, used) && InRange(csr.reverse.value.offsets, vertex, p)
    ensures p < csr.EdgeCount() && csr.reverse.value.forwardEdgeIndices[p] < csr.EdgeCount()
    ensures csr.reverse.value.forwardEdgeIndices[p] !in used
    ensures !InRow(csr, csr.reverse.value, vertex, p, csr.reverse.value.forwardEdgeIndices[p])
    ensures |csr.reverse.value.neighbors| == csr.EdgeCount() && csr.reverse.value.neighbors[p] < csr.VertexCount()
    ensures csr.Source(csr.reverse.value.forwardEdgeIndices[p]) == csr.reverse.value.neighbors[p]
    ensures csr.neighbors[csr.reverse.value.forwardEdgeIndices[p]] == vertex
  {
    var r := csr.reverse.value;
    assert r.offsets[vertex + 1] <= r.offsets[csr.VertexCount()];
    assert net.arcs[r.forwardEdgeIndices[p]] == BackwardArc(csr, w, r.forwardEdgeIndices[p]);
    csr.SourceOf(r.neighbors[p], r.forwardEdgeIndices[p]);
  }

  lemma RowShape(csr: SnapshotCsr, vertex: nat)
    requires csr.Valid() && csr.reverse.Some? && vertex < csr.VertexCount()
    ensures var r := csr.reverse.value;
      |r.forwardEdgeIndices| == |r.neighbors| == csr.EdgeCount() && |r.offsets| == csr.VertexCount() + 1
          && r.offsets[vertex] <= r.offsets[vertex + 1] <= csr.EdgeCount()
  {
    assert csr.reverse.value.offsets[vertex + 1] <= csr.reverse.value.offsets[csr.VertexCount()];
  }

  lemma RowStarts(csr: SnapshotCsr, reverse: ReverseCsr, vertex: nat)
    requires vertex < |reverse.offsets|
    ensures forall i: nat :: !InRow(csr, reverse, vertex, reverse.offsets[vertex], i)
  {
  }

  lemma RowGoesOn(csr: SnapshotCsr, reverse: ReverseCsr, vertex: nat, p: nat)
    requires vertex < |reverse.offsets| && reverse.offsets[vertex] <= p < |reverse.forwardEdgeIndices|
    ensures forall i: nat :: InRow(csr, reverse, vertex, p + 1, i) <==>
      InRow(csr, reverse, vertex, p, i) || i == reverse.forwardEdgeIndices[p]
  {
    forall i: nat
      ensures InRow(csr, reverse, vertex, p + 1, i)
           <==> InRow(csr, reverse, vertex, p, i) || i == reverse.forwardEdgeIndices[p]
    {
    }
  }

  /** Relaxing an arc in backward time, said of latest departures. */
  lemma RelaxMirrored(csr: SnapshotCsr, w: Window, net: Net, latest: seq<int>, successor: seq<Link>, vertex: nat,
                      e: nat)
    requires csr.Valid() && net.source < csr.VertexCount() && net == BackwardNet(csr, w, net.source) && net.Valid()
    requires |latest| == |successor| == net.n && e < csr.EdgeCount() && csr.neighbors[e] == vertex
    requires EdgeTimes(csr, w, e).Ok?
    ensures e < |net.arcs| && net.arcs[e].from == vertex < net.n && net.arcs[e].to == csr.Source(e) < net.n
    ensures var s, u, (departure, arrival) := Mirror(latest, successor), csr.Source(e), EdgeTimes(csr, w, e).value;
      Relax(net, s, e) ==
        if departure < w.start || arrival < departure || arrival > latest[vertex] || arrival > w.end then s
        else if departure > latest[u]
            || (departure == latest[u] && (successor[u].None? || Before((vertex, e), successor[u].value)))
        then Mirror(latest[u := departure], successor[u := Some((vertex, e))])
        else s
  {
    hide SnapshotCsr.Transposed;
    assert net.arcs[e] == BackwardArc(csr, w, e);
    csr.SourceOf(csr.Source(e), e);
    MirrorUpdate(latest, successor, csr.Source(e), EdgeTimes(csr, w, e).value.0, Some((vertex, e)));
  }

  lemma RelaxedMirror(csr: SnapshotCsr, w: Window, net: Net, latest: seq<int>, successor: seq<Link>, vertex: nat,
                      done: set<nat>, used: set<nat>, e: nat)
    requires csr.Valid() && net.source < csr.VertexCount() && net == BackwardNet(csr, w, net.source) && net.Valid()
    requires |latest| == |successor| == net.n && e < csr.EdgeCount() && csr.neighbors[e] == vertex
    requires EdgeTimes(csr, w, e).Ok?
    requires vertex in done && Progress(net, Mirror(latest, successor), done, used, -latest[vertex])
    ensures csr.Source(e) < net.n
    ensures var s, u, (departure, arrival) := Mirror(latest, successor), csr.Source(e), EdgeTimes(csr, w, e).value;
      if departure < w.start || arrival < departure || arrival > latest[vertex] || arrival > w.end then
        Progress(net, s, done, used + {e}, -latest[vertex])
      else if departure > latest[u]
          || (departure == latest[u] && (successor[u].None? || Before((vertex, e), successor[u].value))) then
        latest[u := departure][vertex] == latest[vertex]
        && Progress(net, Mirror(latest[u := departure], successor[u := Some((vertex, e))]),
                    done, used + {e}, -latest[vertex])
      else Progress(net, s, done, used + {e}, -latest[vertex])
  {
    hide Progress, SnapshotCsr.Transposed, Offsets, Net.Valid, Relax, Before;
    RelaxMirrored(csr, w, net, latest, successor, vertex, e);
    Relaxed(net, Mirror(latest, successor), done, used, e);
  }

  /** Tries every edge into the vertex settled last. */
  method RelaxIncoming(csr: SnapshotCsr, w: Window, ghost net: Net, latest0: seq<int>, successor0: seq<Link>,
                       vertex: nat,
                       ghost done: set<nat>, ghost used0: set<nat>, guard: ExecutionGuard)
    returns (r: Result<Search, AnalyticsError>, ghost used: set<nat>)
    requires csr.Valid() && csr.reverse.Some? && net.source < csr.VertexCount()
    requires net == BackwardNet(csr, w, net.source) && w.start <= w.end
    requires vertex in done && vertex < csr.VertexCount() && guard.reported.None?
    requires |latest0| == net.n && Progress(net, Mirror(latest0, successor0), done, used0, -latest0[vertex])
    requires E.LeavesOf(net, done - {vertex}, used0)
    modifies guard
    ensures r.Ok? ==> guard.reported.None? && E.LeavesOf(net, done, used)
    ensures r.Ok? ==>
              |r.value.times| == net.n
                  && Progress(net, Mirror(r.value.times, r.value.links), done, used, -r.value.times[vertex])
    ensures guard.memoryBytes == old(guard.memoryBytes)
    ensures r.Ok? ==>
              guard.workItems == old(guard.workItems) + |used| - |used0| && forall e | e in used :: e < csr.EdgeCount()
    ensures r.Err? ==>
              || (guard.reported == Some(r.error)
                  && Stops(r.error, guard.cancelled, old(guard.workItems) + csr.EdgeCount() - |used0|,
                           guard.maxWorkItems))
              || (r.error == MissingProperty && TimesMissing(csr, w))
  {
    hide Progress, E.LeavesOf, SnapshotCsr.Transposed, Offsets, Relax, Before, Net.Valid, BackwardNet, BackwardArc,
      EdgeTimes, TimesMissing, InRow;
    BackwardShape(csr, w, net.source);
    RowShape(csr, vertex);
    RowStarts(csr, csr.reverse.value, vertex);
    used := used0;
    var latest, successor := latest0, successor0;
    var reverse := csr.reverse.value;
    var p := reverse.offsets[vertex];
    while p < reverse.offsets[vertex + 1]
      invariant reverse.offsets[vertex] <= p <= reverse.offsets[vertex + 1] && guard.reported.None?
      invariant guard.memoryBytes == old(guard.memoryBytes)
      invariant guard.workItems == old(guard.workItems) + |used| - |used0|
      invariant |latest| == net.n && Progress(net, Mirror(latest, successor), done, used, -latest[vertex])
      invariant forall i: nat :: i in used <==> i in used0 || InRow(csr, reverse, vertex, p, i)
    {
      assert InRange(reverse.offsets, vertex, p);
      RowIsNew(csr, w, net, vertex, done, used0, p);
      E.TimesBelow(net, Mirror(latest, successor), done, used, -latest[vertex]);
      BelowRange(csr.EdgeCount(), used + {reverse.forwardEdgeIndices[p]});
      :- guard.Step();
      var e, u := reverse.forwardEdgeIndices[p], reverse.neighbors[p];
      MissingTimes(csr, w, e);
      var times :- EdgeTimes(csr, w, e);
      var (departure, arrival) := times;
      RelaxedMirror(csr, w, net, latest, successor, vertex, done, used, e);
      if !(departure < w.start || arrival < departure || arrival > latest[vertex] || arrival > w.end) {
        var stable := successor[u].None? || Before((vertex, e), successor[u].value);
        if departure > latest[u] || (departure == latest[u] && stable) {
          latest, successor := latest[u := departure], successor[u := Some((vertex, e))];
        }
      }
      RowGoesOn(csr, reverse, vertex, p);
      used := used + {e};
      p := p + 1;
    }
    LeavesNext(csr, w, net, vertex, done, used0, used);
    E.TimesBelow(net, Mirror(latest, successor), done, used, -latest[vertex]);
    return Ok(Search(latest, successor)), used;
  }

  lemma BackwardShape(csr: SnapshotCsr, w: Window, target: nat)
    requires csr.Valid() && target < csr.VertexCount()
    ensures var net := BackwardNet(csr, w, target);
      net.n == csr.VertexCount() && net.source == target && net.t0 == -(w.end as int) && net.inf == -I64_MIN
  {
  }

  lemma StartedBackward(csr: SnapshotCsr, w: Window, target: nat, latest: seq<int>, successor: seq<Link>)
    requires csr.Valid() && target < csr.VertexCount() && w.start <= w.end
    requires |latest| == |successor| == csr.VertexCount()
    requires forall v: nat | v < csr.VertexCount() ::
        latest[v] == (if v == target then w.end else I64_MIN) && successor[v] == None
    ensures Progress(BackwardNet(csr, w, target), Mirror(latest, successor), {}, {}, -(w.end as int))
  {
    var net := BackwardNet(csr, w, target);
    Started(net);
    assert Mirror(latest, successor).times == Start(net).times && Mirror(latest, successor).links == Start(net).links;
  }

  lemma SettleLatest(net: Net, latest: seq<int>, successor: seq<Link>, done: set<nat>, used: set<nat>, top: int, v: nat)
    requires net.Valid() && net.inf == -I64_MIN && Progress(net, Mirror(latest, successor), done, used, top)
    requires |latest| == net.n && v < net.n && v !in done && latest[v] != I64_MIN
    requires forall x: nat | x < net.n && x !in done && latest[x] != I64_MIN :: latest[x] <= latest[v]
    ensures Progress(net, Mirror(latest, successor), done + {v}, used, -latest[v])
  {
    hide Progress;
    E.TimesBelow(net, Mirror(latest, successor), done, used, top);
    assert Mirror(latest, successor).times[v] == -latest[v];
    assert forall x: nat | x < net.n :: Mirror(latest, successor).times[x] == -latest[x];
    Settle(net, Mirror(latest, successor), done, used, top, v);
  }

  lemma SettleMarked(net: Net, latest: seq<int>, successor: seq<Link>, settled: seq<bool>, done: set<nat>,
                     used: set<nat>, top: int, v: nat)
    requires net.Valid() && net.inf == -I64_MIN && Progress(net, Mirror(latest, successor), done, used, top)
    requires |latest| == |settled| == net.n && v < net.n && v !in done && latest[v] != I64_MIN
    requires forall x: nat | x < net.n && x !in done && latest[x] != I64_MIN :: latest[x] <= latest[v]
    requires Marks(settled, done) && E.LeavesOf(net, done, used)
    ensures Progress(net, Mirror(latest, successor), done + {v}, used, -latest[v])
    ensures Marks(settled[v := true], done + {v}) && E.LeavesOf(net, done + {v} - {v}, used)
    ensures |done + {v}| == |done| + 1
  {
    hide Progress, Marks, E.LeavesOf;
    SettleLatest(net, latest, successor, done, used, top, v);
    Mark(settled, done, v);
    assert done + {v} - {v} == done;
  }

  lemma FinishedBackward(net: Net, latest: seq<int>, successor: seq<Link>, done: set<nat>, used: set<nat>, top: int)
    requires net.Valid() && net.inf == -I64_MIN && Progress(net, Mirror(latest, successor), done, used, top)
    requires |latest| == net.n && E.LeavesOf(net, done, used)
    requires |done| == net.n || forall v: nat | v < net.n && v !in done :: latest[v] == I64_MIN
    ensures Solved(net, Mirror(latest, successor))
  {
    hide Progress, Solved;
    E.TimesBelow(net, Mirror(latest, successor), done, used, top);
    BelowRange(net.n, done);
    assert forall x: nat | x < net.n :: Mirror(latest, successor).times[x] == -latest[x];
    Finished(net, Mirror(latest, successor), done, used, top);
  }

  /** The vertices in `done` have been settled and marked, and their edges, `used`, have been tried. */
  ghost predicate Searching(csr: SnapshotCsr, w: Window, net: Net, s: Search, settled: seq<bool>,
                            done: set<nat>, used: set<nat>, top: int)
    requires csr.Valid() && w.start <= w.end
  {
    && net.source < csr.VertexCount() && net == BackwardNet(csr, w, net.source)
    && |s.times| == |settled| == csr.VertexCount() && Marks(settled, done)
    && Progress(net, Mirror(s.times, s.links), done, used, top)
    && E.LeavesOf(net, done, used) && forall e | e in used :: e < csr.EdgeCount()
  }

  /** One round: settles the next vertex and tries the edges into it; none when no unsettled vertex can depart. */
  method SettleNext(csr: SnapshotCsr, w: Window, ghost net: Net, s0: Search, settled0: seq<bool>,
                    ghost done0: set<nat>, ghost used0: set<nat>, ghost top0: int, guard: ExecutionGuard)
    returns (r: Result<Option<(Search, seq<bool>)>, AnalyticsError>,
             ghost done: set<nat>, ghost used: set<nat>, ghost top: int)
    requires csr.Valid() && csr.reverse.Some? && w.start <= w.end && guard.reported.None?
    requires Searching(csr, w, net, s0, settled0, done0, used0, top0)
    modifies guard
    ensures r.Ok? ==> guard.reported.None?
    ensures r == Ok(None) ==> forall v: nat | v < csr.VertexCount() && v !in done0 :: s0.times[v] == I64_MIN
    ensures r == Ok(None) ==> guard.workItems <= old(guard.workItems) + csr.VertexCount() + 1
    ensures r.Ok? && r.value.Some? ==> Searching(csr, w, net, r.value.value.0, r.value.value.1, done, used, top)
    ensures r.Ok? && r.value.Some? ==> |done| == |done0| + 1
    ensures r.Ok? && r.value.Some? ==>
              guard.workItems <= old(guard.workItems) + csr.VertexCount() + 1 + |used| - |used0|
    ensures r.Err? ==>
              || (r.error == MissingProperty && TimesMissing(csr, w))
              || (guard.reported == Some(r.error)
                  && Stops(r.error, guard.cancelled,
                           old(guard.workItems) + csr.VertexCount() + 1 + csr.EdgeCount() - |used0|,
                           guard.maxWorkItems))
  {
    hide Progress, Marks, E.LeavesOf, TimesMissing, Offsets, SnapshotCsr.Transposed, Mirror, BackwardNet, Net.Valid;
    done, used, top := done0, used0, top0;
    BackwardShape(csr, w, net.source);
    BelowRange(csr.EdgeCount(), used);
    :- guard.Step();
    var current :- SelectLatest(s0.times, settled0, done, guard);
    if current.None? {
      return Ok(None), done, used, top;
    }
    var vertex := current.value;
    SettleMarked(net, s0.times, s0.links, settled0, done, used, top, vertex);
    done := done + {vertex};
    var s;
    s, used :- RelaxIncoming(csr, w, net, s0.times, s0.links, vertex, done, used, guard);
    top := -s.times[vertex];
    return Ok(Some((s, settled0[vertex := true]))), done, used, top;
  }

  method SearchBackward(csr: SnapshotCsr, w: Window, target: nat, guard: ExecutionGuard)
    returns (r: Result<Search, AnalyticsError>)
    requires csr.Valid() && csr.reverse.Some? && target < csr.VertexCount() && w.start <= w.end && guard.reported.None?
    modifies guard
    ensures r.Ok? ==> Solved(BackwardNet(csr, w, target), Mirror(r.value.times, r.value.links)) && guard.reported.None?
    ensures r.Ok? ==> guard.workItems <= old(guard.workItems) + SearchWork(csr)
    ensures r.Err? ==>
              || (r.error == MissingProperty && TimesMissing(csr, w))
              || (guard.reported == Some(r.error)
                  && (|| Stops(r.error, guard.cancelled, old(guard.workItems) + SearchWork(csr), guard.maxWorkItems)
                      || Stops(r.error, guard.cancelled, old(guard.memoryBytes) + csr.VertexCount() * 24,
                               guard.maxMemoryBytes)))
  {
    hide Searching, Solved, SearchWork, RoundWork, TimesMissing, SnapshotCsr.Valid, BackwardNet, Mirror;
    var n := csr.VertexCount();
    :- guard.Reserve(n * 24);
    ghost var net := BackwardNet(csr, w, target);
    BackwardShape(csr, w, target);
    var s := Search(seq(n, v => if v == target then w.end else I64_MIN), seq(n, _ => None));
    var settled := seq(n, _ => false);
    ghost var done: set<nat>, used: set<nat>, top: int := {}, {}, -(w.end as int);
    SearchStarts(csr, w, net, s, settled);
    NoRounds(csr);
    var i := 0;
    while i < n
      invariant 0 <= i <= n && guard.reported.None? && |done| == i
      invariant Searching(csr, w, net, s, settled, done, used, top)
      invariant guard.workItems <= old(guard.workItems) + RoundWork(csr, i) + |used|
      invariant guard.workItems <= old(guard.workItems) + SearchWork(csr)
    {
      UsedFits(csr, w, net, s, settled, done, used, top);
      RoundFits(csr, i, used);
      var next;
      ghost var done', used', top';
      next, done', used', top' :- SettleNext(csr, w, net, s, settled, done, used, top, guard);
      if next.None? {
        break;
      }
      s, settled := next.value.0, next.value.1;
      done, used, top := done', used', top';
      UsedFits(csr, w, net, s, settled, done, used, top);
      RoundFits(csr, i, used);
      i := i + 1;
    }
    UsedFits(csr, w, net, s, settled, done, used, top);
    SearchEnds(csr, w, net, s, settled, done, used, top);
    return Ok(s);
  }

  lemma UsedFits(csr: SnapshotCsr, w: Window, net: Net, s: Search, settled: seq<bool>,
                 done: set<nat>, used: set<nat>, top: int)
    requires csr.Valid() && w.start <= w.end && Searching(csr, w, net, s, settled, done, used, top)
    ensures |s.times| == csr.VertexCount() && forall e | e in used :: e < csr.EdgeCount()
  {
  }

  lemma SearchStarts(csr: SnapshotCsr, w: Window, net: Net, s: Search, settled: seq<bool>)
    requires csr.Valid() && w.start <= w.end && net.source < csr.VertexCount() && net == BackwardNet(csr, w, net.source)
    requires |s.times| == |s.links| == |settled| == csr.VertexCount()
    requires forall v: nat | v < csr.VertexCount() ::
               s.times[v] == (if v == net.source then w.end else I64_MIN) && s.links[v] == None && !settled[v]
    ensures Searching(csr, w, net, s, settled, {}, {}, -(w.end as int))
  {
    hide Progress;
    MarksNone(settled);
    E.LeavesNone(net);
    StartedBackward(csr, w, net.source, s.times, s.links);
  }

  lemma SearchEnds(csr: SnapshotCsr, w: Window, net: Net, s: Search, settled: seq<bool>,
                   done: set<nat>, used: set<nat>, top: int)
    requires csr.Valid() && w.start <= w.end && Searching(csr, w, net, s, settled, done, used, top)
    requires |s.times| == csr.VertexCount()
    requires |done| == csr.VertexCount() || forall v: nat | v < csr.VertexCount() && v !in done :: s.times[v] == I64_MIN
    ensures Solved(net, Mirror(s.times, s.links))
  {
    hide Progress, Solved, Net.Valid, Marks, BackwardNet, E.LeavesOf;
    BackwardShape(csr, w, net.source);
    FinishedBackward(net, s.times, s.links, done, used, top);
  }

  /** Read backwards, a journey is a route of the backward problem, and its departure is the time the route takes. */
  lemma JourneyIsBackwardRoute(csr: SnapshotCsr, w: Window, es: seq<nat>, source: nat, target: nat)
    requires csr.Valid() && target < csr.VertexCount()
    ensures Journey(csr, w, es, source, target) <==> BackwardNet(csr, w, target).Route(Reversed(es), source)
    ensures Journey(csr, w, es, source, target) ==>
              BackwardNet(csr, w, target).Time(Reversed(es), source)
                  == -(DepartureOf(csr, w, es, source, target) as int)
  {
    if Journey(csr, w, es, source, target) {
      JourneyBackwards(csr, w, es, source, target);
    }
    if BackwardNet(csr, w, target).Route(Reversed(es), source) {
      RouteBackwards(csr, w, es, source, target);
    }
  }

  lemma JourneyBackwards(csr: SnapshotCsr, w: Window, es: seq<nat>, source: nat, target: nat)
    requires csr.Valid() && target < csr.VertexCount() && Journey(csr, w, es, source, target)
    ensures BackwardNet(csr, w, target).Route(Reversed(es), source)
    ensures BackwardNet(csr, w, target).Time(Reversed(es), source) == -(DepartureOf(csr, w, es, source, target) as int)
  {
    hide Reversed, SnapshotCsr.Transposed;
    var net, back, n := BackwardNet(csr, w, target), Reversed(es), |es|;
    ReversedAt(es);
    forall k | 0 <= k < n
      ensures back[k] < |net.arcs| && net.arcs[back[k]].open && net.arcs[back[k]] == BackwardArc(csr, w, back[k])
    {
      assert back[k] == es[n - 1 - k];
    }
    forall k | 0 <= k < n - 1
      ensures net.arcs[back[k]].to == net.arcs[back[k + 1]].from
      ensures net.arcs[back[k]].done <= net.arcs[back[k + 1]].ready
    {
      assert csr.neighbors[es[n - 2 - k]] == csr.Source(es[n - 2 - k + 1]);
    }
  }

  lemma RouteBackwards(csr: SnapshotCsr, w: Window, es: seq<nat>, source: nat, target: nat)
    requires csr.Valid() && target < csr.VertexCount() && BackwardNet(csr, w, target).Route(Reversed(es), source)
    ensures Journey(csr, w, es, source, target)
  {
    hide Reversed, SnapshotCsr.Transposed;
    var net, back, n := BackwardNet(csr, w, target), Reversed(es), |es|;
    ReversedAt(es);
    forall k | 0 <= k < n
      ensures es[k] < csr.EdgeCount() && Admissible(csr, w, es[k]) && net.arcs[es[k]] == BackwardArc(csr, w, es[k])
    {
      assert back[n - 1 - k] == es[k] && net.arcs[back[n - 1 - k]].open;
    }
    forall k | 0 <= k < n - 1
      ensures csr.neighbors[es[k]] == csr.Source(es[k + 1])
      ensures EdgeTimes(csr, w, es[k]).value.1 <= EdgeTimes(csr, w, es[k + 1]).value.0
    {
      assert net.arcs[back[n - 2 - k]].to == net.arcs[back[n - 2 - k + 1]].from;
    }
  }

  ghost predicate LatestDepartureIs(csr: SnapshotCsr, w: Window, source: nat, target: nat, departure: int)
    requires csr.Valid()
  {
    && (exists es :: Journey(csr, w, es, source, target) && DepartureOf(csr, w, es, source, target) == departure)
    && (forall es | Journey(csr, w, es, source, target) :: DepartureOf(csr, w, es, source, target) <= departure)
  }

  /** A label above the minimum is the latest departure of all journeys; the minimum means none departs after it. */
  lemma LabelIsDeparture(csr: SnapshotCsr, w: Window, source: nat, target: nat, d: int)
    requires csr.Valid() && target < csr.VertexCount() && w.start <= w.end
    requires BackwardNet(csr, w, target).Earliest(source, -d)
    ensures d > I64_MIN ==> LatestDepartureIs(csr, w, source, target, d)
    ensures d == I64_MIN ==>
              forall es | Journey(csr, w, es, source, target) :: DepartureOf(csr, w, es, source, target) == I64_MIN
  {
    var net := BackwardNet(csr, w, target);
    forall es | Journey(csr, w, es, source, target)
      ensures DepartureOf(csr, w, es, source, target) <= d
    {
      JourneyIsBackwardRoute(csr, w, es, source, target);
    }
    if d > I64_MIN {
      var back: seq<nat> :| net.Route(back, source) && net.Time(back, source) == -d;
      ReversedTwice(back);
      JourneyIsBackwardRoute(csr, w, Reversed(back), source, target);
    }
  }

  /** `k` links have been followed from `source` to `current`; the lists hold what they passed, in order. */
  ghost predicate Walked(csr: SnapshotCsr, net: Net, s: Search, source: nat, k: nat, current: nat,
                         vertices: seq<nat>, edgeIds: seq<nat>, edges: seq<nat>)
  {
    && Solved(net, s) && source < net.n && s.times[source] < net.inf
    && current == Chain(net, s, source, k)
    && (forall j: nat | j < k :: Chain(net, s, source, j) != net.source)
    && Tail(net, s, Reversed(edges), current, source)
    && E.Visits(csr, edges, source, vertices, edgeIds)
  }

  lemma WalkStep(csr: SnapshotCsr, w: Window, net: Net, s: Search, source: nat, k: nat, current: nat,
                 vertices: seq<nat>, edgeIds: seq<nat>, edges: seq<nat>)
    requires csr.Valid() && net.source < csr.VertexCount() && net == BackwardNet(csr, w, net.source)
    requires Walked(csr, net, s, source, k, current, vertices, edgeIds, edges) && current != net.source
    ensures current < |s.links| && s.links[current].Some?
    ensures var (u, e) := s.links[current].value;
            && u < csr.VertexCount() && e < csr.EdgeCount()
            && Walked(csr, net, s, source, k + 1, u,
                      vertices + [csr.vertexIds[u]], edgeIds + [csr.edgeIds[e]], edges + [e])
  {
    hide Solved;
    var u, e := LinkOf(net, s, current);
    ExtendTail(net, s, Reversed(edges), current, source);
    assert net.arcs[e] == BackwardArc(csr, w, e);
    assert Reversed(edges + [e]) == [e] + Reversed(edges);
  }

  lemma WalkEnd(csr: SnapshotCsr, w: Window, net: Net, s: Search, source: nat, k: nat,
                vertices: seq<nat>, edgeIds: seq<nat>, edges: seq<nat>)
    requires csr.Valid() && net.source < csr.VertexCount() && net == BackwardNet(csr, w, net.source) && w.start <= w.end
    requires Walked(csr, net, s, source, k, net.source, vertices, edgeIds, edges)
    ensures Journey(csr, w, edges, source, net.source)
    ensures DepartureOf(csr, w, edges, source, net.source) == -s.times[source]
    ensures edges != [] ==>
              csr.EdgeInteger(w.arrival, edges[|edges| - 1]) == Some(ArrivalOf(csr, w, edges, source, net.source))
  {
    hide Reversed, SnapshotCsr.Transposed;
    var back := Reversed(edges);
    TailIsRoute(net, s, back, source);
    JourneyIsBackwardRoute(csr, w, edges, source, net.source);
    if edges == [] {
      assert net.Earliest(source, s.times[source]) && net.Route(back, source);
    }
  }

  lemma WalkFacts(csr: SnapshotCsr, net: Net, s: Search, source: nat, k: nat, current: nat,
                  vertices: seq<nat>, edgeIds: seq<nat>, edges: seq<nat>)
    requires Walked(csr, net, s, source, k, current, vertices, edgeIds, edges)
    ensures Solved(net, s) && source < net.n && s.times[source] < net.inf
    ensures current == Chain(net, s, source, k) && E.Visits(csr, edges, source, vertices, edgeIds)
    ensures forall j: nat | j < k :: Chain(net, s, source, j) != net.source
  {
  }

  lemma LabelInRange(csr: SnapshotCsr, w: Window, target: nat, latest: seq<int>, successor: seq<Link>, v: nat)
    requires csr.Valid() && target < csr.VertexCount() && v < csr.VertexCount() && w.start <= w.end
    requires Solved(BackwardNet(csr, w, target), Mirror(latest, successor))
    ensures |latest| == |successor| == csr.VertexCount() && I64_MIN <= latest[v] <= w.end
  {
    var net, s := BackwardNet(csr, w, target), Mirror(latest, successor);
    assert net.Earliest(v, s.times[v]);
    if s.times[v] < net.inf {
      var es :| net.Route(es, v) && net.Time(es, v) == s.times[v];
    }
  }

  /** Walks the successor links from `source` on to `target`. */
  method BuildLatestPath(csr: SnapshotCsr, w: Window, source: nat, target: nat, latest: seq<int>, successor: seq<Link>,
                         guard: ExecutionGuard)
    returns (r: Result<Option<TemporalPath>, AnalyticsError>, ghost es: seq<nat>)
    requires csr.Valid() && source < csr.VertexCount() && target < csr.VertexCount() && w.start <= w.end
    requires Solved(BackwardNet(csr, w, target), Mirror(latest, successor)) && guard.reported.None?
    modifies guard
    ensures r == Ok(None) <==> latest[source] == I64_MIN
    ensures r.Ok? && r.value.Some? ==>
              var path := r.value.value;
              && Journey(csr, w, es, source, target)
              && path.departureTime == latest[source] == DepartureOf(csr, w, es, source, target)
              && E.Visits(csr, es, source, path.vertices, path.edgeIds)
              && path.arrivalTime == if es == [] then path.departureTime else ArrivalOf(csr, w, es, source, target)
    ensures r.Err? ==> guard.reported == Some(r.error)
    // the walk follows the links: it takes as many steps as they do, and never ends when they avoid the target
    ensures latest[source] > I64_MIN ==>
              forall k | Chain(BackwardNet(csr, w, target), Mirror(latest, successor), source, k) == target ::
                guard.workItems <= old(guard.workItems) + k
    ensures latest[source] > I64_MIN ==>
              (forall k :: Chain(BackwardNet(csr, w, target), Mirror(latest, successor), source, k) != target) ==>
                  r.Err?
    // links that reach the target leave only the guard to stop the walk
    ensures latest[source] > I64_MIN && r.Err? ==>
              Chain(BackwardNet(csr, w, target), Mirror(latest, successor), source, csr.VertexCount()) == target ==>
                Stops(r.error, guard.cancelled, old(guard.workItems) + csr.VertexCount(), guard.maxWorkItems)
  {
    hide Walked, Solved, Chain, E.Visits, EdgeTimes, Reversed, Net.Valid, Net.Route;
    ghost var net, s := BackwardNet(csr, w, target), Mirror(latest, successor);
    es := [];
    LabelInRange(csr, w, target, latest, successor, source);
    var departureTime: I64 := latest[source];
    if departureTime == I64_MIN {
      return Ok(None), es;
    }
    var vertices, edgeIds := [csr.vertexIds[source]], [];
    var current := source;
    var lastEdge: Option<nat> := None;
    ghost var k, edges := 0, [];
    WalkStart(csr, w, net, s, source);
    while current != target
      invariant guard.reported.None? && current < csr.VertexCount()
      invariant guard.workItems == old(guard.workItems) + k
      invariant Walked(csr, net, s, source, k, current, vertices, edgeIds, edges)
      invariant lastEdge == if edges == [] then None else Some(edges[|edges| - 1])
      decreases guard.maxWorkItems + 1 - guard.workItems
    {
      WalkFacts(csr, net, s, source, k, current, vertices, edgeIds, edges);
      E.StepsBefore(net, s, source, k, csr.VertexCount());
      :- guard.Step();
      WalkStep(csr, w, net, s, source, k, current, vertices, edgeIds, edges);
      if successor[current].None? {
        return Err(InvalidRequest), es;
      }
      var (next, edgeIndex) := successor[current].value;
      vertices := vertices + [csr.vertexIds[next]];
      edgeIds := edgeIds + [csr.edgeIds[edgeIndex]];
      lastEdge := Some(edgeIndex);
      edges := edges + [edgeIndex];
      current := next;
      k := k + 1;
    }
    WalkFacts(csr, net, s, source, k, current, vertices, edgeIds, edges);
    WalkEnd(csr, w, net, s, source, k, vertices, edgeIds, edges);
    es := edges;
    var arrivalTime :=
      if lastEdge.None? then departureTime
      else var t := csr.EdgeInteger(w.arrival, lastEdge.value); if t.Some? then t.value else departureTime;
    return Ok(Some(TemporalPath(vertices, edgeIds, departureTime, arrivalTime))), es;
  }

  lemma WalkStart(csr: SnapshotCsr, w: Window, net: Net, s: Search, source: nat)
    requires csr.Valid() && net.source < csr.VertexCount() && net == BackwardNet(csr, w, net.source)
    requires Solved(net, s) && source < net.n && s.times[source] < net.inf
    ensures Walked(csr, net, s, source, 0, source, [csr.vertexIds[source]], [], [])
  {
    hide Solved;
  }

  lemma EdgesLastBackward(csr: SnapshotCsr, w: Window, target: nat)
    requires csr.Valid() && target < csr.VertexCount() && EdgesLast(csr, w)
    ensures Lasting(BackwardNet(csr, w, target))
  {
    var net := BackwardNet(csr, w, target);
    forall i | 0 <= i < |net.arcs| && net.arcs[i].open ensures net.arcs[i].ready < net.arcs[i].done {
      assert net.arcs[i] == BackwardArc(csr, w, i);
    }
  }

  /** An instant loop from which the source can be reached. */
  ghost predicate LassoAhead(csr: SnapshotCsr, request: TemporalRequest)
    requires csr.Valid() && !Malformed(csr, request)
  {
    var net := BackwardNet(csr, RequestWindow(request).value, RequestVertex(csr, request.target).value);
    exists es, path :: Lasso(net, es, path, RequestVertex(csr, request.source).value)
  }

  ghost predicate LinksLeadBack(csr: SnapshotCsr, request: TemporalRequest)
    requires csr.Valid() && !Malformed(csr, request)
  {
    var net := BackwardNet(csr, RequestWindow(request).value, RequestVertex(csr, request.target).value);
    E.LinksArrive(net, RequestVertex(csr, request.source).value)
  }

  /**
   * Latest departure on all edge timings: what the answer means, which errors can stop it, and that on edges that take
   * time a sufficient budget always brings an answer.
   */
  method Compute(csr: SnapshotCsr, request: TemporalRequest, guard: ExecutionGuard)
    returns (r: Result<Option<TemporalPath>, AnalyticsError>, ghost es: seq<nat>)
    requires csr.Valid() && guard.reported.None?
    modifies guard
    ensures r.Err? ==>
              || (r.error == InvalidRequest && Malformed(csr, request))
              || (r.error == MissingReverseCsr && csr.reverse.None?)
              || (r.error == MissingProperty && TimesMissingFor(csr, request))
              || (guard.reported == Some(r.error) && !Malformed(csr, request)
                  && (|| Stops(r.error, guard.cancelled, old(guard.workItems) + SearchWork(csr) + csr.VertexCount(),
                               guard.maxWorkItems)
                      || Stops(r.error, guard.cancelled, old(guard.memoryBytes) + csr.VertexCount() * 24,
                               guard.maxMemoryBytes)
                      || LassoAhead(csr, request)))
    ensures Answerable(csr, request) && csr.reverse.Some? && !guard.cancelled ==>
              Affordable(csr, old(guard.workItems), guard.maxWorkItems, old(guard.memoryBytes), guard.maxMemoryBytes)
              ==> r.Ok?
    ensures r.Ok? && r.value.Some? ==> !Malformed(csr, request) && LinksLeadBack(csr, request)
    ensures r.Ok? ==>
              RequestVertex(csr, request.source).Ok? && RequestVertex(csr, request.target).Ok?
                  && RequestWindow(request).Ok?
    ensures r.Ok? ==>
              var source, target, w :=
                  RequestVertex(csr, request.source).value, RequestVertex(csr, request.target).value,
                    RequestWindow(request).value;
              match r.value
              case None => forall es | Journey(csr, w, es, source, target) ::
                  DepartureOf(csr, w, es, source, target) == I64_MIN
              case Some(path) =>
                && LatestDepartureIs(csr, w, source, target, path.departureTime)
                && Journey(csr, w, es, source, target)
                && DepartureOf(csr, w, es, source, target) == path.departureTime > I64_MIN
                && E.Visits(csr, es, source, path.vertices, path.edgeIds)
                && path.arrivalTime == if es == [] then path.departureTime else ArrivalOf(csr, w, es, source, target)
  {
    hide Solved, Chain, Lasso, Lasting, E.LinksArrive, EdgesLast, SearchWork, Net.Valid, E.Visits, Net.Route, Offsets,
      SnapshotCsr.Transposed;
    es := [];
    var source :- RequestVertex(csr, request.source);
    var target :- RequestVertex(csr, request.target);
    var w :- RequestWindow(request);
    if csr.reverse.None? {
      return Err(MissingReverseCsr), es;
    }
    var labels :- SearchBackward(csr, w, target, guard);
    LabelInRange(csr, w, target, labels.times, labels.links, source);
    ghost var net, s := BackwardNet(csr, w, target), Mirror(labels.times, labels.links);
    E.SolvedIsEarliest(net, s, source);
    LabelIsDeparture(csr, w, source, target, labels.times[source]);
    r, es := BuildLatestPath(csr, w, source, target, labels.times, labels.links, guard);
    if s.times[source] < net.inf {
      E.LinksEnd(net, s, source);
      if r.Ok? { E.LinksArriveIn(net, s, source); }
    }
    if EdgesLast(csr, w) {
      EdgesLastBackward(csr, w, target);
      E.NoLasso(net, source);
    }
  }
}

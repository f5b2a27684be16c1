/** Single-source shortest distances by settling the nearest vertex first. */
module ShortestPath {
  import opened Wrappers
  import opened Guard
  import opened Csr
  import opened FiniteSets
  import opened Trails
  import opened StoredWeights

  predicate Closer(a: Option<real>, b: Option<real>)
  {
    a.Some? && (b.None? || a.value < b.value)
  }

  /** Every finite distance is the length of some trail. */
  ghost predicate Attained(csr: SnapshotCsr, weights: seq<Option<real>>, source: nat, distances: seq<Option<real>>)
    requires csr.Valid() && |weights| == csr.EdgeCount()
  {
    forall v: nat | v < |distances| && distances[v].Some? ::
      exists es :: Trail(csr, weights, es, source, v) && Length(weights, es) == distances[v].value
  }

  /** Edge `e` has a weight and no longer shortens anything. */
  ghost predicate Tried(csr: SnapshotCsr, weights: seq<Option<real>>, distances: seq<Option<real>>, e: nat)
    requires csr.Valid() && |weights| == csr.EdgeCount() && |distances| == csr.VertexCount() && e < csr.EdgeCount()
  {
    && weights[e].Some? && distances[csr.Source(e)].Some? && distances[csr.neighbors[e]].Some?
    && distances[csr.neighbors[e]].value <= distances[csr.Source(e)].value + weights[e].value
  }

  /**
   * Settled vertices are no further than `top`, the others no nearer, and edges out of settled vertices below `limit`
   * are tried.
   */
  ghost predicate Progress(csr: SnapshotCsr, weights: seq<Option<real>>, source: nat, distances: seq<Option<real>>,
                           done: set<nat>, top: real, last: nat, limit: nat)
    requires csr.Valid() && |weights| == csr.EdgeCount()
  {
    && |distances| == csr.VertexCount() && source < csr.VertexCount()
    && distances[source].Some? && distances[source].value <= 0.0
    && Attained(csr, weights, source, distances)
    && (forall u | u in done :: u < csr.VertexCount() && distances[u].Some? && distances[u].value <= top)
    && (forall x: nat | x < csr.VertexCount() && x !in done && distances[x].Some? :: top <= distances[x].value)
    && (forall e: nat | e < csr.EdgeCount() && csr.Source(e) in done && (csr.Source(e) != last || e < limit) ::
          Tried(csr, weights, distances, e))
  }

  lemma Started(csr: SnapshotCsr, weights: seq<Option<real>>, source: nat, distances: seq<Option<real>>)
    requires csr.Valid() && |weights| == csr.EdgeCount() && source < csr.VertexCount() == |distances|
    requires forall v: nat | v < |distances| :: distances[v] == if v == source then Some(0.0) else None
    ensures Progress(csr, weights, source, distances, {}, 0.0, 0, csr.EdgeCount())
  {
    assert Trail(csr, weights, [], source, source) && Length(weights, []) == 0.0;
  }

  lemma Settle(csr: SnapshotCsr, weights: seq<Option<real>>, source: nat, distances: seq<Option<real>>,
               done: set<nat>, top: real, last: nat, v: nat)
    requires csr.Valid() && |weights| == csr.EdgeCount()
    requires Progress(csr, weights, source, distances, done, top, last, csr.EdgeCount())
    requires v < csr.VertexCount() && v !in done && distances[v].Some?
    requires forall x: nat | x < csr.VertexCount() && x !in done && distances[x].Some? ::
        distances[v].value <= distances[x].value
    ensures Progress(csr, weights, source, distances, done + {v}, distances[v].value, v, csr.offsets[v])
  {
    hide Attained;
  }

  /** Trying one edge of the vertex settled last. */
  lemma Relaxed(csr: SnapshotCsr, weights: seq<Option<real>>, source: nat, distances: seq<Option<real>>,
                done: set<nat>, vertex: nat, e: nat)
    requires csr.Valid() && |weights| == csr.EdgeCount() && InRange(csr.offsets, vertex, e) && e < csr.EdgeCount()
    requires vertex in done
    requires vertex < |distances| && distances[vertex].Some? && weights[e].Some? && weights[e].value >= 0.0
    requires Progress(csr, weights, source, distances, done, distances[vertex].value, vertex, e)
    ensures var candidate := distances[vertex].value + weights[e].value;
            var distances' := if Closer(Some(candidate), distances[csr.neighbors[e]])
                              then distances[csr.neighbors[e] := Some(candidate)] else distances;
            && distances'[vertex] == distances[vertex]
            && Progress(csr, weights, source, distances', done, distances[vertex].value, vertex, e + 1)
  {
    hide Attained;
    csr.SourceOf(vertex, e);
    var candidate, w := distances[vertex].value + weights[e].value, csr.neighbors[e];
    if Closer(Some(candidate), distances[w]) {
      assert w !in done;
      Attain(csr, weights, source, distances, e);
    }
  }

  lemma Attain(csr: SnapshotCsr, weights: seq<Option<real>>, source: nat, distances: seq<Option<real>>, e: nat)
    requires csr.Valid() && |weights| == csr.EdgeCount() && |distances| == csr.VertexCount() && e < csr.EdgeCount()
    requires Attained(csr, weights, source, distances) && weights[e].Some? && distances[csr.Source(e)].Some?
    ensures Attained(csr, weights, source,
        distances[csr.neighbors[e] := Some(distances[csr.Source(e)].value + weights[e].value)])
  {
    var u, w := csr.Source(e), csr.neighbors[e];
    var es :| Trail(csr, weights, es, source, u) && Length(weights, es) == distances[u].value;
    TrailOn(csr, weights, es, source, u, e);
  }

  lemma {:induction false} TriedBelow(csr: SnapshotCsr, weights: seq<Option<real>>, source: nat,
                                      distances: seq<Option<real>>,
                                      done: set<nat>, top: real, last: nat, es: seq<nat>, v: nat)
    requires csr.Valid() && |weights| == csr.EdgeCount()
    requires Progress(csr, weights, source, distances, done, top, last, csr.EdgeCount())
    requires forall x: nat | x < csr.VertexCount() && distances[x].Some? :: x in done
    requires Trail(csr, weights, es, source, v)
    ensures v < csr.VertexCount() && distances[v].Some? && distances[v].value <= Length(weights, es)
    decreases |es|
  {
    hide Attained;
    if es != [] {
      var e := es[|es| - 1];
      TriedBelow(csr, weights, source, distances, done, top, last, es[..|es| - 1], csr.Source(e));
      assert Tried(csr, weights, distances, e);
    }
  }

  lemma Finished(csr: SnapshotCsr, weights: seq<Option<real>>, source: nat, distances: seq<Option<real>>,
                 done: set<nat>, top: real, last: nat)
    requires csr.Valid() && |weights| == csr.EdgeCount()
    requires Progress(csr, weights, source, distances, done, top, last, csr.EdgeCount())
    requires forall x: nat | x < csr.VertexCount() && distances[x].Some? :: x in done
    ensures forall v: nat | v < csr.VertexCount() :: Shortest(csr, weights, source, v, distances[v])
    ensures forall e: nat | e < csr.EdgeCount() && distances[csr.Source(e)].Some? :: weights[e].Some?
  {
    forall v: nat, es | v < csr.VertexCount() && Trail(csr, weights, es, source, v)
      ensures distances[v].Some? && distances[v].value <= Length(weights, es)
    {
      TriedBelow(csr, weights, source, distances, done, top, last, es, v);
    }
    forall e: nat | e < csr.EdgeCount() && distances[csr.Source(e)].Some?
      ensures weights[e].Some?
    {
      assert Tried(csr, weights, distances, e);
    }
  }

  method SelectNearest(distances: seq<Option<real>>, settled: seq<bool>, ghost done: set<nat>, guard: ExecutionGuard)
    returns (r: Result<Option<nat>, AnalyticsError>)
    requires |distances| == |settled| && Marks(settled, done) && guard.reported.None?
    modifies guard
    ensures r.Ok? ==> guard.reported.None?
    ensures r == Ok(None) ==> forall v: nat | v < |distances| && v !in done :: distances[v].None?
    ensures r.Ok? && r.value.Some? ==>
              r.value.value < |distances| && r.value.value !in done && distances[r.value.value].Some?
    ensures r.Ok? && r.value.Some? ==> forall v: nat | v < |distances| && v !in done && distances[v].Some? ::
              distances[r.value.value].value <= distances[v].value
    ensures r.Err? ==> guard.reported == Some(r.error)
  {
    var next: Option<nat> := None;
    var v := 0;
    while v < |distances|
      invariant 0 <= v <= |distances| && guard.reported.None?
      invariant next.None? ==> forall x: nat | x < v && x !in done :: distances[x].None?
      invariant next.Some? ==> next.value < v && next.value !in done && distances[next.value].Some?
      invariant next.Some? ==>
                forall x: nat | x < v && x !in done && distances[x].Some? ::
                    distances[next.value].value <= distances[x].value
    {
      :- guard.Step();
      if !settled[v] && distances[v].Some? && (next.None? || distances[v].value < distances[next.value].value) {
        next := Some(v);
      }
      v := v + 1;
    }
    return Ok(next);
  }

  method RelaxOutgoing(csr: SnapshotCsr, property: Option<string>, decode: U64 -> Number, ghost source: nat,
                       distances0: seq<Option<real>>,
                       vertex: nat, ghost done: set<nat>, guard: ExecutionGuard)
    returns (r: Result<seq<Option<real>>, AnalyticsError>)
    requires csr.Valid() && vertex < csr.VertexCount() == |distances0| && distances0[vertex].Some? && vertex in done
    requires guard.reported.None?
    requires Progress(csr, Weights(csr, property, decode), source, distances0, done, distances0[vertex].value, vertex,
        csr.offsets[vertex])
    modifies guard
    ensures r.Ok? ==> guard.reported.None? && |r.value| == csr.VertexCount() && r.value[vertex] == distances0[vertex]
    ensures r.Ok? ==>
              Progress(csr, Weights(csr, property, decode), source, r.value, done, distances0[vertex].value, vertex,
                  csr.offsets[vertex + 1])
    ensures r.Err? ==> guard.reported == Some(r.error) || Unweighted(csr, property, decode, r.error)
  {
    hide Progress, Unweighted;
    ghost var weights := Weights(csr, property, decode);
    var distances := distances0;
    var e := csr.offsets[vertex];
    while e < csr.offsets[vertex + 1]
      invariant csr.offsets[vertex] <= e <= csr.offsets[vertex + 1] && guard.reported.None?
      invariant |distances| == csr.VertexCount() && distances[vertex] == distances0[vertex]
      invariant Progress(csr, weights, source, distances, done, distances0[vertex].value, vertex, e)
    {
      :- guard.Step();
      csr.SourceOf(vertex, e);
      RefusedWeight(csr, property, decode, e);
      var weight :- EdgeWeight(csr, property, e, decode);
      Relaxed(csr, weights, source, distances, done, vertex, e);
      var neighbor := csr.neighbors[e];
      var candidate := distances[vertex].value + weight;
      if Closer(Some(candidate), distances[neighbor]) {
        distances := distances[neighbor := Some(candidate)];
      }
      e := e + 1;
    }
    return Ok(distances);
  }

  lemma RowEnds(csr: SnapshotCsr, weights: seq<Option<real>>, source: nat, distances: seq<Option<real>>,
                done: set<nat>, top: real, last: nat)
    requires csr.Valid() && |weights| == csr.EdgeCount() && last < csr.VertexCount()
    requires Progress(csr, weights, source, distances, done, top, last, csr.offsets[last + 1])
    ensures Progress(csr, weights, source, distances, done, top, last, csr.EdgeCount())
    ensures |distances| == csr.VertexCount() && forall v | v in done :: v < csr.VertexCount()
  {
    hide Attained;
  }

  method ShortestDistances(csr: SnapshotCsr, source: nat, property: Option<string>, decode: U64 -> Number,
                           guard: ExecutionGuard)
    returns (r: Result<seq<Option<real>>, AnalyticsError>)
    requires csr.Valid() && source < csr.VertexCount() && guard.reported.None?
    modifies guard
    ensures r.Ok? ==> |r.value| == csr.VertexCount() && guard.reported.None?
    ensures r.Ok? ==>
              forall v: nat | v < csr.VertexCount() ::
                  Shortest(csr, Weights(csr, property, decode), source, v, r.value[v])
    ensures r.Ok? ==>
              forall e: nat | e < csr.EdgeCount() && r.value[csr.Source(e)].Some? ::
                  EdgeWeight(csr, property, e, decode).Ok?
    ensures r.Ok? ==> forall v: nat | v < csr.VertexCount() :: LeastSum(csr, property, decode, source, v, r.value[v])
    ensures r.Err? ==> guard.reported == Some(r.error) || Unweighted(csr, property, decode, r.error)
  {
    hide Progress, Shortest, Marks, LeastSum;
    var n := csr.VertexCount();
    :- guard.Reserve(n * 9);
    ghost var weights := Weights(csr, property, decode);
    var distances := seq(n, v => if v == source then Some(0.0) else None);
    var settled := seq(n, _ => false);
    ghost var done: set<nat>, top, last := {}, 0.0, 0;
    MarksNone(settled);
    Started(csr, weights, source, distances);
    var i := 0;
    while i < n
      invariant 0 <= i <= n == |settled| == |distances| && guard.reported.None? && |done| == i && Marks(settled, done)
      invariant forall v | v in done :: v < n
      invariant Progress(csr, weights, source, distances, done, top, last, csr.EdgeCount())
    {
      :- guard.Step();
      var next :- SelectNearest(distances, settled, done, guard);
      if next.None? {
        break;
      }
      var vertex := next.value;
      Settle(csr, weights, source, distances, done, top, last, vertex);
      Mark(settled, done, vertex);
      settled := settled[vertex := true];
      done, top, last := done + {vertex}, distances[vertex].value, vertex;
      distances :- RelaxOutgoing(csr, property, decode, source, distances, vertex, done, guard);
      RowEnds(csr, weights, source, distances, done, top, last);
      i := i + 1;
    }
    BelowRange(n, done);
    Finished(csr, weights, source, distances, done, top, last);
    forall v: nat | v < n ensures LeastSum(csr, property, decode, source, v, distances[v]) {
      ShortestMeans(csr, property, decode, source, v, distances[v]);
    }
    return Ok(distances);
  }
}

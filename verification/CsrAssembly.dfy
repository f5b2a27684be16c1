/** Assembles the canonical rows of a snapshot from the parts its shards deliver. */
module CsrAssembly {
  import opened Wrappers
  import opened KernelValues
  import opened Csr
  import opened Projection
  import opened Ascending
  import opened RowOffsets

  // ----- collecting vertices and edges

  /** No two items share an identifier, and none is delivered twice. */
  ghost predicate Unique<T(!new)>(items: multiset<T>, id: T -> nat)
  {
    && (forall x | x in items :: items[x] == 1)
    && (forall x, y | x in items && y in items && id(x) == id(y) :: x == y)
  }

  /** `m` finds every item of `seen` by its identifier. */
  ghost predicate Indexed<T(!new)>(m: map<nat, T>, seen: seq<T>, id: T -> nat)
  {
    && Unique(multiset(seen), id)
    && (forall x | x in seen :: id(x) in m && m[id(x)] == x)
    && (forall k | k in m :: m[k] in seen && id(m[k]) == k)
  }

  method AddAll<T(==, !new)>(items: seq<T>, id: T -> nat, m0: map<nat, T>, ghost seen: seq<T>)
    returns (m: Option<map<nat, T>>)
    requires Indexed(m0, seen, id)
    ensures m.Some? ==> Indexed(m.value, seen + items, id)
    ensures m.None? ==> !Unique(multiset(seen + items), id)
  {
    hide Unique;
    var found: map<nat, T> := m0;
    var i := 0;
    assert seen + items[..i] == seen;
    while i < |items|
      invariant 0 <= i <= |items| && Indexed(found, seen + items[..i], id)
    {
      var x := items[i];
      var before := seen + items[..i];
      assert seen + items[..i + 1] == before + [x];
      if id(x) in found {
        Clash(found, before, id, x);
        assert seen + items == before + [x] + items[i + 1..];
        if Unique(multiset(seen + items), id) { SubUnique(multiset(before + [x]), multiset(seen + items), id); }
        return None;
      }
      AddOne(found, before, id, x);
      found := found[id(x) := x];
      i := i + 1;
    }
    assert items[..i] == items;
    return Some(found);
  }

  lemma AddOne<T(!new)>(m: map<nat, T>, seen: seq<T>, id: T -> nat, x: T)
    requires Indexed(m, seen, id) && id(x) !in m
    ensures Indexed(m[id(x) := x], seen + [x], id)
  {
    assert x !in seen;
    assert multiset(seen + [x]) == multiset(seen) + multiset{x};
  }

  lemma Clash<T(!new)>(m: map<nat, T>, seen: seq<T>, id: T -> nat, x: T)
    requires Indexed(m, seen, id) && id(x) in m
    ensures !Unique(multiset(seen + [x]), id)
  {
    var items, y := multiset(seen + [x]), m[id(x)];
    assert items == multiset(seen) + multiset{x};
    assert y in seen;
    assert x in items && y in items;
    if x == y {
      assert items[x] >= 2;
    }
  }

  lemma SubUnique<T(!new)>(items: multiset<T>, all: multiset<T>, id: T -> nat)
    requires items <= all && Unique(all, id)
    ensures Unique(items, id)
  {
    forall x | x in items
      ensures items[x] == 1
    {
      assert x in all;
    }
  }

  // ----- orders

  /** Ascending identifiers. */
  ghost predicate ListsIds(ids: seq<nat>, all: set<nat>)
  {
    (forall i, j | 0 <= i < j < |ids| :: ids[i] < ids[j]) && forall id :: id in ids <==> id in all
  }

  lemma SingleLess(a: Key, b: Key)
    requires |a| == |b| == 1
    ensures Less(a, b) <==> a[0] < b[0]
  {
    assert !Less(a[1..], b[1..]);
  }

  method AscendIds(all: set<nat>) returns (ids: seq<nat>)
    ensures ListsIds(ids, all)
  {
    var keys := set id | id in all :: [id];
    var ordered := Ascend(keys);
    forall k | 0 <= k < |ordered|
      ensures |ordered[k]| == 1 && ordered[k][0] in all
    {
      assert ordered[k] in keys;
    }
    ids := seq(|ordered|, k requires 0 <= k < |ordered| => ordered[k][0]);
    forall i, j | 0 <= i < j < |ids|
      ensures ids[i] < ids[j]
    {
      assert Less(ordered[i], ordered[j]);
      SingleLess(ordered[i], ordered[j]);
    }
    forall id | id in all
      ensures id in ids
    {
      assert [id] in keys;
      var k :| 0 <= k < |ordered| && ordered[k] == [id];
      assert ids[k] == id;
    }
  }

  lemma IdsAreUnique(ids: seq<nat>, ids': seq<nat>, all: set<nat>)
    requires ListsIds(ids, all) && ListsIds(ids', all)
    ensures ids == ids'
  {
    var keys := seq(|ids|, k requires 0 <= k < |ids| => [ids[k]]);
    var keys' := seq(|ids'|, k requires 0 <= k < |ids'| => [ids'[k]]);
    var set' := set id | id in all :: [id];
    KeysOfIds(ids, all, keys, set');
    KeysOfIds(ids', all, keys', set');
    ListIsUnique(keys, keys', set');
    assert forall k | 0 <= k < |ids| :: keys[k] == [ids[k]] && keys'[k] == [ids'[k]];
  }

  lemma KeysOfIds(ids: seq<nat>, all: set<nat>, keys: seq<Key>, keySet: set<Key>)
    requires ListsIds(ids, all) && |keys| == |ids| && forall k | 0 <= k < |ids| :: keys[k] == [ids[k]]
    requires keySet == set id | id in all :: [id]
    ensures Lists(keys, keySet)
  {
    forall key
      ensures key in keys <==> key in keySet
    {
      if key in keySet {
        var id :| id in all && key == [id];
        var k :| 0 <= k < |ids| && ids[k] == id;
        assert keys[k] == key;
      }
    }
  }

  function EdgeKey(e: ProjectedEdge): (k: Key) { [e.source, e.target, e.id] }

  /** The edges by source, target and identifier. */
  ghost predicate ListsEdges(order: seq<ProjectedEdge>, all: set<ProjectedEdge>)
  {
    && (forall i, j | 0 <= i < j < |order| :: Less(EdgeKey(order[i]), EdgeKey(order[j])))
    && (forall e :: e in order <==> e in all)
  }

  lemma EdgeOrderIsUnique(order: seq<ProjectedEdge>, order': seq<ProjectedEdge>, all: set<ProjectedEdge>)
    requires ListsEdges(order, all) && ListsEdges(order', all)
    requires forall x, y | x in all && y in all && x.id == y.id :: x == y
    ensures order == order'
  {
    var keys := seq(|order|, k requires 0 <= k < |order| => EdgeKey(order[k]));
    var keys' := seq(|order'|, k requires 0 <= k < |order'| => EdgeKey(order'[k]));
    var set' := set e | e in all :: EdgeKey(e);
    KeysOfEdges(order, all, keys, set');
    KeysOfEdges(order', all, keys', set');
    ListIsUnique(keys, keys', set');
    forall k | 0 <= k < |order|
      ensures order[k] == order'[k]
    {
      assert keys[k] == EdgeKey(order[k]) && keys'[k] == EdgeKey(order'[k]);
      assert order[k] in all && order'[k] in all;
    }
  }

  lemma KeysOfEdges(order: seq<ProjectedEdge>, all: set<ProjectedEdge>, keys: seq<Key>, keySet: set<Key>)
    requires ListsEdges(order, all) && |keys| == |order| && forall k | 0 <= k < |order| :: keys[k] == EdgeKey(order[k])
    requires keySet == set e | e in all :: EdgeKey(e)
    ensures Lists(keys, keySet)
  {
    forall key
      ensures key in keys <==> key in keySet
    {
      if key in keys {
        var k :| 0 <= k < |keys| && keys[k] == key;
        assert order[k] in all;
      }
      if key in keySet {
        var e :| e in all && key == EdgeKey(e);
        var k :| 0 <= k < |order| && order[k] == e;
        assert keys[k] == key;
      }
    }
  }

  /** The position of every identifier. */
  ghost predicate Positions(indices: map<nat, nat>, ids: seq<nat>)
  {
    && (forall k | 0 <= k < |ids| :: ids[k] in indices && indices[ids[k]] == k)
    && (forall id | id in indices :: indices[id] < |ids| && ids[indices[id]] == id)
  }

  method BuildPositions(ids: seq<nat>) returns (indices: map<nat, nat>)
    requires forall i, j | 0 <= i < j < |ids| :: ids[i] < ids[j]
    ensures Positions(indices, ids)
  {
    indices := map[];
    var k := 0;
    while k < |ids|
      invariant 0 <= k <= |ids| && Positions(indices, ids[..k])
    {
      assert forall id | id in indices :: id in ids[..k];
      indices := indices[ids[k] := k];
      k := k + 1;
    }
    assert ids[..k] == ids;
  }

  /** Drops edges into the order of their keys; an edge whose ends are unknown is an error. */
  method OrderEdges(edges: map<nat, ProjectedEdge>, indices: map<nat, nat>) returns (order: Option<seq<ProjectedEdge>>)
    requires forall id | id in edges :: edges[id].id == id
    ensures order.Some? <==> forall id | id in edges :: edges[id].source in indices && edges[id].target in indices
    ensures order.Some? ==> ListsEdges(order.value, edges.Values)
  {
    var ordered: map<Key, ProjectedEdge> := map[];
    var rest := edges.Keys;
    while rest != {}
      invariant rest <= edges.Keys
      invariant forall id | id in edges.Keys - rest :: edges[id].source in indices && edges[id].target in indices
      invariant forall id | id in edges.Keys - rest :: EdgeKey(edges[id]) in ordered
      invariant forall k | k in ordered :: ordered[k] in edges.Values && EdgeKey(ordered[k]) == k
    {
      var id :| id in rest;
      var e := edges[id];
      if e.source !in indices || e.target !in indices {
        return None;
      }
      ordered := ordered[EdgeKey(e) := e];
      rest := rest - {id};
    }
    var keys := Ascend(ordered.Keys);
    forall k | 0 <= k < |keys|
      ensures keys[k] in ordered
    {
      assert keys[k] in ordered.Keys;
    }
    var result := seq(|keys|, k requires 0 <= k < |keys| => ordered[keys[k]]);
    forall e
      ensures e in result <==> e in edges.Values
    {
      if e in edges.Values {
        assert e.id in edges.Keys && edges[e.id] == e;
        var k :| 0 <= k < |keys| && keys[k] == EdgeKey(e);
        assert ordered[keys[k]].id == e.id;
        assert result[k] == e;
      }
    }
    return Some(result);
  }

  // ----- rows

  /** The rows follow the edge order: row `u` holds the edges whose source is the `u`th vertex. */
  ghost predicate RowsOf(csr: SnapshotCsr, order: seq<ProjectedEdge>)
  {
    && |csr.edgeIds| == |csr.neighbors| == |order|
    && Offsets(csr.offsets, csr.VertexCount(), |order|)
    && (forall k | 0 <= k < |order| ::
          csr.edgeIds[k] == order[k].id && csr.neighbors[k] < csr.VertexCount()
              && csr.vertexIds[csr.neighbors[k]] == order[k].target)
    && (forall u: nat, k: nat | u < csr.VertexCount() && k < |order| ::
          InRange(csr.offsets, u, k) <==> csr.vertexIds[u] == order[k].source)
  }

  /** Sources in key order give grouped owners. */
  lemma SourcesAreGrouped(order: seq<ProjectedEdge>, all: set<ProjectedEdge>, ids: seq<nat>, indices: map<nat, nat>,
                          owners: seq<nat>)
    requires ListsEdges(order, all) && Positions(indices, ids) && (forall i, j | 0 <= i < j < |ids| :: ids[i] < ids[j])
    requires |owners| == |order|
    requires forall k | 0 <= k < |order| :: order[k].source in indices && owners[k] == indices[order[k].source]
    ensures Grouped(owners)
  {
    forall i, j | 0 <= i < j < |owners|
      ensures owners[i] <= owners[j]
    {
      assert Less(EdgeKey(order[i]), EdgeKey(order[j]));
      assert order[i].source <= order[j].source;
    }
  }

  method BuildRows(ids: seq<nat>, indices: map<nat, nat>, order: seq<ProjectedEdge>, ghost all: set<ProjectedEdge>)
    returns (offsets: seq<nat>, neighbors: seq<nat>, edgeIds: seq<nat>)
    requires ListsEdges(order, all) && Positions(indices, ids) && (forall i, j | 0 <= i < j < |ids| :: ids[i] < ids[j])
    requires forall k | 0 <= k < |order| :: order[k].source in indices && order[k].target in indices
    ensures RowsOf(SnapshotCsr(ids, offsets, neighbors, edgeIds, None, map[], map[]), order)
  {
    var owners := seq(|order|, k requires 0 <= k < |order| => indices[order[k].source]);
    SourcesAreGrouped(order, all, ids, indices, owners);
    offsets := BuildOffsets(owners, |ids|);
    neighbors, edgeIds := [], [];
    var k := 0;
    while k < |order|
      invariant 0 <= k <= |order| && |neighbors| == |edgeIds| == k
      invariant forall i | 0 <= i < k :: edgeIds[i] == order[i].id && neighbors[i] == indices[order[i].target]
    {
      neighbors := neighbors + [indices[order[k].target]];
      edgeIds := edgeIds + [order[k].id];
      k := k + 1;
    }
  }

  // ----- the reverse rows

  ghost function ReverseKey(csr: SnapshotCsr, e: nat): Key
    requires |csr.offsets| > 0 && csr.offsets[0] == 0 && e < |csr.neighbors| == csr.offsets[|csr.offsets| - 1]
  {
    [csr.neighbors[e], csr.Source(e), e]
  }

  ghost function ReverseKeys(csr: SnapshotCsr): set<Key>
    requires |csr.offsets| > 0 && csr.offsets[0] == 0 && |csr.neighbors| == csr.offsets[|csr.offsets| - 1]
  {
    set e: nat | e < |csr.neighbors| :: ReverseKey(csr, e)
  }

  /** The reverse rows list every edge by target, source and position. */
  ghost predicate ReverseOf(csr: SnapshotCsr, r: ReverseCsr, keys: seq<Key>)
    requires |csr.offsets| > 0 && csr.offsets[0] == 0 && |csr.neighbors| == csr.offsets[|csr.offsets| - 1]
  {
    && Lists(keys, ReverseKeys(csr))
    && |r.neighbors| == |r.forwardEdgeIndices| == |keys| == |csr.neighbors|
    && Offsets(r.offsets, csr.VertexCount(), |keys|)
    && (forall p | 0 <= p < |keys| :: |keys[p]| == 3 &&
          keys[p] == [keys[p][0], r.neighbors[p], r.forwardEdgeIndices[p]])
    && (forall v: nat, p: nat | p < |keys| :: InRange(r.offsets, v, p) <==> keys[p][0] == v)
  }

  method BuildReverse(csr: SnapshotCsr, sources: seq<nat>) returns (r: ReverseCsr)
    requires Offsets(csr.offsets, csr.VertexCount(), |csr.neighbors|)
    requires forall e | 0 <= e < |csr.neighbors| :: csr.neighbors[e] < csr.VertexCount()
    requires |sources| == |csr.neighbors| && forall e | 0 <= e < |csr.neighbors| :: sources[e] == csr.Source(e)
    ensures exists keys :: ReverseOf(csr, r, keys)
  {
    var entries: set<Key> := {};
    var e := 0;
    while e < |csr.neighbors|
      invariant 0 <= e <= |csr.neighbors|
      invariant forall i: nat | i < e :: ReverseKey(csr, i) in entries
      invariant forall k | k in entries :: exists i: nat :: i < e && k == ReverseKey(csr, i)
    {
      assert [csr.neighbors[e], sources[e], e] == ReverseKey(csr, e);
      entries := entries + {[csr.neighbors[e], sources[e], e]};
      e := e + 1;
    }
    assert entries == ReverseKeys(csr);
    var ordered := Ascend(entries);
    KeyShapes(csr, ordered);
    var owners := seq(|ordered|, p requires 0 <= p < |ordered| => ordered[p][0]);
    var offsets := BuildOffsets(owners, csr.VertexCount());
    r := ReverseCsr(offsets,
                    seq(|ordered|, p requires 0 <= p < |ordered| => ordered[p][1]),
                    seq(|ordered|, p requires 0 <= p < |ordered| => ordered[p][2]));
    assert ReverseOf(csr, r, ordered);
  }

  lemma KeyShapes(csr: SnapshotCsr, keys: seq<Key>)
    requires Offsets(csr.offsets, csr.VertexCount(), |csr.neighbors|)
    requires forall e | 0 <= e < |csr.neighbors| :: csr.neighbors[e] < csr.VertexCount()
    requires Lists(keys, ReverseKeys(csr))
    ensures forall p | 0 <= p < |keys| ::
        |keys[p]| == 3 && keys[p][2] < |csr.neighbors| && keys[p] == ReverseKey(csr, keys[p][2])
            && keys[p][0] < csr.VertexCount()
    ensures |keys| == |csr.neighbors|
    ensures forall p, q | 0 <= p <= q < |keys| :: keys[p][0] <= keys[q][0]
  {
    forall p | 0 <= p < |keys|
      ensures |keys[p]| == 3 && keys[p][2] < |csr.neighbors| && keys[p] == ReverseKey(csr, keys[p][2])
    {
      assert keys[p] in ReverseKeys(csr);
    }
    ListSize(keys, ReverseKeys(csr));
    KeyCount(csr, |csr.neighbors|);
    assert FirstKeys(csr, |csr.neighbors|) == ReverseKeys(csr);
    forall p, q | 0 <= p < q < |keys|
      ensures keys[p][0] <= keys[q][0]
    {
      assert Less(keys[p], keys[q]);
    }
  }

  ghost function FirstKeys(csr: SnapshotCsr, m: nat): set<Key>
    requires Offsets(csr.offsets, csr.VertexCount(), |csr.neighbors|) && m <= |csr.neighbors|
  {
    set e: nat | e < m :: ReverseKey(csr, e)
  }

  lemma {:induction false} KeyCount(csr: SnapshotCsr, m: nat)
    requires Offsets(csr.offsets, csr.VertexCount(), |csr.neighbors|) && m <= |csr.neighbors|
    ensures |FirstKeys(csr, m)| == m
  {
    hide FirstKeys, ReverseKey;
    if m == 0 {
      NoKeys(csr);
    } else {
      KeyCount(csr, m - 1);
      NextKey(csr, m - 1);
    }
  }

  lemma NoKeys(csr: SnapshotCsr)
    requires Offsets(csr.offsets, csr.VertexCount(), |csr.neighbors|)
    ensures FirstKeys(csr, 0) == {}
  {
  }

  lemma NextKey(csr: SnapshotCsr, m: nat)
    requires Offsets(csr.offsets, csr.VertexCount(), |csr.neighbors|) && m < |csr.neighbors|
    ensures FirstKeys(csr, m + 1) == FirstKeys(csr, m) + {ReverseKey(csr, m)}
    ensures ReverseKey(csr, m) !in FirstKeys(csr, m)
  {
    hide OwnerFrom;
    assert forall e: nat | e < m :: ReverseKey(csr, e)[2] == e;
  }

  /** Listing every edge once by target is exactly what it takes to be the transpose. */
  lemma ReverseIsTransposed(csr: SnapshotCsr, r: ReverseCsr, keys: seq<Key>)
    requires Offsets(csr.offsets, csr.VertexCount(), csr.EdgeCount()) && |csr.neighbors| == csr.EdgeCount()
    requires forall e | 0 <= e < |csr.neighbors| :: csr.neighbors[e] < csr.VertexCount()
    requires ReverseOf(csr, r, keys)
    ensures csr.Transposed(r)
  {
    KeyShapes(csr, keys);
    forall p | 0 <= p < |keys|
      ensures r.forwardEdgeIndices[p] == keys[p][2] && r.neighbors[p] == keys[p][1] == csr.Source(keys[p][2])
      ensures keys[p][0] == csr.neighbors[keys[p][2]]
    {
      assert keys[p] == ReverseKey(csr, keys[p][2]);
    }
    forall p, q | 0 <= p < q < csr.EdgeCount()
      ensures r.forwardEdgeIndices[p] != r.forwardEdgeIndices[q]
    {
      LessIsTotal(keys[p], keys[q]);
      assert Less(keys[p], keys[q]);
    }
    forall e: nat | e < csr.EdgeCount()
      ensures e in r.forwardEdgeIndices
    {
      assert ReverseKey(csr, e) in ReverseKeys(csr);
      var p :| 0 <= p < |keys| && keys[p] == ReverseKey(csr, e);
      assert r.forwardEdgeIndices[p] == e;
    }
    forall v: nat, p: nat | InRange(r.offsets, v, p)
      ensures p < |keys|
    {
      assert r.offsets[v + 1] <= r.offsets[csr.VertexCount()];
    }
  }

  lemma ReverseIsUnique(csr: SnapshotCsr, r: ReverseCsr, keys: seq<Key>, r': ReverseCsr, keys': seq<Key>)
    requires Offsets(csr.offsets, csr.VertexCount(), |csr.neighbors|)
    requires ReverseOf(csr, r, keys) && ReverseOf(csr, r', keys')
    ensures r == r'
  {
    ListIsUnique(keys, keys', ReverseKeys(csr));
    forall p | 0 <= p < |keys|
      ensures r.neighbors[p] == r'.neighbors[p] && r.forwardEdgeIndices[p] == r'.forwardEdgeIndices[p]
    {
      assert keys[p] == [keys[p][0], r.neighbors[p], r.forwardEdgeIndices[p]]
          == [keys[p][0], r'.neighbors[p], r'.forwardEdgeIndices[p]];
      assert keys[p][1] == r.neighbors[p] == r'.neighbors[p];
      assert keys[p][2] == r.forwardEdgeIndices[p] == r'.forwardEdgeIndices[p];
    }
    forall u: nat, v: nat, p: nat | InRange(r.offsets, u, p) && InRange(r'.offsets, v, p)
      ensures u == v
    {
      assert r.offsets[u + 1] <= r.offsets[csr.VertexCount()];
    }
    OffsetsAreUnique(r.offsets, r'.offsets, csr.VertexCount(), |keys|);
  }

  // ----- property columns

  predicate CellFits(properties: map<string, Value>, spec: ColumnSpec)
  {
    if spec.name in properties then spec.propertyType.Matches(properties[spec.name]) else !spec.required
  }

  function Cell(properties: map<string, Value>, spec: ColumnSpec): (c: Option<Value>)
  {
    if spec.name in properties then Some(properties[spec.name]) else None
  }

  ghost predicate ColumnsFit(entities: seq<map<string, Value>>, specs: seq<ColumnSpec>)
  {
    forall s, i | 0 <= s < |specs| && 0 <= i < |entities| :: CellFits(entities[i], specs[s])
  }

  ghost predicate ColumnOf(column: seq<Option<Value>>, entities: seq<map<string, Value>>, spec: ColumnSpec)
  {
    |column| == |entities| && forall i | 0 <= i < |entities| :: column[i] == Cell(entities[i], spec)
  }

  /** One column for each specification, in entity order. */
  ghost predicate ColumnsOf(columns: map<string, seq<Option<Value>>>, entities: seq<map<string, Value>>,
                            specs: seq<ColumnSpec>)
  {
    && (forall s | 0 <= s < |specs| :: specs[s].name in columns && ColumnOf(columns[specs[s].name], entities, specs[s]))
    && (forall name | name in columns :: exists s :: 0 <= s < |specs| && specs[s].name == name)
  }

  method BuildColumn(entities: seq<map<string, Value>>, spec: ColumnSpec)
    returns (r: Result<seq<Option<Value>>, ProjectionError>)
    ensures r.Ok? <==> forall i | 0 <= i < |entities| :: CellFits(entities[i], spec)
    ensures r.Ok? ==> ColumnOf(r.value, entities, spec)
  {
    var values := [];
    var i := 0;
    while i < |entities|
      invariant 0 <= i <= |entities| && ColumnOf(values, entities[..i], spec)
      invariant forall j | 0 <= j < i :: CellFits(entities[j], spec)
    {
      if spec.name in entities[i] {
        if !spec.propertyType.Matches(entities[i][spec.name]) {
          return Err(PropertyTypeMismatch);
        }
        values := values + [Some(entities[i][spec.name])];
      } else {
        if spec.required {
          return Err(MissingRequiredProperty);
        }
        values := values + [None];
      }
      i := i + 1;
    }
    return Ok(values);
  }

  method BuildColumns(entities: seq<map<string, Value>>, specs: seq<ColumnSpec>)
    returns (r: Result<map<string, seq<Option<Value>>>, ProjectionError>)
    requires DistinctNames(specs)
    ensures r.Ok? <==> ColumnsFit(entities, specs)
    ensures r.Ok? ==> ColumnsOf(r.value, entities, specs)
  {
    hide ColumnsOf, ColumnOf, ColumnsFit, DistinctNames, CellFits;
    var columns: map<string, seq<Option<Value>>> := map[];
    var s := 0;
    ColumnsNone(entities, specs);
    while s < |specs|
      invariant 0 <= s <= |specs| && ColumnsFit(entities, specs[..s]) && ColumnsOf(columns, entities, specs[..s])
    {
      ColumnsFitNext(entities, specs, s);
      var column := BuildColumn(entities, specs[s]);
      if column.Err? {
        return Err(column.error);
      }
      ColumnsNext(columns, entities, specs, s, column.value);
      columns := columns[specs[s].name := column.value];
      s := s + 1;
    }
    assert specs[..s] == specs;
    return Ok(columns);
  }

  lemma ColumnsNone(entities: seq<map<string, Value>>, specs: seq<ColumnSpec>)
    ensures ColumnsFit(entities, specs[..0]) && ColumnsOf(map[], entities, specs[..0])
  {
  }

  lemma ColumnsFitNext(entities: seq<map<string, Value>>, specs: seq<ColumnSpec>, s: nat)
    requires s < |specs| && ColumnsFit(entities, specs[..s])
    ensures (forall i | 0 <= i < |entities| :: CellFits(entities[i], specs[s]))
         <==> ColumnsFit(entities, specs[..s + 1])
    ensures !(forall i | 0 <= i < |entities| :: CellFits(entities[i], specs[s])) ==> !ColumnsFit(entities, specs)
  {
    var front := specs[..s + 1];
    assert front[s] == specs[s];
    assert forall t | 0 <= t < s :: front[t] == specs[..s][t];
  }

  lemma ColumnsNext(columns: map<string, seq<Option<Value>>>, entities: seq<map<string, Value>>,
                    specs: seq<ColumnSpec>, s: nat, column: seq<Option<Value>>)
    requires s < |specs| && DistinctNames(specs) && ColumnsOf(columns, entities, specs[..s])
    requires ColumnOf(column, entities, specs[s])
    ensures ColumnsOf(columns[specs[s].name := column], entities, specs[..s + 1])
  {
    hide ColumnOf;
    var front, columns' := specs[..s + 1], columns[specs[s].name := column];
    forall t | 0 <= t < |front|
      ensures front[t].name in columns' && ColumnOf(columns'[front[t].name], entities, front[t])
    {
      if t < s {
        assert front[t] == specs[..s][t];
      }
    }
    forall name | name in columns'
      ensures exists t :: 0 <= t < |front| && front[t].name == name
    {
      if name == specs[s].name {
        assert front[s].name == name;
      } else {
        var t :| 0 <= t < s && specs[..s][t].name == name;
        assert front[t].name == name;
      }
    }
  }

  lemma ColumnsAreUnique(columns: map<string, seq<Option<Value>>>, columns': map<string, seq<Option<Value>>>,
                         entities: seq<map<string, Value>>, specs: seq<ColumnSpec>)
    requires ColumnsOf(columns, entities, specs) && ColumnsOf(columns', entities, specs)
    ensures columns == columns'
  {
    forall name | name in columns
      ensures name in columns' && columns[name] == columns'[name]
    {
      var s :| 0 <= s < |specs| && specs[s].name == name;
      assert ColumnOf(columns[name], entities, specs[s]) && ColumnOf(columns'[name], entities, specs[s]);
    }
    forall name | name in columns'
      ensures name in columns
    {
      var s :| 0 <= s < |specs| && specs[s].name == name;
    }
  }
}

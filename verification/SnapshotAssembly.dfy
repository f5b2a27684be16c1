/** Assembly of a snapshot from its parts, and why the order of delivery does not matter. */
module SnapshotAssembly {
  import opened Wrappers
  import opened KernelValues
  import opened Csr
  import opened Projection
  import opened ProjectionEstimate
  import opened Ascending
  import opened RowOffsets
  import opened CsrAssembly
  import opened Sums
  import Partitions

  // ----- what is delivered, regardless of order

  function Provenances(parts: seq<Part>): (all: seq<PartitionProvenance>)
    ensures |all| == |parts|
  {
    seq(|parts|, i requires 0 <= i < |parts| => parts[i].provenance)
  }

  ghost function Snapshots(parts: seq<Part>): (all: seq<SnapshotProvenance>)
    ensures |all| == |parts|
  {
    seq(|parts|, i requires 0 <= i < |parts| => parts[i].snapshot)
  }

  datatype Contents = Contents(
    vertices: multiset<ProjectedVertex>,
    edges: multiset<ProjectedEdge>,
    provenance: multiset<PartitionProvenance>,
    snapshots: multiset<SnapshotProvenance>)

  ghost function ContentsOf(parts: seq<Part>): Contents
  {
    Contents(multiset(AllVertices(parts)), multiset(AllEdges(parts)), multiset(Provenances(parts)),
        multiset(Snapshots(parts)))
  }

  // ----- which deliveries are accepted, and what they become

  ghost predicate Known(vertices: multiset<ProjectedVertex>, id: nat)
  {
    exists v :: v in vertices && v.id == id
  }

  function VertexIdOf(v: ProjectedVertex): (id: nat) { v.id }
  function EdgeIdOf(e: ProjectedEdge): (id: nat) { e.id }

  ghost predicate Acceptable(c: Contents, spec: ProjectionSpec)
  {
    && c.snapshots != multiset{} && (forall s, t | s in c.snapshots && t in c.snapshots :: s == t)
    && (forall s | s in c.snapshots :: Partitions.Complete(c.provenance, s.shards))
    && Unique(c.vertices, VertexIdOf) && |IdSet(c)| <= U32_MAX
    && Unique(c.edges, EdgeIdOf) && |EdgeSet(c)| <= U32_MAX
    && (forall e | e in c.edges :: Known(c.vertices, e.source) && Known(c.vertices, e.target))
    && (forall v, i | v in c.vertices && 0 <= i < |spec.vertexProperties| ::
          CellFits(v.properties, spec.vertexProperties[i]))
    && (forall e, i | e in c.edges && 0 <= i < |spec.edgeProperties| :: CellFits(e.properties, spec.edgeProperties[i]))
  }

  datatype Assembled = Assembled(
    snapshot: SnapshotProvenance, partitions: seq<PartitionProvenance>, csr: SnapshotCsr, usage: BudgetUsage)

  /** The orders behind an assembled snapshot. */
  datatype Orders = Orders(vertices: seq<ProjectedVertex>, edges: seq<ProjectedEdge>, reverse: seq<Key>)

  function PropertiesOfVertices(vertices: seq<ProjectedVertex>): (p: seq<map<string, Value>>)
    ensures |p| == |vertices| && forall i | 0 <= i < |p| :: p[i] == vertices[i].properties
  {
    seq(|vertices|, i requires 0 <= i < |vertices| => vertices[i].properties)
  }

  function PropertiesOfEdges(edges: seq<ProjectedEdge>): (p: seq<map<string, Value>>)
    ensures |p| == |edges| && forall i | 0 <= i < |p| :: p[i] == edges[i].properties
  {
    seq(|edges|, i requires 0 <= i < |edges| => edges[i].properties)
  }

  ghost function EdgeSet(c: Contents): set<ProjectedEdge> { set e | e in c.edges }
  ghost function IdSet(c: Contents): set<nat> { set v | v in c.vertices :: v.id }

  /** Every table of the snapshot is in its one canonical order. */
  ghost predicate Canonical(c: Contents, spec: ProjectionSpec, csr: SnapshotCsr, o: Orders)
  {
    && ListsIds(csr.vertexIds, IdSet(c))
    && |o.vertices| == csr.VertexCount()
    && (forall i | 0 <= i < |o.vertices| :: o.vertices[i] in c.vertices && o.vertices[i].id == csr.vertexIds[i])
    && ListsEdges(o.edges, EdgeSet(c)) && RowsOf(csr, o.edges)
    && csr.reverse.Some? == spec.includeReverse
    && (csr.reverse.Some? ==> ReverseOf(csr, csr.reverse.value, o.reverse))
    && ColumnsOf(csr.vertexProperties, PropertiesOfVertices(o.vertices), spec.vertexProperties)
    && ColumnsOf(csr.edgeProperties, PropertiesOfEdges(o.edges), spec.edgeProperties)
  }

  lemma RowsAreUnique(csr: SnapshotCsr, csr': SnapshotCsr, order: seq<ProjectedEdge>)
    requires csr.vertexIds == csr'.vertexIds
    requires (forall i, j | 0 <= i < j < |csr.vertexIds| :: csr.vertexIds[i] < csr.vertexIds[j])
    requires RowsOf(csr, order) && RowsOf(csr', order)
    ensures csr.offsets == csr'.offsets && csr.neighbors == csr'.neighbors && csr.edgeIds == csr'.edgeIds
  {
    forall k | 0 <= k < |order|
      ensures csr.neighbors[k] == csr'.neighbors[k]
    {
      assert csr.vertexIds[csr.neighbors[k]] == csr.vertexIds[csr'.neighbors[k]];
    }
    forall u: nat, v: nat, k: nat | InRange(csr.offsets, u, k) && InRange(csr'.offsets, v, k)
      ensures u == v
    {
      assert csr.offsets[u + 1] <= csr.offsets[csr.VertexCount()];
      assert csr.vertexIds[u] == csr.vertexIds[v];
    }
    OffsetsAreUnique(csr.offsets, csr'.offsets, csr.VertexCount(), |order|);
  }

  /** There is only one canonical snapshot of what was delivered. */
  lemma CanonicalIsUnique(c: Contents, spec: ProjectionSpec, csr: SnapshotCsr, o: Orders, csr': SnapshotCsr, o': Orders)
    requires Acceptable(c, spec) && Canonical(c, spec, csr, o) && Canonical(c, spec, csr', o')
    ensures csr == csr'
  {
    IdsAreUnique(csr.vertexIds, csr'.vertexIds, IdSet(c));
    EdgeOrderIsUnique(o.edges, o'.edges, EdgeSet(c)) by { EdgesByIdentity(c, spec); }
    RowsAreUnique(csr, csr', o.edges);
    VerticesByIdentity(c, spec, o.vertices, o'.vertices);
    ColumnsAreUnique(csr.vertexProperties, csr'.vertexProperties, PropertiesOfVertices(o.vertices),
        spec.vertexProperties);
    ColumnsAreUnique(csr.edgeProperties, csr'.edgeProperties, PropertiesOfEdges(o.edges), spec.edgeProperties);
    if spec.includeReverse {
      SameReverse(csr, csr', csr'.reverse.value, o'.reverse);
      ReverseIsUnique(csr, csr.reverse.value, o.reverse, csr'.reverse.value, o'.reverse);
    }
  }

  lemma EdgesByIdentity(c: Contents, spec: ProjectionSpec)
    requires Acceptable(c, spec)
    ensures forall x, y | x in EdgeSet(c) && y in EdgeSet(c) && x.id == y.id :: x == y
  {
    assert forall x, y | x in EdgeSet(c) && y in EdgeSet(c) && x.id == y.id :: EdgeIdOf(x) == EdgeIdOf(y);
  }

  lemma VerticesByIdentity(c: Contents, spec: ProjectionSpec, vertices: seq<ProjectedVertex>,
                           vertices': seq<ProjectedVertex>)
    requires Acceptable(c, spec) && |vertices| == |vertices'|
    requires forall i | 0 <= i < |vertices| ::
        vertices[i] in c.vertices && vertices'[i] in c.vertices && vertices[i].id == vertices'[i].id
    ensures vertices == vertices'
  {
    assert forall i | 0 <= i < |vertices| :: VertexIdOf(vertices[i]) == VertexIdOf(vertices'[i]);
  }

  /** The reverse rows depend on the forward rows only. */
  lemma SameReverse(csr: SnapshotCsr, csr': SnapshotCsr, r: ReverseCsr, keys: seq<Key>)
    requires csr.vertexIds == csr'.vertexIds && csr.offsets == csr'.offsets && csr.neighbors == csr'.neighbors
    requires |csr.offsets| > 0 && csr.offsets[0] == 0 && |csr.neighbors| == csr.offsets[|csr.offsets| - 1]
    requires ReverseOf(csr', r, keys)
    ensures ReverseOf(csr, r, keys)
  {
    assert forall e: nat | e < |csr.neighbors| :: ReverseKey(csr, e) == ReverseKey(csr', e);
    assert ReverseKeys(csr) == ReverseKeys(csr');
  }

  // ----- the assembly itself

  /** A list without repeats has as many items as its set. */
  lemma {:induction false} DistinctCount<T>(s: seq<T>, all: set<T>)
    requires (forall i, j | 0 <= i < j < |s| :: s[i] != s[j]) && forall x :: x in s <==> x in all
    ensures |s| == |all|
    decreases |s|
  {
    if s == [] {
      assert all == {};
    } else {
      var last := s[|s| - 1];
      var front := s[..|s| - 1];
      forall x
        ensures x in front <==> x in all - {last}
      {
        if x in all && x != last {
          var k :| 0 <= k < |s| && s[k] == x;
          assert front[k] == x;
        }
      }
      DistinctCount(front, all - {last});
      assert last in s;
    }
  }

  lemma {:induction false} PrefixContents(parts: seq<Part>, i: nat)
    requires i <= |parts|
    ensures AllVertices(parts[..i]) <= AllVertices(parts) && AllEdges(parts[..i]) <= AllEdges(parts)
    decreases |parts|
  {
    if i == |parts| {
      assert parts[..i] == parts;
    } else {
      PrefixContents(parts[..|parts| - 1], i);
      assert parts[..|parts| - 1][..i] == parts[..i];
    }
  }

  lemma PrefixUnique<T(!new)>(a: seq<T>, b: seq<T>, id: T -> nat)
    requires a <= b && !Unique(multiset(a), id)
    ensures !Unique(multiset(b), id)
  {
    assert b == a + b[|a|..];
    if Unique(multiset(b), id) {
      SubUnique(multiset(a), multiset(b), id);
    }
  }

  method Collect(parts: seq<Part>)
    returns (r: Result<(map<nat, ProjectedVertex>, map<nat, ProjectedEdge>), ProjectionError>)
    ensures r.Ok? <==> Unique(multiset(AllVertices(parts)), VertexIdOf) && Unique(multiset(AllEdges(parts)), EdgeIdOf)
    ensures r.Ok? ==>
              Indexed(r.value.0, AllVertices(parts), VertexIdOf) && Indexed(r.value.1, AllEdges(parts), EdgeIdOf)
  {
    hide Unique, Indexed;
    var vertices: map<nat, ProjectedVertex>, edges: map<nat, ProjectedEdge> := map[], map[];
    IndexedNone<ProjectedVertex>(VertexIdOf);
    IndexedNone<ProjectedEdge>(EdgeIdOf);
    var i := 0;
    while i < |parts|
      invariant 0 <= i <= |parts|
      invariant Indexed(vertices, AllVertices(parts[..i]), VertexIdOf) && Indexed(edges, AllEdges(parts[..i]), EdgeIdOf)
    {
      assert parts[..i + 1][..i] == parts[..i];
      PrefixContents(parts, i + 1);
      var moreVertices := AddAll(parts[i].vertices, VertexIdOf, vertices, AllVertices(parts[..i]));
      if moreVertices.None? {
        PrefixUnique(AllVertices(parts[..i + 1]), AllVertices(parts), VertexIdOf);
        return Err(DuplicateVertex);
      }
      var moreEdges := AddAll(parts[i].edges, EdgeIdOf, edges, AllEdges(parts[..i]));
      if moreEdges.None? {
        PrefixUnique(AllEdges(parts[..i + 1]), AllEdges(parts), EdgeIdOf);
        return Err(DuplicateEdge);
      }
      vertices, edges := moreVertices.value, moreEdges.value;
      i := i + 1;
    }
    assert parts[..i] == parts;
    IndexedIsUnique(vertices, AllVertices(parts), VertexIdOf);
    IndexedIsUnique(edges, AllEdges(parts), EdgeIdOf);
    return Ok((vertices, edges));
  }

  lemma IndexedNone<T(!new)>(id: T -> nat)
    ensures Indexed(map[], [], id)
  {
  }

  lemma IndexedIsUnique<T(!new)>(m: map<nat, T>, seen: seq<T>, id: T -> nat)
    requires Indexed(m, seen, id)
    ensures Unique(multiset(seen), id)
  {
  }

  /** The collected maps hold exactly the delivered contents. */
  ghost predicate Holds(c: Contents, vertices: map<nat, ProjectedVertex>, edges: map<nat, ProjectedEdge>)
  {
    && vertices.Keys == IdSet(c) && edges.Values == EdgeSet(c)
    && (forall id | id in vertices :: vertices[id] in c.vertices && vertices[id].id == id)
    && (forall id | id in edges :: edges[id] in c.edges && edges[id].id == id)
    && (forall v | v in c.vertices :: v.id in vertices && vertices[v.id] == v)
    && (forall e | e in c.edges :: e.id in edges && edges[e.id] == e)
  }

  lemma IndexedHolds<T(!new)>(m: map<nat, T>, seen: seq<T>, id: T -> nat)
    requires Indexed(m, seen, id)
    ensures forall k | k in m :: m[k] in multiset(seen) && id(m[k]) == k
    ensures forall x | x in multiset(seen) :: id(x) in m && m[id(x)] == x
  {
    forall x | x in multiset(seen)
      ensures id(x) in m && m[id(x)] == x
    {
      assert x in seen;
    }
  }

  /** Reads the collected maps back as the delivered contents. */
  lemma CollectedIs(parts: seq<Part>, vertices: map<nat, ProjectedVertex>, edges: map<nat, ProjectedEdge>)
    requires Indexed(vertices, AllVertices(parts), VertexIdOf) && Indexed(edges, AllEdges(parts), EdgeIdOf)
    ensures Holds(ContentsOf(parts), vertices, edges)
  {
    hide Indexed, AllVertices, AllEdges;
    var c := ContentsOf(parts);
    IndexedHolds(vertices, AllVertices(parts), VertexIdOf);
    IndexedHolds(edges, AllEdges(parts), EdgeIdOf);
    forall v | v in c.vertices
      ensures v.id in vertices && vertices[v.id] == v
    {
      assert VertexIdOf(v) == v.id;
    }
    forall e | e in c.edges
      ensures e.id in edges && edges[e.id] == e
    {
      assert EdgeIdOf(e) == e.id;
    }
    forall id | id in vertices
      ensures vertices[id] in c.vertices && vertices[id].id == id
    {
      assert VertexIdOf(vertices[id]) == id;
    }
    forall id | id in edges
      ensures edges[id] in c.edges && edges[id].id == id
    {
      assert EdgeIdOf(edges[id]) == id;
    }
    SameSets(c, vertices, edges);
  }

  lemma SameSets(c: Contents, vertices: map<nat, ProjectedVertex>, edges: map<nat, ProjectedEdge>)
    requires forall id | id in vertices :: vertices[id] in c.vertices && vertices[id].id == id
    requires forall id | id in edges :: edges[id] in c.edges && edges[id].id == id
    requires forall v | v in c.vertices :: v.id in vertices && vertices[v.id] == v
    requires forall e | e in c.edges :: e.id in edges && edges[e.id] == e
    ensures vertices.Keys == IdSet(c) && edges.Values == EdgeSet(c)
  {
    forall id | id in vertices.Keys
      ensures id in IdSet(c)
    {
      assert vertices[id] in c.vertices;
    }
    forall e | e in edges.Values
      ensures e in EdgeSet(c)
    {
      var id :| id in edges && edges[id] == e;
    }
    forall e | e in EdgeSet(c)
      ensures e in edges.Values
    {
      assert edges[e.id] == e;
    }
  }

  /** Sorts vertices and edges, and rejects what the row format cannot hold. */
  method OrderAll(vertices: map<nat, ProjectedVertex>, edges: map<nat, ProjectedEdge>)
    returns (r: Result<(seq<nat>, map<nat, nat>, seq<ProjectedEdge>), ProjectionError>)
    requires forall id | id in edges :: edges[id].id == id
    ensures r.Ok? <==>
              && |vertices.Keys| <= U32_MAX && |edges.Values| <= U32_MAX
              && forall id | id in edges :: edges[id].source in vertices && edges[id].target in vertices
    ensures r.Ok? ==>
              ListsIds(r.value.0, vertices.Keys) && Positions(r.value.1, r.value.0)
                  && ListsEdges(r.value.2, edges.Values)
    ensures r.Ok? ==>
              forall k | 0 <= k < |r.value.2| :: r.value.2[k].source in r.value.1 && r.value.2[k].target in r.value.1
  {
    hide ListsEdges, ListsIds, Positions;
    var ids := AscendIds(vertices.Keys);
    IdsFacts(ids, vertices.Keys);
    if |ids| > U32_MAX {
      return Err(ResourceLimit);
    }
    var indices := BuildPositions(ids);
    PositionsAre(indices, ids, vertices.Keys);
    var ordered := OrderEdges(edges, indices);
    if ordered.None? {
      return Err(DanglingEdge);
    }
    EdgeFacts(ordered.value, edges.Values);
    if |ordered.value| > U32_MAX {
      return Err(ResourceLimit);
    }
    forall k | 0 <= k < |ordered.value|
      ensures ordered.value[k].source in indices && ordered.value[k].target in indices
    {
      assert ordered.value[k] in edges.Values;
    }
    return Ok((ids, indices, ordered.value));
  }

  /** Forward rows and, on request, reverse rows. */
  method BuildAllRows(ids: seq<nat>, indices: map<nat, nat>, order: seq<ProjectedEdge>, includeReverse: bool,
                      ghost ids': set<nat>, ghost edges: set<ProjectedEdge>)
    returns (csr: SnapshotCsr, ghost keys: seq<Key>)
    requires ListsIds(ids, ids') && Positions(indices, ids) && ListsEdges(order, edges)
    requires forall k | 0 <= k < |order| :: order[k].source in indices && order[k].target in indices
    ensures csr.vertexIds == ids && RowsOf(csr, order) && csr.reverse.Some? == includeReverse
    ensures csr.reverse.Some? ==> ReverseRowsOf(csr, keys)
  {
    hide ListsEdges, ListsIds, Positions, RowsOf, ReverseRowsOf;
    IdsFacts(ids, ids');
    var offsets, neighbors, edgeIds := BuildRows(ids, indices, order, edges);
    csr := SnapshotCsr(ids, offsets, neighbors, edgeIds, None, map[], map[]);
    keys := [];
    if includeReverse {
      RowFacts(csr, order, indices);
      var reverse := BuildReverse(csr, seq(|order|, k requires 0 <= k < |order| => indices[order[k].source]));
      keys :| ReverseOf(csr, reverse, keys);
      ReverseAdded(csr, order, reverse, keys);
      csr := csr.(reverse := Some(reverse));
    }
  }

  ghost predicate ReverseRowsOf(csr: SnapshotCsr, keys: seq<Key>)
  {
    && csr.reverse.Some? && |csr.offsets| > 0 && csr.offsets[0] == 0
    && |csr.neighbors| == csr.offsets[|csr.offsets| - 1]
    && ReverseOf(csr, csr.reverse.value, keys)
  }

  lemma ReverseAdded(csr: SnapshotCsr, order: seq<ProjectedEdge>, r: ReverseCsr, keys: seq<Key>)
    requires RowsOf(csr, order) && |csr.offsets| > 0 && csr.offsets[0] == 0
    requires |csr.neighbors| == csr.offsets[|csr.offsets| - 1] && ReverseOf(csr, r, keys)
    ensures RowsOf(csr.(reverse := Some(r)), order) && ReverseRowsOf(csr.(reverse := Some(r)), keys)
  {
    SameReverse(csr.(reverse := Some(r)), csr, r, keys);
  }

  /** Builds the tables once vertices and edges are known. */
  method BuildTables(vertices: map<nat, ProjectedVertex>, edges: map<nat, ProjectedEdge>, spec: ProjectionSpec,
                     ghost parts: seq<Part>)
    returns (r: Result<SnapshotCsr, ProjectionError>, ghost o: Orders)
    requires spec.Valid()
    requires Indexed(vertices, AllVertices(parts), VertexIdOf) && Indexed(edges, AllEdges(parts), EdgeIdOf)
    ensures r.Ok? <==> Buildable(ContentsOf(parts), spec)
    ensures r.Ok? ==> Canonical(ContentsOf(parts), spec, r.value, o)
  {
    hide Indexed, Canonical, RowsOf, ReverseRowsOf, ColumnsOf, ListsEdges, ListsIds, ColumnsFit, Positions, Buildable,
      Holds, Arranged, DistinctNames;
    ghost var c := ContentsOf(parts);
    o := Orders([], [], []);
    CollectedIs(parts, vertices, edges);
    KeyedById(c, vertices, edges);
    var tables := OrderAll(vertices, edges);
    if tables.Err? {
      Unbuildable(c, spec, vertices, edges);
      return Err(tables.error), o;
    }
    var (ids, indices, order) := tables.value;
    var csr, keys := BuildAllRows(ids, indices, order, spec.includeReverse, vertices.Keys, edges.Values);
    IdsFacts(ids, vertices.Keys);
    var ordinals := seq(|ids|, k requires 0 <= k < |ids| => vertices[ids[k]]);
    o := Orders(ordinals, order, keys);
    Arrange(c, vertices, edges, ids, o);
    var columns := BuildAllColumns(ordinals, order, spec);
    if columns.Err? {
      Misfit(c, spec, vertices, edges, ids, o);
      return Err(columns.error), o;
    }
    IsBuildable(c, spec, vertices, edges, o, ids);
    IsCanonical(c, spec, vertices, edges, o, csr, columns.value.0, columns.value.1);
    return Ok(csr.(vertexProperties := columns.value.0, edgeProperties := columns.value.1)), o;
  }

  method BuildAllColumns(vertices: seq<ProjectedVertex>, edges: seq<ProjectedEdge>, spec: ProjectionSpec)
    returns (r: Result<(map<string, seq<Option<Value>>>, map<string, seq<Option<Value>>>), ProjectionError>)
    requires spec.Valid()
    ensures r.Ok? <==> ColumnsFit(PropertiesOfVertices(vertices), spec.vertexProperties) &&
                       ColumnsFit(PropertiesOfEdges(edges), spec.edgeProperties)
    ensures r.Ok? ==> ColumnsOf(r.value.0, PropertiesOfVertices(vertices), spec.vertexProperties)
    ensures r.Ok? ==> ColumnsOf(r.value.1, PropertiesOfEdges(edges), spec.edgeProperties)
  {
    hide ColumnsFit, ColumnsOf, DistinctNames;
    var vertexColumns :- BuildColumns(PropertiesOfVertices(vertices), spec.vertexProperties);
    var edgeColumns :- BuildColumns(PropertiesOfEdges(edges), spec.edgeProperties);
    return Ok((vertexColumns, edgeColumns));
  }

  lemma KeyedById(c: Contents, vertices: map<nat, ProjectedVertex>, edges: map<nat, ProjectedEdge>)
    requires Holds(c, vertices, edges)
    ensures forall id | id in edges :: edges[id].id == id
  {
  }

  /** The tables are laid out over the contents, and no edge dangles. */
  ghost predicate Arranged(c: Contents, vertices: map<nat, ProjectedVertex>, edges: map<nat, ProjectedEdge>,
                           ids: seq<nat>, o: Orders)
  {
    && |IdSet(c)| <= U32_MAX && |EdgeSet(c)| <= U32_MAX
    && (forall id | id in edges :: edges[id].source in vertices && edges[id].target in vertices)
    && ListsIds(ids, IdSet(c)) && ListsEdges(o.edges, EdgeSet(c)) && |o.vertices| == |ids|
    && (forall k | 0 <= k < |ids| :: ids[k] in vertices && o.vertices[k] == vertices[ids[k]])
  }

  lemma Arrange(c: Contents, vertices: map<nat, ProjectedVertex>, edges: map<nat, ProjectedEdge>, ids: seq<nat>,
                o: Orders)
    requires Holds(c, vertices, edges) && |vertices.Keys| <= U32_MAX && |edges.Values| <= U32_MAX
    requires forall id | id in edges :: edges[id].source in vertices && edges[id].target in vertices
    requires ListsIds(ids, vertices.Keys) && ListsEdges(o.edges, edges.Values) && |o.vertices| == |ids|
    requires forall k | 0 <= k < |ids| :: ids[k] in vertices && o.vertices[k] == vertices[ids[k]]
    ensures Arranged(c, vertices, edges, ids, o)
  {
  }

  lemma IdsFacts(ids: seq<nat>, all: set<nat>)
    requires ListsIds(ids, all)
    ensures |ids| == |all|
    ensures forall i, j | 0 <= i < j < |ids| :: ids[i] < ids[j]
    ensures forall k | 0 <= k < |ids| :: ids[k] in all
  {
    assert forall k | 0 <= k < |ids| :: ids[k] in ids;
    DistinctCount(ids, all);
  }

  lemma EdgeFacts(order: seq<ProjectedEdge>, all: set<ProjectedEdge>)
    requires ListsEdges(order, all)
    ensures |order| == |all|
    ensures forall k | 0 <= k < |order| :: order[k] in all
  {
    assert forall k | 0 <= k < |order| :: order[k] in order;
    forall i, j | 0 <= i < j < |order|
      ensures order[i] != order[j]
    {
      LessIsTotal(EdgeKey(order[i]), EdgeKey(order[j]));
    }
    DistinctCount(order, all);
  }

  lemma PositionsAre(indices: map<nat, nat>, ids: seq<nat>, all: set<nat>)
    requires Positions(indices, ids) && ListsIds(ids, all)
    ensures indices.Keys == all
  {
    forall id | id in all
      ensures id in indices
    {
      var k :| 0 <= k < |ids| && ids[k] == id;
    }
    forall id | id in indices
      ensures id in all
    {
      assert ids[indices[id]] in ids;
    }
  }

  lemma RowFacts(csr: SnapshotCsr, order: seq<ProjectedEdge>, indices: map<nat, nat>)
    requires RowsOf(csr, order) && Positions(indices, csr.vertexIds)
    requires forall k | 0 <= k < |order| :: order[k].source in indices
    ensures |csr.neighbors| == |order| && Offsets(csr.offsets, csr.VertexCount(), |csr.neighbors|)
    ensures forall e | 0 <= e < |csr.neighbors| :: csr.neighbors[e] < csr.VertexCount()
    ensures forall e | 0 <= e < |order| :: indices[order[e].source] == csr.Source(e)
  {
    forall e: nat | e < |order|
      ensures indices[order[e].source] == csr.Source(e)
    {
      var u := csr.Source(e);
      assert InRange(csr.offsets, u, e);
      assert csr.vertexIds[u] == order[e].source;
    }
  }

  /** What the tables ask of the collected contents. */
  ghost predicate Buildable(c: Contents, spec: ProjectionSpec)
  {
    && |IdSet(c)| <= U32_MAX && |EdgeSet(c)| <= U32_MAX
    && (forall e | e in c.edges :: Known(c.vertices, e.source) && Known(c.vertices, e.target))
    && (forall v, i | v in c.vertices && 0 <= i < |spec.vertexProperties| ::
          CellFits(v.properties, spec.vertexProperties[i]))
    && (forall e, i | e in c.edges && 0 <= i < |spec.edgeProperties| :: CellFits(e.properties, spec.edgeProperties[i]))
  }

  lemma Unbuildable(c: Contents, spec: ProjectionSpec, vertices: map<nat, ProjectedVertex>, edges: map<nat,
                    ProjectedEdge>)
    requires Holds(c, vertices, edges)
    requires |vertices.Keys| > U32_MAX || |edges.Values| > U32_MAX
             || exists id :: id in edges && (edges[id].source !in vertices || edges[id].target !in vertices)
    ensures !Buildable(c, spec)
  {
    if |vertices.Keys| <= U32_MAX && |edges.Values| <= U32_MAX {
      var id :| id in edges && (edges[id].source !in vertices || edges[id].target !in vertices);
      assert edges[id] in edges.Values;
    }
  }

  lemma Misfit(c: Contents, spec: ProjectionSpec, vertices: map<nat, ProjectedVertex>, edges: map<nat, ProjectedEdge>,
               ids: seq<nat>, o: Orders)
    requires Holds(c, vertices, edges) && Arranged(c, vertices, edges, ids, o)
    requires !ColumnsFit(PropertiesOfVertices(o.vertices), spec.vertexProperties)
        || !ColumnsFit(PropertiesOfEdges(o.edges), spec.edgeProperties)
    ensures !Buildable(c, spec)
  {
    hide ListsIds, CellFits, Known;
    if !ColumnsFit(PropertiesOfVertices(o.vertices), spec.vertexProperties) {
      var s, i :| 0 <= s < |spec.vertexProperties| && 0 <= i < |o.vertices|
          && !CellFits(PropertiesOfVertices(o.vertices)[i], spec.vertexProperties[s]);
      assert o.vertices[i] in c.vertices;
    } else {
      EdgeFacts(o.edges, EdgeSet(c));
      var s, i :| 0 <= s < |spec.edgeProperties| && 0 <= i < |o.edges|
          && !CellFits(PropertiesOfEdges(o.edges)[i], spec.edgeProperties[s]);
      assert o.edges[i] in EdgeSet(c);
    }
  }

  lemma IsBuildable(c: Contents, spec: ProjectionSpec, vertices: map<nat, ProjectedVertex>, edges: map<nat,
                    ProjectedEdge>, o: Orders, ids: seq<nat>)
    requires Holds(c, vertices, edges) && Arranged(c, vertices, edges, ids, o)
    requires ColumnsFit(PropertiesOfVertices(o.vertices), spec.vertexProperties)
    requires ColumnsFit(PropertiesOfEdges(o.edges), spec.edgeProperties)
    ensures Buildable(c, spec)
  {
    hide ListsIds, ListsEdges, ColumnsFit, CellFits;
    AllFit(c, spec, vertices, o, ids);
    forall e | e in c.edges
      ensures Known(c.vertices, e.source) && Known(c.vertices, e.target)
    {
      assert edges[e.id] == e;
      assert vertices[e.source].id == e.source && vertices[e.target].id == e.target;
    }
  }

  lemma IsCanonical(c: Contents, spec: ProjectionSpec, vertices: map<nat, ProjectedVertex>, edges: map<nat,
                    ProjectedEdge>, o: Orders, csr: SnapshotCsr,
                    vertexColumns: map<string, seq<Option<Value>>>, edgeColumns: map<string, seq<Option<Value>>>)
    requires Holds(c, vertices, edges) && Arranged(c, vertices, edges, csr.vertexIds, o)
    requires RowsOf(csr, o.edges) && csr.reverse.Some? == spec.includeReverse
    requires (csr.reverse.Some? ==> ReverseRowsOf(csr, o.reverse))
    requires ColumnsOf(vertexColumns, PropertiesOfVertices(o.vertices), spec.vertexProperties)
    requires ColumnsOf(edgeColumns, PropertiesOfEdges(o.edges), spec.edgeProperties)
    ensures Canonical(c, spec, csr.(vertexProperties := vertexColumns, edgeProperties := edgeColumns), o)
  {
    hide ColumnsOf, ListsIds, ListsEdges;
    var csr' := csr.(vertexProperties := vertexColumns, edgeProperties := edgeColumns);
    assert RowsOf(csr', o.edges);
    if csr.reverse.Some? {
      SameReverse(csr', csr, csr.reverse.value, o.reverse);
    }
  }

  lemma AllFit(c: Contents, spec: ProjectionSpec, vertices: map<nat, ProjectedVertex>, o: Orders, ids: seq<nat>)
    requires ListsIds(ids, IdSet(c)) && ListsEdges(o.edges, EdgeSet(c)) && |o.vertices| == |ids|
    requires forall v | v in c.vertices :: v.id in vertices && vertices[v.id] == v
    requires forall k | 0 <= k < |ids| :: ids[k] in vertices && o.vertices[k] == vertices[ids[k]]
    requires ColumnsFit(PropertiesOfVertices(o.vertices), spec.vertexProperties)
    requires ColumnsFit(PropertiesOfEdges(o.edges), spec.edgeProperties)
    ensures forall v, i | v in c.vertices && 0 <= i < |spec.vertexProperties| ::
        CellFits(v.properties, spec.vertexProperties[i])
    ensures forall e, i | e in c.edges && 0 <= i < |spec.edgeProperties| ::
        CellFits(e.properties, spec.edgeProperties[i])
  {
    forall v, i | v in c.vertices && 0 <= i < |spec.vertexProperties|
      ensures CellFits(v.properties, spec.vertexProperties[i])
    {
      assert v.id in IdSet(c);
      var k :| 0 <= k < |ids| && ids[k] == v.id;
      assert PropertiesOfVertices(o.vertices)[k] == v.properties;
    }
    forall e, i | e in c.edges && 0 <= i < |spec.edgeProperties|
      ensures CellFits(e.properties, spec.edgeProperties[i])
    {
      assert e in EdgeSet(c);
      var k :| 0 <= k < |o.edges| && o.edges[k] == e;
      assert PropertiesOfEdges(o.edges)[k] == e.properties;
    }
  }

  /** All parts carry the same snapshot. */
  method SharedSnapshot(parts: seq<Part>) returns (r: Result<SnapshotProvenance, ProjectionError>)
    ensures r.Ok?
         <==> parts != [] && forall i, j | 0 <= i < |parts| && 0 <= j < |parts| ::
             parts[i].snapshot == parts[j].snapshot
    ensures r.Ok? ==> forall i | 0 <= i < |parts| :: parts[i].snapshot == r.value
  {
    if parts == [] {
      return Err(PartitionGap);
    }
    var snapshot := parts[0].snapshot;
    var i := 0;
    while i < |parts|
      invariant 0 <= i <= |parts| && forall k | 0 <= k < i :: parts[k].snapshot == snapshot
    {
      if parts[i].snapshot != snapshot {
        return Err(SnapshotMismatch);
      }
      i := i + 1;
    }
    return Ok(snapshot);
  }

  lemma SnapshotsShared(parts: seq<Part>)
    ensures (parts != [] && forall i, j | 0 <= i < |parts| && 0 <= j < |parts| ::
        parts[i].snapshot == parts[j].snapshot)
       <==> (ContentsOf(parts).snapshots != multiset{} && forall s, t | s in ContentsOf(parts).snapshots
           && t in ContentsOf(parts).snapshots :: s == t)
    ensures forall i | 0 <= i < |parts| :: parts[i].snapshot in ContentsOf(parts).snapshots
  {
    var all := Snapshots(parts);
    assert forall i | 0 <= i < |parts| :: all[i] == parts[i].snapshot && all[i] in multiset(all);
    assert |multiset(all)| == |parts|;
  }

  /**
   * A delivery is accepted exactly when its contents are acceptable and fit the budget, and becomes its canonical
   * snapshot.
   */
  ghost predicate Assembles(parts: seq<Part>, spec: ProjectionSpec, budget: Budget, r: Result<Assembled,
                            ProjectionError>)
  {
    && (r.Ok? <==> Acceptable(ContentsOf(parts), spec) && Usage(EstimatedBytes(parts, spec), budget).Some?)
    && (r.Ok? ==>
          && (exists o :: Canonical(ContentsOf(parts), spec, r.value.csr, o))
          && r.value.snapshot in ContentsOf(parts).snapshots
          && Partitions.Ordered(r.value.partitions, ContentsOf(parts).provenance)
          && Some(r.value.usage) == Usage(EstimatedBytes(parts, spec), budget))
  }

  lemma Refuses(parts: seq<Part>, spec: ProjectionSpec, budget: Budget, error: ProjectionError)
    requires !Acceptable(ContentsOf(parts), spec) || Usage(EstimatedBytes(parts, spec), budget).None?
    ensures Assembles(parts, spec, budget, Err(error))
  {
  }

  lemma Delivers(parts: seq<Part>, spec: ProjectionSpec, budget: Budget, a: Assembled, o: Orders)
    requires Acceptable(ContentsOf(parts), spec) && Some(a.usage) == Usage(EstimatedBytes(parts, spec), budget)
    requires Canonical(ContentsOf(parts), spec, a.csr, o) && a.snapshot in ContentsOf(parts).snapshots
    requires Partitions.Ordered(a.partitions, ContentsOf(parts).provenance)
    ensures Assembles(parts, spec, budget, Ok(a))
  {
  }

  method Assemble(parts: seq<Part>, spec: ProjectionSpec, budget: Budget)
    returns (r: Result<Assembled, ProjectionError>, ghost o: Orders)
    requires spec.Valid()
    ensures Assembles(parts, spec, budget, r)
    ensures r.Ok? ==> Canonical(ContentsOf(parts), spec, r.value.csr, o)
  {
    hide Acceptable, Buildable, Canonical, Unique, Indexed, Partitions.Complete, Partitions.Ordered, EstimatedBytes,
      Assembles, AllVertices, AllEdges;
    o := Orders([], [], []);
    AcceptableIs(parts, spec);
    SnapshotsShared(parts);
    var estimate := EstimateProjection(parts, spec);
    if estimate.None? {
      Refuses(parts, spec, budget, ResourceLimit);
      return Err(ResourceLimit), o;
    }
    var usage := Usage(estimate.value, budget);
    if usage.None? {
      Refuses(parts, spec, budget, ResourceLimit);
      return Err(ResourceLimit), o;
    }
    var snapshot := SharedSnapshot(parts);
    if snapshot.Err? {
      Refuses(parts, spec, budget, snapshot.error);
      return Err(snapshot.error), o;
    }
    assert parts[0].snapshot == snapshot.value;
    var partitions := Partitions.Validate(Provenances(parts), snapshot.value.shards);
    if partitions.Err? {
      Refuses(parts, spec, budget, partitions.error);
      return Err(partitions.error), o;
    }
    var collected := Collect(parts);
    if collected.Err? {
      Refuses(parts, spec, budget, collected.error);
      return Err(collected.error), o;
    }
    var csr;
    csr, o := BuildTables(collected.value.0, collected.value.1, spec, parts);
    if csr.Err? {
      Refuses(parts, spec, budget, csr.error);
      return Err(csr.error), o;
    }
    var assembled := Assembled(snapshot.value, partitions.value, csr.value, usage.value);
    Delivers(parts, spec, budget, assembled, o);
    return Ok(assembled), o;
  }

  /** The conditions in the order the assembly checks them. */
  lemma AcceptableIs(parts: seq<Part>, spec: ProjectionSpec)
    ensures Acceptable(ContentsOf(parts), spec) <==>
              && parts != []
              && (forall i, j | 0 <= i < |parts| && 0 <= j < |parts| :: parts[i].snapshot == parts[j].snapshot)
              && Partitions.Complete(multiset(Provenances(parts)), parts[0].snapshot.shards)
              && Unique(multiset(AllVertices(parts)), VertexIdOf) && Unique(multiset(AllEdges(parts)), EdgeIdOf)
              && Buildable(ContentsOf(parts), spec)
  {
    hide Unique, Partitions.Complete, CellFits, Known;
    SnapshotsShared(parts);
    if parts != [] {
      assert parts[0].snapshot in ContentsOf(parts).snapshots;
    }
  }

  /** The canonical snapshot is a valid one: its rows and reverse rows are what every algorithm relies on. */
  lemma CanonicalIsValid(c: Contents, spec: ProjectionSpec, csr: SnapshotCsr, o: Orders)
    requires Acceptable(c, spec) && Canonical(c, spec, csr, o)
    ensures csr.Valid()
    ensures forall u: nat, k: nat | u < csr.VertexCount() && k < csr.EdgeCount() ::
              InRange(csr.offsets, u, k) <==> csr.vertexIds[u] == o.edges[k].source
  {
    hide ColumnsOf, Acceptable, ReverseOf, ListsEdges;
    SizesFit(c, spec);
    IdsFacts(csr.vertexIds, IdSet(c));
    EdgeFacts(o.edges, EdgeSet(c));
    if csr.reverse.Some? {
      ReverseIsTransposed(csr, csr.reverse.value, o.reverse);
    }
    ColumnLengths(csr.edgeProperties, PropertiesOfEdges(o.edges), spec.edgeProperties);
  }

  lemma SizesFit(c: Contents, spec: ProjectionSpec)
    requires Acceptable(c, spec)
    ensures |IdSet(c)| <= U32_MAX && |EdgeSet(c)| <= U32_MAX
  {
  }

  lemma ColumnLengths(columns: map<string, seq<Option<Value>>>, entities: seq<map<string, Value>>,
                      specs: seq<ColumnSpec>)
    requires ColumnsOf(columns, entities, specs)
    ensures forall name | name in columns :: |columns[name]| == |entities|
  {
    forall name | name in columns
      ensures |columns[name]| == |entities|
    {
      var s :| 0 <= s < |specs| && specs[s].name == name;
      assert ColumnOf(columns[name], entities, specs[s]);
    }
  }

  lemma OrderedIsUnique(a: seq<PartitionProvenance>, b: seq<PartitionProvenance>, all: multiset<PartitionProvenance>)
    requires Partitions.Ordered(a, all) && Partitions.Ordered(b, all)
    ensures a == b
  {
    var keys := set p | p in all :: Partitions.ProvenanceKey(p);
    var ka := seq(|a|, i requires 0 <= i < |a| => Partitions.ProvenanceKey(a[i]));
    var kb := seq(|b|, i requires 0 <= i < |b| => Partitions.ProvenanceKey(b[i]));
    OrderedLists(a, all, ka, keys);
    OrderedLists(b, all, kb, keys);
    ListIsUnique(ka, kb, keys);
    forall i | 0 <= i < |a|
      ensures a[i] == b[i]
    {
      assert ka[i] == Partitions.ProvenanceKey(a[i]) && kb[i] == Partitions.ProvenanceKey(b[i]);
      KeyDetermines(a[i], b[i]);
    }
  }

  lemma KeyDetermines(p: PartitionProvenance, q: PartitionProvenance)
    requires Partitions.ProvenanceKey(p) == Partitions.ProvenanceKey(q)
    ensures p == q
  {
    var k := Partitions.ProvenanceKey(p);
    assert p == PartitionProvenance(k[0], k[1], k[2], k[3], k[4], k[5]);
    assert q == PartitionProvenance(k[0], k[1], k[2], k[3], k[4], k[5]);
  }

  lemma OrderedLists(a: seq<PartitionProvenance>, all: multiset<PartitionProvenance>, ka: seq<Key>, keys: set<Key>)
    requires Partitions.Ordered(a, all) && keys == (set p | p in all :: Partitions.ProvenanceKey(p))
    requires |ka| == |a| && forall i | 0 <= i < |a| :: ka[i] == Partitions.ProvenanceKey(a[i])
    ensures Lists(ka, keys)
  {
    forall k
      ensures k in ka <==> k in keys
    {
      if k in ka {
        var i :| 0 <= i < |ka| && ka[i] == k;
        assert a[i] in a;
      }
      if k in keys {
        var p :| p in all && Partitions.ProvenanceKey(p) == k;
        var i :| 0 <= i < |a| && a[i] == p;
        assert ka[i] == k;
      }
    }
  }

  /**
   * The order of parts, and of vertices and edges within them, changes neither success nor result: two deliveries of
   * the same parts are both accepted or both refused, and become the same snapshot, partitions and budget usage.
   */
  lemma OrderIsIrrelevant(parts: seq<Part>, parts': seq<Part>, spec: ProjectionSpec, budget: Budget,
                          r: Result<Assembled, ProjectionError>, r': Result<Assembled, ProjectionError>)
    requires multiset(Bags(parts)) == multiset(Bags(parts'))
    requires Assembles(parts, spec, budget, r) && Assembles(parts', spec, budget, r')
    ensures r.Ok? == r'.Ok?
    ensures r.Ok? ==> r == r'
    ensures Usage(EstimatedBytes(parts, spec), budget) == Usage(EstimatedBytes(parts', spec), budget)
  {
    hide Acceptable, Canonical, Partitions.Ordered, EstimatedBytes, ContentsOf, Usage;
    ReorderKeepsContents(parts, parts');
    EstimateIsUnordered(parts, parts', spec);
    if r.Ok? && r'.Ok? {
      var c := ContentsOf(parts);
      var o :| Canonical(c, spec, r.value.csr, o);
      var o' :| Canonical(c, spec, r'.value.csr, o');
      CanonicalIsUnique(c, spec, r.value.csr, o, r'.value.csr, o');
      OrderedIsUnique(r.value.partitions, r'.value.partitions, c.provenance);
      SnapshotIsShared(c, spec, r.value.snapshot, r'.value.snapshot);
    }
  }

  lemma SnapshotIsShared(c: Contents, spec: ProjectionSpec, s: SnapshotProvenance, t: SnapshotProvenance)
    requires Acceptable(c, spec) && s in c.snapshots && t in c.snapshots
    ensures s == t
  {
  }

  lemma EstimateIsUnordered(parts: seq<Part>, parts': seq<Part>, spec: ProjectionSpec)
    requires ContentsOf(parts) == ContentsOf(parts')
    ensures EstimatedBytes(parts, spec) == EstimatedBytes(parts', spec)
  {
    SumPermuted(VertexCost(spec), AllVertices(parts), AllVertices(parts'));
    SumPermuted(EdgeCost(spec), AllEdges(parts), AllEdges(parts'));
    assert |parts| == |multiset(Provenances(parts))| == |multiset(Provenances(parts'))| == |parts'|;
  }

  // ----- reordering keeps the contents

  lemma {:induction false} VerticesAppended(a: seq<Part>, b: seq<Part>)
    ensures AllVertices(a + b) == AllVertices(a) + AllVertices(b)
    decreases |b|
  {
    if b == [] {
      assert a + b == a;
    } else {
      var front := b[..|b| - 1];
      VerticesAppended(a, front);
      assert (a + b)[..|a + b| - 1] == a + front;
      assert (AllVertices(a) + AllVertices(front)) + b[|b| - 1].vertices
          == AllVertices(a) + (AllVertices(front) + b[|b| - 1].vertices);
    }
  }

  lemma {:induction false} EdgesAppended(a: seq<Part>, b: seq<Part>)
    ensures AllEdges(a + b) == AllEdges(a) + AllEdges(b)
    decreases |b|
  {
    if b == [] {
      assert a + b == a;
    } else {
      var front := b[..|b| - 1];
      EdgesAppended(a, front);
      assert (a + b)[..|a + b| - 1] == a + front;
      assert (AllEdges(a) + AllEdges(front)) + b[|b| - 1].edges == AllEdges(a) + (AllEdges(front) + b[|b| - 1].edges);
    }
  }

  lemma OnePart(p: Part)
    ensures AllVertices([p]) == p.vertices && AllEdges([p]) == p.edges
  {
    assert [p][..0] == [];
  }

  ghost function Plus(c: Contents, d: Contents): Contents
  {
    Contents(c.vertices + d.vertices, c.edges + d.edges, c.provenance + d.provenance, c.snapshots + d.snapshots)
  }

  lemma ContentsAdd(a: seq<Part>, b: seq<Part>)
    ensures ContentsOf(a + b) == Plus(ContentsOf(a), ContentsOf(b))
  {
    VerticesAppended(a, b);
    EdgesAppended(a, b);
    assert Provenances(a + b) == Provenances(a) + Provenances(b);
    assert Snapshots(a + b) == Snapshots(a) + Snapshots(b);
  }

  /** A part without the order of what it holds. */
  datatype PartBag = PartBag(
    snapshot: SnapshotProvenance, provenance: PartitionProvenance, vertices: multiset<ProjectedVertex>,
      edges: multiset<ProjectedEdge>)

  ghost function BagOf(p: Part): PartBag
  {
    PartBag(p.snapshot, p.provenance, multiset(p.vertices), multiset(p.edges))
  }

  ghost function Bags(parts: seq<Part>): (bags: seq<PartBag>)
    ensures |bags| == |parts| && forall i | 0 <= i < |parts| :: bags[i] == BagOf(parts[i])
  {
    seq(|parts|, i requires 0 <= i < |parts| => BagOf(parts[i]))
  }

  lemma SameBagSameContents(p: Part, q: Part)
    requires BagOf(p) == BagOf(q)
    ensures ContentsOf([p]) == ContentsOf([q])
  {
    OnePart(p);
    OnePart(q);
    assert Provenances([p]) == Provenances([q]) && Snapshots([p]) == Snapshots([q]);
  }

  lemma TakeOut(parts: seq<Part>, j: nat)
    requires j < |parts|
    ensures ContentsOf(parts) == Plus(ContentsOf(parts[..j] + parts[j + 1..]), ContentsOf([parts[j]]))
  {
    hide ContentsOf;
    var a, p, d := parts[..j], parts[j], parts[j + 1..];
    assert parts == a + [p] + d;
    ContentsAdd(a + [p], d);
    ContentsAdd(a, [p]);
    ContentsAdd(a, d);
    assert Plus(Plus(ContentsOf(a), ContentsOf([p])), ContentsOf(d))
        == Plus(Plus(ContentsOf(a), ContentsOf(d)), ContentsOf([p]));
  }

  lemma BagsWithout(parts: seq<Part>, j: nat)
    requires j < |parts|
    ensures multiset(Bags(parts[..j] + parts[j + 1..])) == multiset(Bags(parts)) - multiset{BagOf(parts[j])}
  {
    hide BagOf, Bags;
    var a, p, d := parts[..j], parts[j], parts[j + 1..];
    assert Bags(parts) == Bags(a) + [BagOf(p)] + Bags(d);
    assert Bags(a + d) == Bags(a) + Bags(d);
  }

  /** Any reordering of the parts, and of the vertices and edges within each, keeps the contents. */
  lemma {:induction false} ReorderKeepsContents(parts: seq<Part>, parts': seq<Part>)
    requires multiset(Bags(parts)) == multiset(Bags(parts'))
    ensures ContentsOf(parts) == ContentsOf(parts')
    decreases |parts|
  {
    hide ContentsOf, BagOf, Bags;
    assert |parts| == |multiset(Bags(parts))| == |multiset(Bags(parts'))| == |parts'|;
    if parts == [] {
      assert parts' == [];
    } else {
      var i := |parts| - 1;
      assert BagOf(parts[i]) == Bags(parts)[i];
      assert BagOf(parts[i]) in multiset(Bags(parts'));
      var j :| 0 <= j < |parts'| && Bags(parts')[j] == BagOf(parts[i]);
      TakeOut(parts, i);
      TakeOut(parts', j);
      BagsWithout(parts, i);
      BagsWithout(parts', j);
      ReorderKeepsContents(parts[..i] + parts[i + 1..], parts'[..j] + parts'[j + 1..]);
      SameBagSameContents(parts[i], parts'[j]);
    }
  }
}

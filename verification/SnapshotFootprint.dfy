/** What the estimate of a delivery says: the footprint of the snapshot it becomes, and how it follows every change. */
module SnapshotFootprint {
  import opened Wrappers
  import opened KernelValues
  import opened Csr
  import opened Projection
  import opened ProjectionEstimate
  import opened Ascending
  import opened CsrAssembly
  import opened SnapshotAssembly
  import opened Sums
  import Partitions

  // ----- one value

  /** A value and everything inside it. */
  function Inside(value: Value): seq<Value>
    decreases value
  {
    [value] + match value
              case List(items) => InsideItems(items)
              case Map(entries) => InsideEntries(entries)
              case _ => []
  }

  function InsideItems(items: seq<Value>): seq<Value>
    decreases items
  {
    if items == [] then [] else Inside(items[0]) + InsideItems(items[1..])
  }

  function InsideEntries(entries: seq<Entry>): seq<Value>
    decreases entries
  {
    if entries == [] then [] else Inside(entries[0].value) + InsideEntries(entries[1..])
  }

  /** The bytes spelled out by a value itself: of a string, or of the names in a map. */
  function Spelled(value: Value): nat
  {
    match value
    case Bytes(bytes) => |bytes|
    case Text(text) => |text|
    case Map(entries) => NamesOf(entries)
    case _ => 0
  }

  function NamesOf(entries: seq<Entry>): nat
  {
    if entries == [] then 0 else |entries[0].name| + NamesOf(entries[1..])
  }

  /** One byte for a null, two for a boolean, nine for anything else, and what is spelled out. */
  function OwnBytes(value: Value): nat
  {
    (if value.Null? then 1 else if value.Boolean? then 2 else 9) + Spelled(value)
  }

  /** The size of a value is that of everything inside it, one by one. */
  lemma {:induction false} ValueIsInside(value: Value)
    ensures ValueBytes(value) == Sum(OwnBytes, Inside(value))
    decreases value
  {
    SumOfOne(OwnBytes, value);
    match value
    case List(items) =>
      ItemsAreInside(items);
      SumAppended(OwnBytes, [value], InsideItems(items));
    case Map(entries) =>
      EntriesAreInside(entries);
      SumAppended(OwnBytes, [value], InsideEntries(entries));
    case _ =>
      assert Inside(value) == [value];
  }

  lemma {:induction false} ItemsAreInside(items: seq<Value>)
    ensures ItemsBytes(items) == Sum(OwnBytes, InsideItems(items))
    decreases items
  {
    if items != [] {
      ValueIsInside(items[0]);
      ItemsAreInside(items[1..]);
      SumAppended(OwnBytes, Inside(items[0]), InsideItems(items[1..]));
    }
  }

  lemma {:induction false} EntriesAreInside(entries: seq<Entry>)
    ensures EntriesBytes(entries) == NamesOf(entries) + Sum(OwnBytes, InsideEntries(entries))
    decreases entries
  {
    if entries != [] {
      ValueIsInside(entries[0].value);
      EntriesAreInside(entries[1..]);
      SumAppended(OwnBytes, Inside(entries[0].value), InsideEntries(entries[1..]));
    }
  }

  // ----- columns

  function CellBytes(cell: Option<Value>): nat
  {
    if cell.Some? then ValueBytes(cell.value) else 0
  }

  /** The bytes of a table: each row pays for the names of its columns, and each cell for its value. */
  ghost function TableBytes(columns: map<string, seq<Option<Value>>>, specs: seq<ColumnSpec>, rows: nat): nat
    requires forall s | 0 <= s < |specs| :: specs[s].name in columns
  {
    if specs == [] then 0
    else
      |specs[0].name| * rows + Sum(CellBytes, columns[specs[0].name]) + TableBytes(columns, specs[1..], rows)
  }

  ghost function SelectedOf(specs: seq<ColumnSpec>): map<string, Value> -> nat
  {
    (properties: map<string, Value>) => SelectedBytes(properties, specs)
  }

  ghost function CellOf(spec: ColumnSpec): map<string, Value> -> nat
  {
    (properties: map<string, Value>) => CellBytes(Cell(properties, spec))
  }

  /** Counting row by row and column by column comes to the same. */
  lemma {:induction false} RowsAreColumns(columns: map<string, seq<Option<Value>>>, entities: seq<map<string, Value>>,
                                          specs: seq<ColumnSpec>)
    requires forall s | 0 <= s < |specs| ::
      specs[s].name in columns && ColumnOf(columns[specs[s].name], entities, specs[s])
    ensures Sum(SelectedOf(specs), entities) == TableBytes(columns, specs, |entities|)
    decreases |specs|
  {
    if specs == [] {
      SumSplits(SelectedOf(specs), 0, SelectedOf(specs), SelectedOf(specs), entities);
    } else {
      RowsAreColumns(columns, entities, specs[1..]);
      SumSplits(SelectedOf(specs), |specs[0].name|, CellOf(specs[0]), SelectedOf(specs[1..]), entities);
      SumMapped(CellOf(specs[0]), entities, CellBytes, columns[specs[0].name]);
    }
  }

  // ----- the snapshot

  lemma {:induction false} DistinctOnce<T(!new)>(s: seq<T>, x: T)
    requires (forall i, j | 0 <= i < j < |s| :: s[i] != s[j]) && x in s
    ensures multiset(s)[x] == 1
    decreases |s|
  {
    var front, last := s[..|s| - 1], s[|s| - 1];
    assert s == front + [last];
    if x != last {
      DistinctOnce(front, x);
    }
  }

  /** A list without repeats of what a bag holds once each is that bag. */
  lemma ListsBag<T(!new)>(s: seq<T>, bag: multiset<T>)
    requires (forall i, j | 0 <= i < j < |s| :: s[i] != s[j]) && forall x :: x in s <==> x in bag
    requires forall x | x in bag :: bag[x] == 1
    ensures multiset(s) == bag
  {
    forall x ensures multiset(s)[x] == bag[x] {
      if x in s {
        DistinctOnce(s, x);
      }
    }
  }

  lemma VerticesAreDelivered(c: Contents, spec: ProjectionSpec, csr: SnapshotCsr, o: Orders)
    requires Acceptable(c, spec) && Canonical(c, spec, csr, o)
    ensures multiset(o.vertices) == c.vertices
  {
    hide RowsOf, ReverseOf, ColumnsOf, ListsEdges, CellFits, Partitions.Complete;
    IdsFacts(csr.vertexIds, IdSet(c));
    forall v ensures v in o.vertices <==> v in c.vertices {
      if v in c.vertices {
        assert v.id in IdSet(c);
        var k :| 0 <= k < |csr.vertexIds| && csr.vertexIds[k] == v.id;
        assert VertexIdOf(o.vertices[k]) == VertexIdOf(v);
      }
    }
    forall i, j | 0 <= i < j < |o.vertices| ensures o.vertices[i] != o.vertices[j] {
      assert csr.vertexIds[i] < csr.vertexIds[j];
    }
    ListsBag(o.vertices, c.vertices);
  }

  lemma EdgesAreDelivered(c: Contents, spec: ProjectionSpec, csr: SnapshotCsr, o: Orders)
    requires Acceptable(c, spec) && Canonical(c, spec, csr, o)
    ensures multiset(o.edges) == c.edges && |o.edges| == csr.EdgeCount()
  {
    hide ReverseOf, ColumnsOf, ListsIds, CellFits, Partitions.Complete;
    forall i, j | 0 <= i < j < |o.edges| ensures o.edges[i] != o.edges[j] {
      LessIsTotal(EdgeKey(o.edges[i]), EdgeKey(o.edges[j]));
    }
    assert forall e :: e in EdgeSet(c) <==> e in c.edges;
    ListsBag(o.edges, c.edges);
  }

  lemma PartitionsAreDelivered(c: Contents, spec: ProjectionSpec, partitions: seq<PartitionProvenance>)
    requires Acceptable(c, spec) && Partitions.Ordered(partitions, c.provenance)
    ensures multiset(partitions) == c.provenance
  {
    hide CellFits, Unique, Known;
    forall i, j | 0 <= i < j < |partitions| ensures partitions[i] != partitions[j] {
      LessIsTotal(Partitions.ProvenanceKey(partitions[i]), Partitions.ProvenanceKey(partitions[j]));
    }
    var s :| s in c.snapshots;
    assert Partitions.Complete(c.provenance, s.shards);
    ListsBag(partitions, c.provenance);
  }

  /** What an assembled snapshot takes up, counted on its own tables. */
  ghost function Footprint(a: Assembled, spec: ProjectionSpec): nat
    requires HasColumns(a.csr, spec)
  {
    256 + 64 * |a.partitions| + 128 * |a.csr.vertexIds|
    + (if a.csr.reverse.Some? then 200 else 192) * |a.csr.edgeIds|
    + TableBytes(a.csr.vertexProperties, spec.vertexProperties, |a.csr.vertexIds|)
    + TableBytes(a.csr.edgeProperties, spec.edgeProperties, |a.csr.edgeIds|)
  }

  ghost predicate HasColumns(csr: SnapshotCsr, spec: ProjectionSpec)
  {
    && (forall s | 0 <= s < |spec.vertexProperties| :: spec.vertexProperties[s].name in csr.vertexProperties)
    && (forall s | 0 <= s < |spec.edgeProperties| :: spec.edgeProperties[s].name in csr.edgeProperties)
  }

  lemma VertexTable(parts: seq<Part>, spec: ProjectionSpec, csr: SnapshotCsr, o: Orders)
    requires Acceptable(ContentsOf(parts), spec) && Canonical(ContentsOf(parts), spec, csr, o) && HasColumns(csr, spec)
    ensures Sum(VertexCost(spec), AllVertices(parts))
         == 128 * |csr.vertexIds| + TableBytes(csr.vertexProperties, spec.vertexProperties, |csr.vertexIds|)
  {
    hide RowsOf, ReverseOf, ListsEdges, ListsIds, Acceptable, AllVertices, AllEdges;
    VerticesAreDelivered(ContentsOf(parts), spec, csr, o);
    SumPermuted(VertexCost(spec), AllVertices(parts), o.vertices);
    SumWithBase(VertexCost(spec), VertexSelected(spec), 128, o.vertices);
    var entities := PropertiesOfVertices(o.vertices);
    SumMapped(VertexSelected(spec), o.vertices, SelectedOf(spec.vertexProperties), entities);
    RowsAreColumns(csr.vertexProperties, entities, spec.vertexProperties);
  }

  lemma EdgeTable(parts: seq<Part>, spec: ProjectionSpec, csr: SnapshotCsr, o: Orders)
    requires Acceptable(ContentsOf(parts), spec) && Canonical(ContentsOf(parts), spec, csr, o) && HasColumns(csr, spec)
    ensures Sum(EdgeCost(spec), AllEdges(parts))
         == (if csr.reverse.Some? then 200 else 192) * |csr.edgeIds|
            + TableBytes(csr.edgeProperties, spec.edgeProperties, |csr.edgeIds|)
  {
    hide ReverseOf, ListsEdges, ListsIds, Acceptable, AllVertices, AllEdges;
    EdgesAreDelivered(ContentsOf(parts), spec, csr, o);
    SumPermuted(EdgeCost(spec), AllEdges(parts), o.edges);
    SumWithBase(EdgeCost(spec), EdgeSelected(spec), if csr.reverse.Some? then 200 else 192, o.edges);
    var entities := PropertiesOfEdges(o.edges);
    SumMapped(EdgeSelected(spec), o.edges, SelectedOf(spec.edgeProperties), entities);
    RowsAreColumns(csr.edgeProperties, entities, spec.edgeProperties);
  }

  /**
   * The usage reported for an accepted delivery is the footprint of the very snapshot it became, memory and spill
   * together; so that footprint is within the budget.
   */
  lemma UsageIsFootprint(parts: seq<Part>, spec: ProjectionSpec, budget: Budget, r: Result<Assembled, ProjectionError>)
    requires Assembles(parts, spec, budget, r) && r.Ok?
    ensures HasColumns(r.value.csr, spec)
    ensures r.value.usage.memoryBytes + r.value.usage.spillBytes == Footprint(r.value, spec)
    ensures Footprint(r.value, spec) <= budget.maxMemoryBytes + budget.maxSpillBytes
  {
    hide Acceptable, Canonical, Partitions.Ordered, ContentsOf;
    var c, a := ContentsOf(parts), r.value;
    var o :| Canonical(c, spec, a.csr, o);
    CanonicalHasColumns(c, spec, a.csr, o);
    VertexTable(parts, spec, a.csr, o);
    EdgeTable(parts, spec, a.csr, o);
    PartitionsAreDelivered(c, spec, a.partitions);
    ProvenanceCount(parts);
    assert |a.partitions| == |multiset(a.partitions)|;
  }

  lemma ProvenanceCount(parts: seq<Part>)
    ensures |ContentsOf(parts).provenance| == |parts|
  {
  }

  lemma CanonicalHasColumns(c: Contents, spec: ProjectionSpec, csr: SnapshotCsr, o: Orders)
    requires Canonical(c, spec, csr, o)
    ensures HasColumns(csr, spec)
  {
    hide RowsOf, ReverseOf, ListsEdges, ListsIds;
  }

  // ----- text

  /** How long the text or byte string in a cell is. */
  function CellText(cell: Option<Value>): nat
  {
    match cell
    case Some(Text(text)) => |text|
    case Some(Bytes(bytes)) => |bytes|
    case _ => 0
  }

  ghost function TableText(columns: map<string, seq<Option<Value>>>, specs: seq<ColumnSpec>): nat
    requires forall s | 0 <= s < |specs| :: specs[s].name in columns
  {
    if specs == [] then 0 else Sum(CellText, columns[specs[0].name]) + TableText(columns, specs[1..])
  }

  lemma {:induction false} TextInTable(columns: map<string, seq<Option<Value>>>, specs: seq<ColumnSpec>, rows: nat)
    requires forall s | 0 <= s < |specs| :: specs[s].name in columns
    ensures TableText(columns, specs) <= TableBytes(columns, specs, rows)
    decreases |specs|
  {
    if specs != [] {
      SumAtMost(CellText, CellBytes, columns[specs[0].name]);
      TextInTable(columns, specs[1..], rows);
    }
  }

  /** All text and byte cells of an accepted snapshot together fit the budget, with its fixed costs to spare. */
  lemma TextFits(parts: seq<Part>, spec: ProjectionSpec, budget: Budget, r: Result<Assembled, ProjectionError>)
    requires Assembles(parts, spec, budget, r) && r.Ok?
    ensures HasColumns(r.value.csr, spec)
    ensures 256 + TableText(r.value.csr.vertexProperties, spec.vertexProperties)
            + TableText(r.value.csr.edgeProperties, spec.edgeProperties)
            <= budget.maxMemoryBytes + budget.maxSpillBytes
  {
    hide Assembles;
    UsageIsFootprint(parts, spec, budget, r);
    TextInTable(r.value.csr.vertexProperties, spec.vertexProperties, |r.value.csr.vertexIds|);
    TextInTable(r.value.csr.edgeProperties, spec.edgeProperties, |r.value.csr.edgeIds|);
  }

  // ----- changes

  ghost function PartBytes(part: Part, spec: ProjectionSpec): nat
  {
    Sum(VertexCost(spec), part.vertices) + Sum(EdgeCost(spec), part.edges)
  }

  lemma EstimateSplits(parts: seq<Part>, spec: ProjectionSpec, a: seq<Part>, part: Part, b: seq<Part>)
    requires parts == a + [part] + b
    ensures EstimatedBytes(parts, spec) == EstimatedBytes(a + b, spec) + 64 + PartBytes(part, spec)
  {
    VerticesAppended(a, b);
    VerticesAppended(a + [part], b);
    VerticesAppended(a, [part]);
    EdgesAppended(a, b);
    EdgesAppended(a + [part], b);
    EdgesAppended(a, [part]);
    OnePart(part);
    var v, e := VertexCost(spec), EdgeCost(spec);
    SumAppended(v, AllVertices(a) + part.vertices, AllVertices(b));
    SumAppended(v, AllVertices(a), part.vertices);
    SumAppended(v, AllVertices(a), AllVertices(b));
    SumAppended(e, AllEdges(a) + part.edges, AllEdges(b));
    SumAppended(e, AllEdges(a), part.edges);
    SumAppended(e, AllEdges(a), AllEdges(b));
  }

  lemma PartReplaced(parts: seq<Part>, spec: ProjectionSpec, k: nat, part: Part)
    requires k < |parts|
    ensures EstimatedBytes(parts[k := part], spec) + PartBytes(parts[k], spec)
         == EstimatedBytes(parts, spec) + PartBytes(part, spec)
  {
    hide EstimatedBytes, PartBytes;
    var a, b := parts[..k], parts[k + 1..];
    assert parts == a + [parts[k]] + b && parts[k := part] == a + [part] + b;
    EstimateSplits(parts, spec, a, parts[k], b);
    EstimateSplits(parts[k := part], spec, a, part, b);
  }

  /** An empty part costs its own overhead, wherever it is delivered. */
  lemma EmptyPartAdds(a: seq<Part>, b: seq<Part>, spec: ProjectionSpec, part: Part)
    requires part.vertices == [] && part.edges == []
    ensures EstimatedBytes(a + [part] + b, spec) == EstimatedBytes(a + b, spec) + 64
  {
    hide EstimatedBytes;
    EstimateSplits(a + [part] + b, spec, a, part, b);
  }

  /** One more vertex, anywhere, costs its overhead and its selected columns. */
  lemma VertexAdds(parts: seq<Part>, spec: ProjectionSpec, k: nat, i: nat, v: ProjectedVertex)
    requires k < |parts| && i <= |parts[k].vertices|
    ensures var vertices := parts[k].vertices;
      EstimatedBytes(parts[k := parts[k].(vertices := vertices[..i] + [v] + vertices[i..])], spec)
          == EstimatedBytes(parts, spec) + 128 + SelectedBytes(v.properties, spec.vertexProperties)
  {
    hide EstimatedBytes;
    var vertices := parts[k].vertices;
    PartReplaced(parts, spec, k, parts[k].(vertices := vertices[..i] + [v] + vertices[i..]));
    SumInserted(VertexCost(spec), vertices, i, v);
  }

  /** One more edge costs its overhead, eight bytes more with reverse rows, and its selected columns. */
  lemma EdgeAdds(parts: seq<Part>, spec: ProjectionSpec, k: nat, i: nat, e: ProjectedEdge)
    requires k < |parts| && i <= |parts[k].edges|
    ensures var edges := parts[k].edges;
      EstimatedBytes(parts[k := parts[k].(edges := edges[..i] + [e] + edges[i..])], spec)
          == EstimatedBytes(parts, spec) + (if spec.includeReverse then 200 else 192)
             + SelectedBytes(e.properties, spec.edgeProperties)
  {
    hide EstimatedBytes;
    var edges := parts[k].edges;
    PartReplaced(parts, spec, k, parts[k].(edges := edges[..i] + [e] + edges[i..]));
    SumInserted(EdgeCost(spec), edges, i, e);
  }

  // ----- longer values

  /** How many columns take this property: one or none, in a valid specification. */
  ghost predicate Selects(specs: seq<ColumnSpec>, name: string)
  {
    exists s :: 0 <= s < |specs| && specs[s].name == name
  }

  lemma {:induction false} SelectedChanges(properties: map<string, Value>, specs: seq<ColumnSpec>, name: string,
                                           value: Value)
    requires DistinctNames(specs) && name in properties
    ensures SelectedBytes(properties[name := value], specs) + (if Selects(specs, name) then
                ValueBytes(properties[name]) else 0)
         == SelectedBytes(properties, specs) + (if Selects(specs, name) then ValueBytes(value) else 0)
    decreases |specs|
  {
    if specs != [] {
      var rest := specs[1..];
      SelectedChanges(properties, rest, name, value);
      assert forall s | 0 <= s < |rest| :: rest[s] == specs[s + 1];
      if specs[0].name == name {
        assert !Selects(rest, name) && Selects(specs, name);
      } else if Selects(specs, name) {
        var s :| 0 <= s < |specs| && specs[s].name == name;
        assert rest[s - 1].name == name;
      }
    }
  }

  /** The delivery in which one property of one vertex has another value. */
  function WithVertexValue(parts: seq<Part>, k: nat, i: nat, name: string, value: Value): seq<Part>
    requires k < |parts| && i < |parts[k].vertices|
  {
    var v := parts[k].vertices[i];
    parts[k := parts[k].(vertices := parts[k].vertices[i := v.(properties := v.properties[name := value])])]
  }

  function WithEdgeValue(parts: seq<Part>, k: nat, i: nat, name: string, value: Value): seq<Part>
    requires k < |parts| && i < |parts[k].edges|
  {
    var e := parts[k].edges[i];
    parts[k := parts[k].(edges := parts[k].edges[i := e.(properties := e.properties[name := value])])]
  }

  /** Changing a vertex property changes the estimate by the change in size, if a column takes it, and not otherwise. */
  lemma VertexValueChanges(parts: seq<Part>, spec: ProjectionSpec, k: nat, i: nat, name: string, value: Value)
    requires spec.Valid() && k < |parts| && i < |parts[k].vertices| && name in parts[k].vertices[i].properties
    ensures var was := parts[k].vertices[i].properties[name];
      EstimatedBytes(WithVertexValue(parts, k, i, name, value), spec) - EstimatedBytes(parts, spec)
          == if Selects(spec.vertexProperties, name) then ValueBytes(value) - ValueBytes(was) else 0
  {
    hide EstimatedBytes, ValueBytes, DistinctNames, Selects;
    var v := parts[k].vertices[i];
    var w := v.(properties := v.properties[name := value]);
    PartReplaced(parts, spec, k, parts[k].(vertices := parts[k].vertices[i := w]));
    SumUpdated(VertexCost(spec), parts[k].vertices, i, w);
    SelectedChanges(v.properties, spec.vertexProperties, name, value);
  }

  lemma EdgeValueChanges(parts: seq<Part>, spec: ProjectionSpec, k: nat, i: nat, name: string, value: Value)
    requires spec.Valid() && k < |parts| && i < |parts[k].edges| && name in parts[k].edges[i].properties
    ensures var was := parts[k].edges[i].properties[name];
      EstimatedBytes(WithEdgeValue(parts, k, i, name, value), spec) - EstimatedBytes(parts, spec)
          == if Selects(spec.edgeProperties, name) then ValueBytes(value) - ValueBytes(was) else 0
  {
    hide EstimatedBytes, ValueBytes, DistinctNames, Selects;
    var e := parts[k].edges[i];
    var f := e.(properties := e.properties[name := value]);
    PartReplaced(parts, spec, k, parts[k].(edges := parts[k].edges[i := f]));
    SumUpdated(EdgeCost(spec), parts[k].edges, i, f);
    SelectedChanges(e.properties, spec.edgeProperties, name, value);
  }

  /** A value that is the same text or byte string, only longer. */
  ghost predicate Lengthens(was: Value, value: Value, n: nat)
  {
    || (was.Text? && value.Text? && |value.text| == |was.text| + n)
    || (was.Bytes? && value.Bytes? && |value.bytes| == |was.bytes| + n)
  }

  /** Text longer by `n` bytes in a selected column raises the estimate by `n`. */
  lemma LongerTextAdds(parts: seq<Part>, spec: ProjectionSpec, k: nat, i: nat, name: string, value: Value, n: nat)
    requires spec.Valid() && k < |parts|
    ensures i < |parts[k].vertices| && name in parts[k].vertices[i].properties && Selects(spec.vertexProperties, name)
            && Lengthens(parts[k].vertices[i].properties[name], value, n) ==>
              EstimatedBytes(WithVertexValue(parts, k, i, name, value), spec) == EstimatedBytes(parts, spec) + n
    ensures i < |parts[k].edges| && name in parts[k].edges[i].properties && Selects(spec.edgeProperties, name)
            && Lengthens(parts[k].edges[i].properties[name], value, n) ==>
              EstimatedBytes(WithEdgeValue(parts, k, i, name, value), spec) == EstimatedBytes(parts, spec) + n
  {
    hide EstimatedBytes, DistinctNames, Selects;
    if i < |parts[k].vertices| && name in parts[k].vertices[i].properties {
      VertexValueChanges(parts, spec, k, i, name, value);
    }
    if i < |parts[k].edges| && name in parts[k].edges[i].properties {
      EdgeValueChanges(parts, spec, k, i, name, value);
    }
  }

  // ----- typed cells

  /** The cell holds what its column may hold. */
  ghost predicate Typed(cell: Option<Value>, spec: ColumnSpec)
  {
    if cell.None? then !spec.required else cell.value.Null? || TypeOf(cell.value) == Some(spec.propertyType)
  }

  ghost predicate ColumnsTyped(columns: map<string, seq<Option<Value>>>, specs: seq<ColumnSpec>, rows: nat)
  {
    forall s | 0 <= s < |specs| ::
      && specs[s].name in columns && |columns[specs[s].name]| == rows
      && forall i | 0 <= i < rows :: Typed(columns[specs[s].name][i], specs[s])
  }

  lemma FittingIsTyped(columns: map<string, seq<Option<Value>>>, entities: seq<map<string, Value>>,
                       specs: seq<ColumnSpec>)
    requires ColumnsOf(columns, entities, specs) && ColumnsFit(entities, specs)
    ensures ColumnsTyped(columns, specs, |entities|)
  {
    forall s, i | 0 <= s < |specs| && 0 <= i < |entities|
      ensures Typed(Cell(entities[i], specs[s]), specs[s])
    {
      assert CellFits(entities[i], specs[s]);
    }
  }

  lemma DeliveredFit(c: Contents, spec: ProjectionSpec, csr: SnapshotCsr, o: Orders)
    requires Acceptable(c, spec) && Canonical(c, spec, csr, o)
    ensures ColumnsFit(PropertiesOfVertices(o.vertices), spec.vertexProperties)
    ensures ColumnsFit(PropertiesOfEdges(o.edges), spec.edgeProperties)
  {
    hide Partitions.Complete, Unique, Known, ReverseOf, ListsIds, RowsOf, CellFits, ColumnsOf;
    assert forall i | 0 <= i < |o.edges| :: o.edges[i] in o.edges && o.edges[i] in EdgeSet(c);
  }

  /** Every cell of an accepted snapshot is of its column's type, or null, or missing where that is allowed. */
  lemma CellsAreTyped(parts: seq<Part>, spec: ProjectionSpec, budget: Budget, r: Result<Assembled, ProjectionError>)
    requires Assembles(parts, spec, budget, r) && r.Ok?
    ensures ColumnsTyped(r.value.csr.vertexProperties, spec.vertexProperties, |r.value.csr.vertexIds|)
    ensures ColumnsTyped(r.value.csr.edgeProperties, spec.edgeProperties, |r.value.csr.edgeIds|)
  {
    hide Partitions.Ordered, ContentsOf, EstimatedBytes, Acceptable, ReverseOf, ListsIds, ListsEdges, ColumnsOf,
      ColumnsFit, ColumnsTyped;
    var c, csr := ContentsOf(parts), r.value.csr;
    var o :| Canonical(c, spec, csr, o);
    DeliveredFit(c, spec, csr, o);
    FittingIsTyped(csr.vertexProperties, PropertiesOfVertices(o.vertices), spec.vertexProperties);
    FittingIsTyped(csr.edgeProperties, PropertiesOfEdges(o.edges), spec.edgeProperties);
  }
}

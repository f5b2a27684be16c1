/** What a delivery is reckoned to cost before anything is built, and the budget it must fit. */
module ProjectionEstimate {
  import opened Wrappers
  import opened KernelValues
  import opened Projection
  import opened Sums

  // ----- what is delivered

  function AllVertices(parts: seq<Part>): (all: seq<ProjectedVertex>)
  {
    if parts == [] then [] else AllVertices(parts[..|parts| - 1]) + parts[|parts| - 1].vertices
  }

  function AllEdges(parts: seq<Part>): (all: seq<ProjectedEdge>)
  {
    if parts == [] then [] else AllEdges(parts[..|parts| - 1]) + parts[|parts| - 1].edges
  }

  // ----- the estimate

  function ValueBytes(value: Value): (bytes: nat)
    decreases value
  {
    match value
    case Null => 1
    case Boolean(_) => 2
    case Integer(_) => 9
    case FloatBits(_) => 9
    case Bytes(bytes) => 9 + |bytes|
    case Text(text) => 9 + |text|
    case List(items) => 9 + ItemsBytes(items)
    case Map(entries) => 9 + EntriesBytes(entries)
  }

  function ItemsBytes(items: seq<Value>): (bytes: nat)
    decreases items
  {
    if items == [] then 0 else ValueBytes(items[0]) + ItemsBytes(items[1..])
  }

  function EntriesBytes(entries: seq<Entry>): (bytes: nat)
    decreases entries
  {
    if entries == [] then 0 else |entries[0].name| + ValueBytes(entries[0].value) + EntriesBytes(entries[1..])
  }

  function SelectedBytes(properties: map<string, Value>, specs: seq<ColumnSpec>): (bytes: nat)
  {
    if specs == [] then 0 else
    |specs[0].name| + (if specs[0].name in properties then ValueBytes(properties[specs[0].name]) else 0)
        + SelectedBytes(properties, specs[1..])
  }

  function VertexCost(spec: ProjectionSpec): ProjectedVertex -> nat
  {
    (v: ProjectedVertex) => 128 + SelectedBytes(v.properties, spec.vertexProperties)
  }

  function EdgeCost(spec: ProjectionSpec): ProjectedEdge -> nat
  {
    (e: ProjectedEdge) => 192 + SelectedBytes(e.properties, spec.edgeProperties) + if spec.includeReverse then 8 else 0
  }

  function EstimatedBytes(parts: seq<Part>, spec: ProjectionSpec): (bytes: nat)
  {
    256 + 64 * |parts| + Sum(VertexCost(spec), AllVertices(parts)) + Sum(EdgeCost(spec), AllEdges(parts))
  }

  datatype Budget = Budget(maxMemoryBytes: U64, maxSpillBytes: U64)
  datatype BudgetUsage = BudgetUsage(memoryBytes: nat, spillBytes: nat)

  function Usage(estimate: nat, budget: Budget): (u: Option<BudgetUsage>)
    ensures u.Some? ==> u.value.memoryBytes + u.value.spillBytes == estimate
    ensures u.Some? ==> u.value.memoryBytes <= budget.maxMemoryBytes && u.value.spillBytes <= budget.maxSpillBytes
    ensures u.None? ==> estimate > U64_MAX || estimate > budget.maxMemoryBytes + budget.maxSpillBytes
  {
    var memory := if estimate <= budget.maxMemoryBytes then estimate else budget.maxMemoryBytes;
    if estimate > U64_MAX || estimate - memory > budget.maxSpillBytes then None
    else Some(BudgetUsage(memory, estimate - memory))
  }

  // ----- reckoning it

  /** A count that fits a machine word; anything larger is refused. */
  function Fitting(count: nat): Option<nat>
  {
    if count <= U64_MAX then Some(count) else None
  }

  method EstimateValue(value: Value) returns (r: Option<nat>)
    ensures r == Fitting(ValueBytes(value))
    decreases value
  {
    match value
    case Null => return Some(1);
    case Boolean(_) => return Some(2);
    case Integer(_) => return Some(9);
    case FloatBits(_) => return Some(9);
    case Bytes(bytes) => return Fitting(9 + |bytes|);
    case Text(text) => return Fitting(9 + |text|);
    case List(items) =>
      var bytes: nat := 9;
      for i := 0 to |items|
        invariant bytes <= U64_MAX && bytes + ItemsBytes(items[i..]) == 9 + ItemsBytes(items)
      {
        var size := EstimateValue(items[i]);
        if size.None? || bytes + size.value > U64_MAX {
          return None;
        }
        bytes := bytes + size.value;
      }
      return Some(bytes);
    case Map(entries) =>
      var bytes: nat := 9;
      for i := 0 to |entries|
        invariant bytes <= U64_MAX && bytes + EntriesBytes(entries[i..]) == 9 + EntriesBytes(entries)
      {
        var size := EstimateValue(entries[i].value);
        if size.None? || bytes + |entries[i].name| + size.value > U64_MAX {
          return None;
        }
        bytes := bytes + |entries[i].name| + size.value;
      }
      return Some(bytes);
  }

  method EstimateSelected(start: nat, properties: map<string, Value>, specs: seq<ColumnSpec>) returns (r: Option<nat>)
    requires start <= U64_MAX
    ensures r == Fitting(start + SelectedBytes(properties, specs))
  {
    var bytes: nat := start;
    for i := 0 to |specs|
      invariant bytes <= U64_MAX
      invariant bytes + SelectedBytes(properties, specs[i..]) == start + SelectedBytes(properties, specs)
    {
      bytes := bytes + |specs[i].name|;
      if bytes > U64_MAX {
        return None;
      }
      if specs[i].name in properties {
        var size := EstimateValue(properties[specs[i].name]);
        if size.None? || bytes + size.value > U64_MAX {
          return None;
        }
        bytes := bytes + size.value;
      }
    }
    return Some(bytes);
  }

  function VertexSelected(spec: ProjectionSpec): ProjectedVertex -> nat
  {
    (v: ProjectedVertex) => SelectedBytes(v.properties, spec.vertexProperties)
  }

  function EdgeSelected(spec: ProjectionSpec): ProjectedEdge -> nat
  {
    (e: ProjectedEdge) => SelectedBytes(e.properties, spec.edgeProperties)
  }

  method EstimateVertices(start: nat, vertices: seq<ProjectedVertex>, spec: ProjectionSpec) returns (r: Option<nat>)
    requires start <= U64_MAX
    ensures r == Fitting(start + Sum(VertexSelected(spec), vertices))
  {
    var bytes: nat := start;
    for i := 0 to |vertices|
      invariant bytes == start + Sum(VertexSelected(spec), vertices[..i]) <= U64_MAX
    {
      SumPrefix(VertexSelected(spec), vertices, i);
      var more := EstimateSelected(bytes, vertices[i].properties, spec.vertexProperties);
      if more.None? {
        return None;
      }
      bytes := more.value;
    }
    assert vertices[..|vertices|] == vertices;
    return Some(bytes);
  }

  method EstimateEdges(start: nat, edges: seq<ProjectedEdge>, spec: ProjectionSpec) returns (r: Option<nat>)
    requires start <= U64_MAX
    ensures r == Fitting(start + Sum(EdgeSelected(spec), edges))
  {
    var bytes: nat := start;
    for i := 0 to |edges|
      invariant bytes == start + Sum(EdgeSelected(spec), edges[..i]) <= U64_MAX
    {
      SumPrefix(EdgeSelected(spec), edges, i);
      var more := EstimateSelected(bytes, edges[i].properties, spec.edgeProperties);
      if more.None? {
        return None;
      }
      bytes := more.value;
    }
    assert edges[..|edges|] == edges;
    return Some(bytes);
  }

  /** The cost of one more part. */
  lemma EstimateOfNext(parts: seq<Part>, spec: ProjectionSpec, i: nat)
    requires i < |parts|
    ensures EstimatedBytes(parts[..i + 1], spec)
         == EstimatedBytes(parts[..i], spec) + 64 + Sum(VertexCost(spec), parts[i].vertices)
            + Sum(EdgeCost(spec), parts[i].edges)
  {
    assert parts[..i + 1][..i] == parts[..i];
    SumAppended(VertexCost(spec), AllVertices(parts[..i]), parts[i].vertices);
    SumAppended(EdgeCost(spec), AllEdges(parts[..i]), parts[i].edges);
  }

  lemma {:induction false} EstimateGrows(parts: seq<Part>, spec: ProjectionSpec, i: nat)
    requires i <= |parts|
    ensures EstimatedBytes(parts[..i], spec) <= EstimatedBytes(parts, spec)
    decreases |parts| - i
  {
    hide EstimatedBytes;
    if i < |parts| {
      EstimateOfNext(parts, spec, i);
      EstimateGrows(parts, spec, i + 1);
    } else {
      assert parts[..i] == parts;
    }
  }

  /** The specification without reverse rows. */
  function ForwardOnly(spec: ProjectionSpec): ProjectionSpec
  {
    spec.(includeReverse := false)
  }

  lemma {:induction false} ReverseAdds(parts: seq<Part>, spec: ProjectionSpec)
    ensures EstimatedBytes(parts, spec)
         == EstimatedBytes(parts, ForwardOnly(spec)) + if spec.includeReverse then 8 * |AllEdges(parts)| else 0
  {
    var forward := ForwardOnly(spec);
    SumWithBase(VertexCost(spec), VertexSelected(spec), 128, AllVertices(parts));
    SumWithBase(VertexCost(forward), VertexSelected(spec), 128, AllVertices(parts));
    SumWithBase(EdgeCost(spec), EdgeSelected(spec), if spec.includeReverse then 200 else 192, AllEdges(parts));
    SumWithBase(EdgeCost(forward), EdgeSelected(spec), 192, AllEdges(parts));
  }

  lemma PartCost(part: Part, spec: ProjectionSpec)
    ensures Sum(VertexCost(spec), part.vertices) == 128 * |part.vertices| + Sum(VertexSelected(spec), part.vertices)
    ensures !spec.includeReverse ==>
              Sum(EdgeCost(spec), part.edges) == 192 * |part.edges| + Sum(EdgeSelected(spec), part.edges)
  {
    SumWithBase(VertexCost(spec), VertexSelected(spec), 128, part.vertices);
    if !spec.includeReverse {
      SumWithBase(EdgeCost(spec), EdgeSelected(spec), 192, part.edges);
    }
  }

  method EstimateParts(parts: seq<Part>, spec: ProjectionSpec) returns (r: Option<nat>)
    ensures r == Fitting(EstimatedBytes(parts, ForwardOnly(spec)))
  {
    hide EstimatedBytes;
    ghost var forward := ForwardOnly(spec);
    var bytes: nat := 256;
    NoParts(forward);
    for i := 0 to |parts|
      invariant bytes == EstimatedBytes(parts[..i], forward) <= U64_MAX
    {
      EstimateOfNext(parts, forward, i);
      EstimateGrows(parts, forward, i + 1);
      PartCost(parts[i], forward);
      bytes := bytes + 64 + 128 * |parts[i].vertices| + 192 * |parts[i].edges|;
      if bytes > U64_MAX {
        return None;
      }
      var withVertices := EstimateVertices(bytes, parts[i].vertices, spec);
      if withVertices.None? {
        return None;
      }
      var withEdges := EstimateEdges(withVertices.value, parts[i].edges, spec);
      if withEdges.None? {
        return None;
      }
      bytes := withEdges.value;
    }
    assert parts[..|parts|] == parts;
    return Some(bytes);
  }

  /** The empty delivery costs a fixed amount. */
  lemma NoParts(spec: ProjectionSpec)
    ensures EstimatedBytes([], spec) == 256
  {
  }

  method EstimateProjection(parts: seq<Part>, spec: ProjectionSpec) returns (r: Option<nat>)
    ensures r == Fitting(EstimatedBytes(parts, spec))
  {
    hide EstimatedBytes;
    ReverseAdds(parts, spec);
    var forward := EstimateParts(parts, spec);
    if forward.None? || !spec.includeReverse {
      return forward;
    }
    var edges := 0;
    for i := 0 to |parts|
      invariant edges == |AllEdges(parts[..i])|
    {
      assert parts[..i + 1][..i] == parts[..i];
      edges := edges + |parts[i].edges|;
    }
    assert parts[..|parts|] == parts;
    return Fitting(forward.value + 8 * edges);
  }
}

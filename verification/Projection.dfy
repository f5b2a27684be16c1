/** What the shards deliver for one snapshot, and what a projection asks for. */
module Projection {
  import opened Wrappers
  import opened KernelValues

  datatype ShardFence = ShardFence(placementEpoch: nat, backendGeneration: nat, appliedIndex: nat, closedTime: I64)

  datatype SnapshotProvenance = SnapshotProvenance(
    transactionId: nat, startTime: I64, catalogVersion: nat, shards: map<nat, ShardFence>)

  datatype PartitionProvenance = PartitionProvenance(
    shardId: nat, placementEpoch: nat, backendGeneration: nat, appliedIndex: nat, partitionIndex: nat,
      partitionCount: nat)

  datatype ProjectedVertex = ProjectedVertex(id: nat, properties: map<string, Value>)
  datatype ProjectedEdge = ProjectedEdge(id: nat, source: nat, target: nat, properties: map<string, Value>)

  datatype Part = Part(
    snapshot: SnapshotProvenance, provenance: PartitionProvenance, vertices: seq<ProjectedVertex>,
      edges: seq<ProjectedEdge>)

  datatype PropertyType = BooleanType | IntegerType | FloatType | BytesType | StringType | ListType | MapType {
    predicate Matches(value: Value)
    {
      || value.Null?
      || (BooleanType? && value.Boolean?)
      || (IntegerType? && value.Integer?)
      || (FloatType? && value.FloatBits?)
      || (BytesType? && value.Bytes?)
      || (StringType? && value.Text?)
      || (ListType? && value.List?)
      || (MapType? && value.Map?)
    }
  }

  /** The type a value is of; null is of none. */
  function TypeOf(value: Value): Option<PropertyType>
  {
    match value
    case Null => None
    case Boolean(_) => Some(BooleanType)
    case Integer(_) => Some(IntegerType)
    case FloatBits(_) => Some(FloatType)
    case Bytes(_) => Some(BytesType)
    case Text(_) => Some(StringType)
    case List(_) => Some(ListType)
    case Map(_) => Some(MapType)
  }

  /** A type takes null and exactly the values of its own kind. */
  lemma MatchesMeans(t: PropertyType, value: Value)
    ensures t.Matches(value) <==> value.Null? || TypeOf(value) == Some(t)
  {
  }

  datatype ColumnSpec = ColumnSpec(name: string, propertyType: PropertyType, required: bool)

  datatype ProjectionSpec = ProjectionSpec(includeReverse: bool, vertexProperties: seq<ColumnSpec>,
      edgeProperties: seq<ColumnSpec>) {
    /** Column names are nonempty and distinct; the constructor of a specification insists. */
    ghost predicate Valid() { DistinctNames(vertexProperties) && DistinctNames(edgeProperties) }
  }

  ghost predicate DistinctNames(specs: seq<ColumnSpec>)
  {
    && (forall i | 0 <= i < |specs| :: specs[i].name != "")
    && (forall i, j | 0 <= i < j < |specs| :: specs[i].name != specs[j].name)
  }

  datatype ProjectionError =
    | SnapshotMismatch
    | PartitionFenceMismatch
    | DuplicatePartition
    | PartitionGap
    | DuplicateVertex
    | DuplicateEdge
    | DanglingEdge
    | MissingRequiredProperty
    | PropertyTypeMismatch
    | ResourceLimit
}

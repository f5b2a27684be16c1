/** The compressed sparse row form of one snapshot that every algorithm reads. */
module Csr {
  import opened Wrappers
  import opened KernelValues

  datatype ReverseCsr = ReverseCsr(offsets: seq<nat>, neighbors: seq<nat>, forwardEdgeIndices: seq<nat>)

  /** Offsets of `n` consecutive ranges that together cover `0..m`. */
  ghost predicate Offsets(offsets: seq<nat>, n: nat, m: nat)
  {
    && |offsets| == n + 1
    && offsets[0] == 0
    && offsets[n] == m
    && forall i, j | 0 <= i <= j <= n :: offsets[i] <= offsets[j]
  }

  /** Position `p` lies in the range of `v`. */
  predicate InRange(offsets: seq<nat>, v: nat, p: nat)
  {
    v + 1 < |offsets| && offsets[v] <= p < offsets[v + 1]
  }

  /** The owner of position `p`, searched from `v` on. */
  function OwnerFrom(offsets: seq<nat>, v: nat, p: nat): (owner: nat)
    requires v < |offsets| && offsets[v] <= p < offsets[|offsets| - 1]
    ensures InRange(offsets, owner, p)
    decreases |offsets| - v
  {
    if p < offsets[v + 1] then v else OwnerFrom(offsets, v + 1, p)
  }

  lemma OwnerIsUnique(offsets: seq<nat>, n: nat, m: nat, u: nat, v: nat, p: nat)
    requires Offsets(offsets, n, m) && InRange(offsets, u, p) && InRange(offsets, v, p)
    ensures u == v
  {
  }

  datatype SnapshotCsr = SnapshotCsr(
    vertexIds: seq<nat>,
    offsets: seq<nat>,
    neighbors: seq<nat>,
    edgeIds: seq<nat>,
    reverse: Option<ReverseCsr>,
    vertexProperties: map<string, seq<Option<Value>>>,
    edgeProperties: map<string, seq<Option<Value>>>)
  {
    function VertexCount(): nat { |vertexIds| }
    function EdgeCount(): nat { |edgeIds| }

    /** What `Assemble` establishes and every reader relies on. */
    ghost predicate Valid()
    {
      && VertexCount() <= U32_MAX
      && EdgeCount() <= U32_MAX
      && (forall i, j | 0 <= i < j < |vertexIds| :: vertexIds[i] < vertexIds[j])
      && Offsets(offsets, VertexCount(), EdgeCount())
      && |neighbors| == EdgeCount()
      && (forall e | 0 <= e < |neighbors| :: neighbors[e] < VertexCount())
      && (reverse.Some? ==> Transposed(reverse.value))
      && (forall name | name in edgeProperties :: |edgeProperties[name]| == EdgeCount())
    }

    /** `r` lists every edge exactly once, under its target. */
    ghost predicate Transposed(r: ReverseCsr)
    {
      && Offsets(r.offsets, VertexCount(), EdgeCount())
      && |r.neighbors| == |r.forwardEdgeIndices| == EdgeCount() == |neighbors|
      && (forall v: nat, p: nat | InRange(r.offsets, v, p) ::
            && r.forwardEdgeIndices[p] < EdgeCount()
            && neighbors[r.forwardEdgeIndices[p]] == v
            && InRange(offsets, r.neighbors[p], r.forwardEdgeIndices[p]))
      && (forall p, q | 0 <= p < q < EdgeCount() :: r.forwardEdgeIndices[p] != r.forwardEdgeIndices[q])
      && (forall e | 0 <= e < EdgeCount() :: e in r.forwardEdgeIndices)
    }

    /** The source vertex of edge `e`. */
    function Source(e: nat): (v: nat)
      requires |offsets| > 0 && offsets[0] == 0 && e < offsets[|offsets| - 1]
      ensures InRange(offsets, v, e)
    {
      OwnerFrom(offsets, 0, e)
    }

    function EdgeInteger(property: string, e: nat): (t: Option<I64>)
    {
      if property in edgeProperties && e < |edgeProperties[property]| then
        match edgeProperties[property][e]
        case Some(Integer(i)) => Some(i)
        case _ => None
      else None
    }

    lemma SourceOf(v: nat, e: nat)
      requires Valid() && InRange(offsets, v, e)
      ensures e < EdgeCount() && v < VertexCount() && Source(e) == v
    {
      assert offsets[v + 1] <= offsets[VertexCount()];
      OwnerIsUnique(offsets, VertexCount(), EdgeCount(), Source(e), v, e);
    }

    /** Where the reverse form keeps edge `e`: in the range of its target, beside its source. */
    lemma PositionOf(e: nat) returns (p: nat)
      requires Valid() && reverse.Some? && e < EdgeCount()
      ensures p < EdgeCount() && reverse.value.forwardEdgeIndices[p] == e
      ensures InRange(reverse.value.offsets, neighbors[e], p)
      ensures reverse.value.neighbors[p] == Source(e)
    {
      var r := reverse.value;
      assert e in r.forwardEdgeIndices;
      p :| 0 <= p < |r.forwardEdgeIndices| && r.forwardEdgeIndices[p] == e;
      var v := OwnerFrom(r.offsets, 0, p);
      assert neighbors[e] == v;
      SourceOf(r.neighbors[p], e);
    }
  }

  /** What is stored for edge `e` under a property. */
  ghost predicate CellIs(csr: SnapshotCsr, property: string, e: nat, value: Value)
  {
    && property in csr.edgeProperties && e < |csr.edgeProperties[property]|
    && csr.edgeProperties[property][e] == Some(value)
  }
}

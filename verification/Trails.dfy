/** Edge sequences through a snapshot and what they weigh. */
module Trails {
  import opened Wrappers
  import opened Csr

  /** Connected edges from `source` to `v`, all of known weight. */
  ghost predicate Trail(csr: SnapshotCsr, weights: seq<Option<real>>, es: seq<nat>, source: nat, v: nat)
    requires csr.Valid() && |weights| == csr.EdgeCount()
    decreases |es|
  {
    if es == [] then v == source else
    var e := es[|es| - 1];
    e < csr.EdgeCount() && weights[e].Some? && csr.neighbors[e] == v
        && Trail(csr, weights, es[..|es| - 1], source, csr.Source(e))
  }

  ghost function Length(weights: seq<Option<real>>, es: seq<nat>): real
  {
    if es == [] then 0.0 else
    var e := es[|es| - 1];
    Length(weights, es[..|es| - 1]) + if e < |weights| && weights[e].Some? then weights[e].value else 0.0
  }

  lemma TrailOn(csr: SnapshotCsr, weights: seq<Option<real>>, es: seq<nat>, source: nat, v: nat, e: nat)
    requires csr.Valid() && |weights| == csr.EdgeCount() && Trail(csr, weights, es, source, v)
    requires e < csr.EdgeCount() && weights[e].Some? && csr.Source(e) == v
    ensures Trail(csr, weights, es + [e], source, csr.neighbors[e])
    ensures Length(weights, es + [e]) == Length(weights, es) + weights[e].value
  {
    assert (es + [e])[..|es|] == es;
  }

  /** `d` is the least length of all trails to `v`; `None` means there is no trail. */
  ghost predicate Shortest(csr: SnapshotCsr, weights: seq<Option<real>>, source: nat, v: nat, d: Option<real>)
    requires csr.Valid() && |weights| == csr.EdgeCount()
  {
    match d
    case None => forall es :: !Trail(csr, weights, es, source, v)
    case Some(d) =>
      && (exists es :: Trail(csr, weights, es, source, v) && Length(weights, es) == d)
      && (forall es | Trail(csr, weights, es, source, v) :: d <= Length(weights, es))
  }

  ghost function UnitWeights(m: nat): (weights: seq<Option<real>>)
  {
    seq(m, _ => Some(1.0))
  }

  lemma {:induction false} UnitLength(m: nat, es: seq<nat>)
    requires forall k | 0 <= k < |es| :: es[k] < m
    ensures Length(UnitWeights(m), es) == |es| as real
  {
    if es != [] {
      UnitLength(m, es[..|es| - 1]);
    }
  }
}

/** Edge weights and what they mean: the stored cells, and least sums of them over all walks. */
module StoredWeights {
  import opened Wrappers
  import opened KernelValues
  import opened Guard
  import opened Csr
  import opened Trails

  /** What a 64-bit float denotes: a real number, or an infinity or NaN. */
  datatype Number = Finite(value: real) | NotFinite

  function EdgeNumber(csr: SnapshotCsr, property: string, e: nat, decode: U64 -> Number): (r: Option<Number>)
  {
    if property in csr.edgeProperties && e < |csr.edgeProperties[property]| then
      match csr.edgeProperties[property][e]
      case Some(Integer(i)) => Some(Finite(i as real))
      case Some(FloatBits(bits)) => Some(decode(bits))
      case _ => None
    else None
  }

  function EdgeWeight(csr: SnapshotCsr, property: Option<string>, e: nat, decode: U64 -> Number): (r: Result<real,
                      AnalyticsError>)
    ensures r.Ok? ==> r.value >= 0.0
    ensures r.Err? ==> r.error in {MissingProperty, InvalidProperty}
  {
    match property
    case None => Ok(1.0)
    case Some(name) =>
      match EdgeNumber(csr, name, e, decode)
      case None => Err(MissingProperty)
      case Some(NotFinite) => Err(InvalidProperty)
      case Some(Finite(weight)) => if weight < 0.0 then Err(InvalidProperty) else Ok(weight)
  }

  ghost function Weights(csr: SnapshotCsr, property: Option<string>,
                         decode: U64 -> Number): (weights: seq<Option<real>>)
    ensures |weights| == csr.EdgeCount()
    ensures forall e | 0 <= e < csr.EdgeCount() ::
              weights[e] == var w := EdgeWeight(csr, property, e, decode); if w.Ok? then Some(w.value) else None
    ensures forall e | 0 <= e < csr.EdgeCount() && weights[e].Some? :: weights[e].value >= 0.0
  {
    seq(csr.EdgeCount(), e requires 0 <= e < csr.EdgeCount() =>
      var w := EdgeWeight(csr, property, e, decode); if w.Ok? then Some(w.value) else None)
  }

  /** Edge `e` weighs `x`: one without a property, otherwise the nonnegative number in its cell. */
  ghost predicate CellWeighs(csr: SnapshotCsr, property: Option<string>, decode: U64 -> Number, e: nat, x: real)
  {
    match property
    case None => x == 1.0
    case Some(name) =>
      && x >= 0.0
      && (|| (exists i :: CellIs(csr, name, e, Integer(i)) && x == i as real)
          || (exists b :: CellIs(csr, name, e, FloatBits(b)) && decode(b) == Finite(x)))
  }

  /** The cell holds a number, but a negative or non-finite one. */
  ghost predicate CellRefused(csr: SnapshotCsr, property: Option<string>, decode: U64 -> Number, e: nat)
  {
    && property.Some?
    && (|| (exists i :: CellIs(csr, property.value, e, Integer(i)) && i < 0)
        || (exists b :: CellIs(csr, property.value, e, FloatBits(b)) && !(decode(b).Finite? && decode(b).value >= 0.0)))
  }

  /** The cell holds no number at all. */
  ghost predicate CellMissing(csr: SnapshotCsr, property: Option<string>, e: nat)
  {
    && property.Some?
    && (forall i: I64 :: !CellIs(csr, property.value, e, Integer(i)))
    && (forall b: U64 :: !CellIs(csr, property.value, e, FloatBits(b)))
  }

  /** The weight of an edge is what its cell says, and the error says what is wrong with the cell. */
  lemma WeightMeans(csr: SnapshotCsr, property: Option<string>, e: nat, decode: U64 -> Number, x: real)
    ensures EdgeWeight(csr, property, e, decode) == Ok(x) <==> CellWeighs(csr, property, decode, e, x)
    ensures EdgeWeight(csr, property, e, decode) == Err(InvalidProperty) <==> CellRefused(csr, property, decode, e)
    ensures EdgeWeight(csr, property, e, decode) == Err(MissingProperty) <==> CellMissing(csr, property, e)
  {
    if property.Some? && property.value in csr.edgeProperties && e < |csr.edgeProperties[property.value]| {
      var cell := csr.edgeProperties[property.value][e];
      if cell.Some? {
        assert CellIs(csr, property.value, e, cell.value);
      }
    }
  }

  /** Consecutive edges from `source` to `v`. */
  ghost predicate Leads(csr: SnapshotCsr, es: seq<nat>, source: nat, v: nat)
    requires csr.Valid()
  {
    && (forall k | 0 <= k < |es| :: es[k] < csr.EdgeCount())
    && (forall k | 0 <= k < |es| - 1 :: csr.neighbors[es[k]] == csr.Source(es[k + 1]))
    && (if es == [] then v == source else csr.Source(es[0]) == source && csr.neighbors[es[|es| - 1]] == v)
  }

  /** The stored weights along the edges. */
  ghost predicate Carries(csr: SnapshotCsr, property: Option<string>, decode: U64 -> Number, es: seq<nat>,
                          ws: seq<real>)
  {
    |ws| == |es| && forall k | 0 <= k < |es| :: CellWeighs(csr, property, decode, es[k], ws[k])
  }

  ghost function Sum(ws: seq<real>): real
  {
    if ws == [] then 0.0 else Sum(ws[..|ws| - 1]) + ws[|ws| - 1]
  }

  /** `d` is the least sum of stored weights over all walks to `v`; none if there is no walk of weighted edges. */
  ghost predicate LeastSum(csr: SnapshotCsr, property: Option<string>, decode: U64 -> Number, source: nat, v: nat,
                           d: Option<real>)
    requires csr.Valid()
  {
    match d
    case None => forall es, ws :: !(Leads(csr, es, source, v) && Carries(csr, property, decode, es, ws))
    case Some(d) =>
      && (exists es, ws :: Leads(csr, es, source, v) && Carries(csr, property, decode, es, ws) && Sum(ws) == d)
      && (forall es, ws | Leads(csr, es, source, v) && Carries(csr, property, decode, es, ws) :: d <= Sum(ws))
  }

  lemma LeadsBack(csr: SnapshotCsr, es: seq<nat>, source: nat, v: nat)
    requires csr.Valid() && es != []
    ensures var e := es[|es| - 1];
      Leads(csr, es, source, v) <==>
        e < csr.EdgeCount() && csr.neighbors[e] == v && Leads(csr, es[..|es| - 1], source, csr.Source(e))
  {
    var front := es[..|es| - 1];
    assert forall k | 0 <= k < |front| :: front[k] == es[k];
    if Leads(csr, es, source, v) && front != [] {
      assert csr.neighbors[es[|es| - 2]] == csr.Source(es[|es| - 2 + 1]);
    }
    if es[|es| - 1] < csr.EdgeCount() && Leads(csr, front, source, csr.Source(es[|es| - 1])) {
      forall k | 0 <= k < |es| - 1 ensures csr.neighbors[es[k]] == csr.Source(es[k + 1]) {
        if k < |front| - 1 {
          assert csr.neighbors[front[k]] == csr.Source(front[k + 1]);
        }
      }
    }
  }

  /** A trail of known weights is a walk that carries them. */
  lemma {:induction false} TrailCarries(csr: SnapshotCsr, property: Option<string>, decode: U64 -> Number,
                                        es: seq<nat>, source: nat, v: nat) returns (ws: seq<real>)
    requires csr.Valid() && Trail(csr, Weights(csr, property, decode), es, source, v)
    ensures Leads(csr, es, source, v) && Carries(csr, property, decode, es, ws)
    ensures Sum(ws) == Length(Weights(csr, property, decode), es)
    decreases |es|
  {
    hide EdgeWeight, CellWeighs, Leads;
    if es == [] {
      ws := [];
      NoEdgesLead(csr, source);
    } else {
      var e, front := es[|es| - 1], es[..|es| - 1];
      var before := TrailCarries(csr, property, decode, front, source, csr.Source(e));
      var x := Weights(csr, property, decode)[e].value;
      WeightMeans(csr, property, e, decode, x);
      ws := before + [x];
      assert ws[..|ws| - 1] == before;
      LeadsBack(csr, es, source, v);
    }
  }

  lemma NoEdgesLead(csr: SnapshotCsr, source: nat)
    requires csr.Valid()
    ensures Leads(csr, [], source, source)
  {
  }

  lemma {:induction false} CarriedTrail(csr: SnapshotCsr, property: Option<string>, decode: U64 -> Number,
                                        es: seq<nat>, ws: seq<real>, source: nat, v: nat)
    requires csr.Valid() && Leads(csr, es, source, v) && Carries(csr, property, decode, es, ws)
    ensures Trail(csr, Weights(csr, property, decode), es, source, v)
    ensures Sum(ws) == Length(Weights(csr, property, decode), es)
    decreases |es|
  {
    hide EdgeWeight, CellWeighs;
    if es != [] {
      var e, front, x := es[|es| - 1], es[..|es| - 1], ws[|ws| - 1];
      LeadsBack(csr, es, source, v);
      assert CellWeighs(csr, property, decode, es[|es| - 1], ws[|es| - 1]);
      WeightMeans(csr, property, e, decode, x);
      CarriedTrail(csr, property, decode, front, ws[..|ws| - 1], source, csr.Source(e));
    }
  }

  /** The shortest distance over known weights is the least sum of stored cells over all walks. */
  lemma ShortestMeans(csr: SnapshotCsr, property: Option<string>, decode: U64 -> Number, source: nat, v: nat,
                      d: Option<real>)
    requires csr.Valid()
    ensures Shortest(csr, Weights(csr, property, decode), source, v, d) ==>
              LeastSum(csr, property, decode, source, v, d)
  {
    hide Trail, Leads, Carries, Sum, Length, Weights;
    if Shortest(csr, Weights(csr, property, decode), source, v, d) {
      forall es, ws | Leads(csr, es, source, v) && Carries(csr, property, decode, es, ws)
        ensures Trail(csr, Weights(csr, property, decode), es, source, v)
        ensures Sum(ws) == Length(Weights(csr, property, decode), es)
      {
        CarriedTrail(csr, property, decode, es, ws, source, v);
      }
      if d.Some? {
        var es :| Trail(csr, Weights(csr, property, decode), es, source, v)
                  && Length(Weights(csr, property, decode), es) == d.value;
        var ws := TrailCarries(csr, property, decode, es, source, v);
      }
    }
  }

  /** Some edge has a cell without a usable weight, for the reason the error gives. */
  ghost predicate Unweighted(csr: SnapshotCsr, property: Option<string>, decode: U64 -> Number, error: AnalyticsError)
  {
    exists e: nat :: e < csr.EdgeCount() && Unusable(csr, property, decode, e, error)
  }

  ghost predicate Unusable(csr: SnapshotCsr, property: Option<string>, decode: U64 -> Number, e: nat,
                           error: AnalyticsError)
  {
    || (error == InvalidProperty && CellRefused(csr, property, decode, e))
    || (error == MissingProperty && CellMissing(csr, property, e))
  }

  lemma RefusedWeight(csr: SnapshotCsr, property: Option<string>, decode: U64 -> Number, e: nat)
    requires e < csr.EdgeCount()
    ensures var w := EdgeWeight(csr, property, e, decode); w.Err? ==> Unweighted(csr, property, decode, w.error)
  {
    hide CellRefused, CellMissing;
    var w := EdgeWeight(csr, property, e, decode);
    WeightMeans(csr, property, e, decode, 0.0);
    if w.Err? { assert Unusable(csr, property, decode, e, w.error); }
  }
}

/** Row offsets by counting and prefix sums. */
module RowOffsets {
  import opened Csr

  function CountOf(owners: seq<nat>, v: nat): (c: nat)
  {
    if owners == [] then 0
    else CountOf(owners[..|owners| - 1], v) + if owners[|owners| - 1] == v then 1 else 0
  }

  function CountBelow(owners: seq<nat>, v: nat): (c: nat)
    ensures c <= |owners|
  {
    if owners == [] then 0
    else CountBelow(owners[..|owners| - 1], v) + if owners[|owners| - 1] < v then 1 else 0
  }

  lemma {:induction false} CountBelowNext(owners: seq<nat>, v: nat)
    ensures CountBelow(owners, v + 1) == CountBelow(owners, v) + CountOf(owners, v)
    ensures CountBelow(owners, 0) == 0
  {
    if owners != [] {
      CountBelowNext(owners[..|owners| - 1], v);
    }
  }

  lemma {:induction false} CountBelowAll(owners: seq<nat>, v: nat)
    requires forall k | 0 <= k < |owners| :: owners[k] < v
    ensures CountBelow(owners, v) == |owners|
  {
    if owners != [] {
      CountBelowAll(owners[..|owners| - 1], v);
    }
  }

  lemma {:induction false} CountBelowGrows(owners: seq<nat>, u: nat, v: nat)
    requires u <= v
    ensures CountBelow(owners, u) <= CountBelow(owners, v)
  {
    if owners != [] {
      CountBelowGrows(owners[..|owners| - 1], u, v);
    }
  }

  ghost predicate Grouped(owners: seq<nat>)
  {
    forall i, j | 0 <= i <= j < |owners| :: owners[i] <= owners[j]
  }

  /** In a grouped list the positions below the count are those with a smaller owner. */
  lemma {:induction false} CountBelowIsBoundary(owners: seq<nat>, v: nat, k: nat)
    requires Grouped(owners) && k < |owners|
    ensures owners[k] < v <==> k < CountBelow(owners, v)
    decreases |owners|
  {
    var front := owners[..|owners| - 1];
    if owners[|owners| - 1] < v {
      CountBelowAll(owners, v);
    } else if k < |front| {
      CountBelowIsBoundary(front, v, k);
    }
  }

  /** Counts the owners, then adds the counts up. */
  method BuildOffsets(owners: seq<nat>, n: nat) returns (offsets: seq<nat>)
    requires Grouped(owners) && forall k | 0 <= k < |owners| :: owners[k] < n
    ensures Offsets(offsets, n, |owners|)
    ensures forall k: nat, v: nat | k < |owners| :: InRange(offsets, v, k) <==> owners[k] == v
  {
    offsets := seq(n + 1, _ => 0);
    var k := 0;
    while k < |owners|
      invariant 0 <= k <= |owners| && |offsets| == n + 1 && offsets[0] == 0
      invariant forall v | 0 <= v < n :: offsets[v + 1] == CountOf(owners[..k], v)
    {
      assert owners[..k + 1][..k] == owners[..k];
      offsets := offsets[owners[k] + 1 := offsets[owners[k] + 1] + 1];
      k := k + 1;
    }
    assert owners[..k] == owners;
    CountBelowNext(owners, 0);
    var i := 1;
    while i <= n
      invariant 1 <= i <= n + 1 && |offsets| == n + 1
      invariant forall v | 0 <= v < i :: offsets[v] == CountBelow(owners, v)
      invariant forall v | i <= v + 1 <= n && 0 <= v :: offsets[v + 1] == CountOf(owners, v)
    {
      CountBelowNext(owners, i - 1);
      offsets := offsets[i := offsets[i] + offsets[i - 1]];
      i := i + 1;
    }
    CountBelowAll(owners, n);
    OffsetsAreCounts(owners, offsets, n);
  }

  lemma OffsetsAreCounts(owners: seq<nat>, offsets: seq<nat>, n: nat)
    requires Grouped(owners) && (forall k | 0 <= k < |owners| :: owners[k] < n)
    requires |offsets| == n + 1 && forall v | 0 <= v <= n :: offsets[v] == CountBelow(owners, v)
    ensures Offsets(offsets, n, |owners|)
    ensures forall k: nat, v: nat | k < |owners| :: InRange(offsets, v, k) <==> owners[k] == v
  {
    CountBelowAll(owners, n);
    CountBelowNext(owners, 0);
    forall u, v | 0 <= u <= v <= n
      ensures offsets[u] <= offsets[v]
    {
      CountBelowGrows(owners, u, v);
    }
    forall k: nat, v: nat | k < |owners|
      ensures InRange(offsets, v, k) <==> owners[k] == v
    {
      CountBelowIsBoundary(owners, v, k);
      CountBelowIsBoundary(owners, v + 1, k);
    }
  }

  /** Offsets are determined by which row owns each position. */
  lemma OffsetsAreUnique(offsets: seq<nat>, offsets': seq<nat>, n: nat, m: nat)
    requires Offsets(offsets, n, m) && Offsets(offsets', n, m)
    requires forall u: nat, v: nat, k: nat | InRange(offsets, u, k) && InRange(offsets', v, k) :: u == v
    ensures offsets == offsets'
  {
    forall v | 0 <= v <= n
      ensures offsets[v] == offsets'[v]
    {
      if offsets[v] < offsets'[v] {
        BoundariesAgree(offsets, offsets', n, m, v);
      } else if offsets'[v] < offsets[v] {
        BoundariesAgree(offsets', offsets, n, m, v);
      }
    }
  }

  lemma BoundariesAgree(offsets: seq<nat>, offsets': seq<nat>, n: nat, m: nat, v: nat)
    requires Offsets(offsets, n, m) && Offsets(offsets', n, m) && v <= n
    requires forall u: nat, v: nat, k: nat | InRange(offsets, u, k) && InRange(offsets', v, k) :: u == v
    ensures offsets[v] >= offsets'[v]
  {
    if offsets[v] < offsets'[v] {
      var k := offsets[v];
      var u := OwnerFrom(offsets, 0, k);
      var u' := OwnerFrom(offsets', 0, k);
    }
  }
}

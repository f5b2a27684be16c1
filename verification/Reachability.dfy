/** Paths in a finite relation. */
module Reachability {
  import opened Sequences

  type Edges = set<(nat, nat)>

  ghost predicate Path(edges: Edges, p: seq<nat>, u: nat, v: nat)
  {
    && p != [] && p[0] == u && p[|p| - 1] == v
    && forall k | 0 <= k < |p| - 1 :: (p[k], p[k + 1]) in edges
  }

  ghost predicate Reaches(edges: Edges, u: nat, v: nat)
  {
    exists p :: Path(edges, p, u, v)
  }

  /** Each vertex reaches the other. */
  ghost predicate Mutual(edges: Edges, u: nat, v: nat)
  {
    Reaches(edges, u, v) && Reaches(edges, v, u)
  }

  ghost function Transpose(edges: Edges): (t: Edges)
    ensures forall u: nat, v: nat :: (u, v) in t <==> (v, u) in edges
  {
    set e | e in edges :: (e.1, e.0)
  }

  lemma ReachesSelf(edges: Edges, u: nat)
    ensures Reaches(edges, u, u)
  {
    assert Path(edges, [u], u, u);
  }

  lemma ReachesOn(edges: Edges, u: nat, v: nat, w: nat)
    requires Reaches(edges, u, v) && (v, w) in edges
    ensures Reaches(edges, u, w)
  {
    var p :| Path(edges, p, u, v);
    assert Path(edges, p + [w], u, w);
  }

  lemma ReachesThrough(edges: Edges, u: nat, v: nat, w: nat)
    requires Reaches(edges, u, v) && Reaches(edges, v, w)
    ensures Reaches(edges, u, w)
  {
    var p :| Path(edges, p, u, v);
    var q :| Path(edges, q, v, w);
    var r := p + q[1..];
    forall k | 0 <= k < |r| - 1
      ensures (r[k], r[k + 1]) in edges
    {
      if k >= |p| - 1 {
        assert r[k] == q[k - |p| + 1] && r[k + 1] == q[k - |p| + 2];
      }
    }
    assert Path(edges, r, u, w);
  }

  lemma ReachesBack(edges: Edges, u: nat, v: nat)
    ensures Reaches(Transpose(edges), v, u) <==> Reaches(edges, u, v)
  {
    if Reaches(edges, u, v) {
      Backwards(edges, u, v);
    }
    if Reaches(Transpose(edges), v, u) {
      Backwards(Transpose(edges), v, u);
      assert Transpose(Transpose(edges)) == edges;
    }
  }

  lemma Backwards(edges: Edges, u: nat, v: nat)
    requires Reaches(edges, u, v)
    ensures Reaches(Transpose(edges), v, u)
  {
    var p: seq<nat> :| Path(edges, p, u, v);
    var back, n := Reversed(p), |p|;
    ReversedAt(p);
    forall k | 0 <= k < n - 1
      ensures (back[k], back[k + 1]) in Transpose(edges)
    {
      assert (p[n - 2 - k], p[n - 2 - k + 1]) in edges;
    }
    assert Path(Transpose(edges), back, v, u);
  }

  /** No edge leaves `s`. */
  ghost predicate Closed(edges: Edges, s: set<nat>)
  {
    forall u: nat, v: nat | u in s && (u, v) in edges :: v in s
  }

  lemma StaysInside(edges: Edges, s: set<nat>, u: nat, v: nat)
    requires Closed(edges, s) && u in s && Reaches(edges, u, v)
    ensures v in s
  {
    var p :| Path(edges, p, u, v);
    PathStaysInside(edges, s, p, u, v);
  }

  lemma {:induction false} PathStaysInside(edges: Edges, s: set<nat>, p: seq<nat>, u: nat, v: nat)
    requires Closed(edges, s) && u in s && Path(edges, p, u, v)
    ensures v in s
  {
    if |p| > 1 {
      assert (p[0], p[1]) in edges;
      PathStaysInside(edges, s, p[1..], p[1], v);
    }
  }

  /**
   * Every vertex is in one of the classes, two share a class exactly when each reaches the other, and the classes come
   * in order.
   */
  ghost predicate Partitioned(edges: Edges, classes: seq<seq<nat>>, n: nat)
  {
    && (forall i | 0 <= i < |classes| :: forall u | u in classes[i] :: u < n)
    && (forall u: nat | u < n :: Assigned(classes, u))
    && (forall i, j, u, v | 0 <= i < |classes| && 0 <= j < |classes| && u in classes[i] && v in classes[j] ::
          i == j <==> Mutual(edges, u, v))
    && (forall i | 0 <= i < |classes| :: NoRepeats(classes[i]))
    && Led(classes)
  }

  /** No class is empty, each begins with its least vertex, and the classes are ordered by it. */
  ghost predicate Led(classes: seq<seq<nat>>)
  {
    && (forall i | 0 <= i < |classes| :: classes[i] != [] && forall u | u in classes[i] :: classes[i][0] <= u)
    && (forall i, j | 0 <= i < j < |classes| :: classes[i][0] < classes[j][0])
  }

  ghost predicate Rising(s: seq<nat>)
  {
    forall a, b | 0 <= a < b < |s| :: s[a] < s[b]
  }

  ghost predicate Assigned(classes: seq<seq<nat>>, u: nat)
  {
    exists i :: 0 <= i < |classes| && u in classes[i]
  }

  ghost predicate NoRepeats(s: seq<nat>)
  {
    forall a, b | 0 <= a < b < |s| :: s[a] != s[b]
  }
}

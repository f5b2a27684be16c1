/**
Routes through arcs that open at a time and finish at a later one.

An arc can follow another when it becomes ready no earlier than the other is done. The forward temporal search reads
departures and arrivals directly; the backward search reads the same edges with time and direction reversed.
*/
module TimedRoutes {
  import opened FiniteSets

  datatype Arc = Arc(from: nat, to: nat, ready: int, done: int, open: bool)

  /** A search problem: `n` vertices, a source that is ready at `t0`, and the time `inf` that stands for "never". */
  datatype Net = Net(arcs: seq<Arc>, n: nat, source: nat, t0: int, inf: int) {
    ghost predicate Valid()
    {
      && source < n
      && t0 <= inf
      && forall i | 0 <= i < |arcs| && arcs[i].open ::
           arcs[i].from < n && arcs[i].to < n && t0 <= arcs[i].ready <= arcs[i].done <= inf
    }

    /** `es` lists arc indices; each arc starts where and no earlier than the one before it ended. */
    ghost predicate Route(es: seq<nat>, v: nat)
    {
      && (forall k | 0 <= k < |es| :: es[k] < |arcs| && arcs[es[k]].open)
      && (forall k | 0 <= k < |es| - 1 ::
            arcs[es[k]].to == arcs[es[k + 1]].from && arcs[es[k]].done <= arcs[es[k + 1]].ready)
      && (if es == [] then v == source else arcs[es[0]].from == source && v == arcs[es[|es| - 1]].to)
    }

    ghost function Time(es: seq<nat>, v: nat): int
      requires Route(es, v)
    {
      if es == [] then t0 else arcs[es[|es| - 1]].done
    }

    /** `t` is the least time of all routes to `v`, or `inf` when none is done before `inf`. */
    ghost predicate Earliest(v: nat, t: int)
    {
      && t <= inf
      && (t < inf ==> exists es :: Route(es, v) && Time(es, v) == t)
      && (forall es | Route(es, v) :: t <= Time(es, v))
    }

    lemma EarliestIsUnique(v: nat, t: int, t': int)
      requires Valid() && Earliest(v, t) && Earliest(v, t')
      ensures t == t'
    {
    }

    /** The route without its last arc. */
    lemma Shorter(es: seq<nat>, v: nat)
      requires Valid() && Route(es, v) && es != []
      ensures var i := es[|es| - 1];
              && Route(es[..|es| - 1], arcs[i].from)
              && Time(es[..|es| - 1], arcs[i].from) <= arcs[i].ready
    {
      var p := es[..|es| - 1];
      var i := es[|es| - 1];
      if p != [] {
        assert arcs[p[|p| - 1]].to == arcs[i].from;
      }
    }

    lemma Longer(es: seq<nat>, v: nat, i: nat)
      requires Valid() && Route(es, v) && i < |arcs| && arcs[i].open
      requires arcs[i].from == v && Time(es, v) <= arcs[i].ready
      ensures Route(es + [i], arcs[i].to) && Time(es + [i], arcs[i].to) == arcs[i].done
    {
      var es' := es + [i];
      forall k | 0 <= k < |es'| - 1
        ensures arcs[es'[k]].to == arcs[es'[k + 1]].from && arcs[es'[k]].done <= arcs[es'[k + 1]].ready
      {
        if k < |es| - 1 {
          assert es'[k] == es[k] && es'[k + 1] == es[k + 1];
        }
      }
    }

    ghost predicate Times(times: seq<int>)
      requires Valid()
    {
      |times| == n && times[source] <= t0 && forall v | 0 <= v < n :: times[v] <= inf
    }

    /** No arc can still improve a time. */
    ghost predicate Closed(times: seq<int>)
      requires Valid() && Times(times)
    {
      forall i | 0 <= i < |arcs| && arcs[i].open && times[arcs[i].from] <= arcs[i].ready ::
        times[arcs[i].to] <= arcs[i].done
    }

    lemma {:induction false} ClosedBelow(times: seq<int>, es: seq<nat>, v: nat)
      requires Valid() && Times(times) && Closed(times) && Route(es, v)
      ensures v < n && times[v] <= Time(es, v)
      decreases |es|
    {
      if es != [] {
        var i := es[|es| - 1];
        Shorter(es, v);
        ClosedBelow(times, es[..|es| - 1], arcs[i].from);
      }
    }

    /** Every finite time is the time of some route. */
    ghost predicate Attained(times: seq<int>)
      requires |times| == n
    {
      forall v: nat | v < n && times[v] < inf :: exists es :: Route(es, v) && Time(es, v) == times[v]
    }

    lemma Attain(times: seq<int>, i: nat)
      requires Valid() && Times(times) && Attained(times)
      requires i < |arcs| && arcs[i].open && times[arcs[i].from] <= arcs[i].ready
      ensures Attained(times[arcs[i].to := arcs[i].done])
    {
      var u, w := arcs[i].from, arcs[i].to;
      if arcs[i].done < inf {
        var es :| Route(es, u) && Time(es, u) == times[u];
        Longer(es, u, i);
        assert Route(es + [i], w) && Time(es + [i], w) == arcs[i].done;
      }
      var times' := times[w := arcs[i].done];
      forall v: nat | v < n && times'[v] < inf
        ensures exists es :: Route(es, v) && Time(es, v) == times'[v]
      {
        if v != w {
          var es :| Route(es, v) && Time(es, v) == times[v];
        }
      }
    }

    lemma ClosedIsEarliest(times: seq<int>)
      requires Valid() && Times(times) && Closed(times) && Attained(times)
      ensures forall v: nat | v < n :: Earliest(v, times[v])
    {
      forall v: nat, es | v < n && Route(es, v)
        ensures times[v] <= Time(es, v)
      {
        ClosedBelow(times, es, v);
      }
    }

    // ----- routes need not visit a vertex twice

    /** No vertex is entered twice, and the source not at all. */
    ghost predicate Distinct(es: seq<nat>)
    {
      && (forall k | 0 <= k < |es| :: es[k] < |arcs| && arcs[es[k]].to != source)
      && (forall j, k | 0 <= j < k < |es| :: arcs[es[j]].to != arcs[es[k]].to)
    }

    lemma {:induction false} Prefix(es: seq<nat>, v: nat, k: nat)
      requires Valid() && Route(es, v) && k < |es|
      ensures Route(es[..k + 1], arcs[es[k]].to) && Time(es[..k + 1], arcs[es[k]].to) <= Time(es, v)
      decreases |es|
    {
      var i := es[|es| - 1];
      if k == |es| - 1 {
        assert es[..k + 1] == es;
      } else {
        Shorter(es, v);
        Prefix(es[..|es| - 1], arcs[i].from, k);
        assert es[..|es| - 1][..k + 1] == es[..k + 1];
      }
    }

    /** Cutting a route short at the first visit of a repeated vertex only makes it earlier. */
    lemma {:induction false} Simplify(es: seq<nat>, v: nat) returns (es': seq<nat>)
      requires Valid() && Route(es, v)
      ensures Route(es', v) && Time(es', v) <= Time(es, v) && Distinct(es')
      decreases |es|
    {
      if es == [] {
        return [];
      }
      var i := es[|es| - 1];
      Shorter(es, v);
      var p := Simplify(es[..|es| - 1], arcs[i].from);
      if v == source {
        return [];
      }
      if k :| 0 <= k < |p| && arcs[p[k]].to == v {
        Prefix(p, arcs[i].from, k);
        return p[..k + 1];
      }
      Longer(p, arcs[i].from, i);
      return p + [i];
    }

    lemma {:induction false} Entered(es: seq<nat>) returns (s: set<nat>)
      requires Valid() && Distinct(es) && forall k | 0 <= k < |es| :: arcs[es[k]].open
      ensures |s| == |es|
      ensures forall x | x in s :: x < n && x != source && exists k :: 0 <= k < |es| && arcs[es[k]].to == x
    {
      if es == [] {
        return {};
      }
      var front := es[..|es| - 1];
      var p := Entered(front);
      s := p + {arcs[es[|es| - 1]].to};
      forall x | x in p
        ensures exists k :: 0 <= k < |es| - 1 && arcs[es[k]].to == x
      {
        var k :| 0 <= k < |front| && arcs[front[k]].to == x;
        assert arcs[es[k]].to == x;
      }
    }

    /** Such a route has fewer arcs than there are vertices. */
    lemma DistinctIsShort(es: seq<nat>, v: nat)
      requires Valid() && Route(es, v) && Distinct(es)
      ensures |es| < n
    {
      var s := Entered(es);
      BelowRange(n, s + {source});
    }

    // ----- rounds over all arcs

    /** The times are right for all routes of at most `k` arcs. */
    ghost predicate Within(times: seq<int>, k: nat)
      requires |times| == n
    {
      forall es, v: nat | v < n && Route(es, v) && |es| <= k :: times[v] <= Time(es, v)
    }

    /** Every arc has been tried since the times were `before`. */
    ghost predicate Swept(before: seq<int>, times: seq<int>)
      requires |before| == |times| == n
    {
      && (forall v | 0 <= v < n :: times[v] <= before[v])
      && forall i | 0 <= i < |arcs| && arcs[i].open &&
           arcs[i].from < n && arcs[i].to < n && before[arcs[i].from] <= arcs[i].ready ::
           times[arcs[i].to] <= arcs[i].done
    }

    lemma SweepExtends(before: seq<int>, times: seq<int>, k: nat)
      requires Valid() && |before| == |times| == n && Within(before, k) && Swept(before, times)
      ensures Within(times, k + 1)
    {
      forall es, v: nat | v < n && Route(es, v) && |es| <= k + 1
        ensures times[v] <= Time(es, v)
      {
        if |es| == k + 1 {
          Shorter(es, v);
          assert before[arcs[es[k]].from] <= Time(es[..k], arcs[es[k]].from);
        }
      }
    }

    /** As many rounds as vertices settle every route. */
    lemma RoundsAreEarliest(times: seq<int>)
      requires Valid() && Times(times) && Attained(times) && Within(times, n)
      ensures forall v: nat | v < n :: Earliest(v, times[v])
    {
      forall v: nat, es | v < n && Route(es, v)
        ensures times[v] <= Time(es, v)
      {
        var es' := Simplify(es, v);
        DistinctIsShort(es', v);
      }
    }
  }
}

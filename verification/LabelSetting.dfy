/** One-source search that settles vertices in time order and remembers the least arc that explains each time. */
module LabelSetting {
  import opened Wrappers
  import opened FiniteSets
  import opened TimedRoutes

  /** The arc that last set or tied a time, with the vertex it leaves. */
  type Link = Option<(nat, nat)>

  /** Arcs compare by the vertex they leave, then by index. */
  predicate Before(a: (nat, nat), b: (nat, nat))
  {
    a.0 < b.0 || (a.0 == b.0 && a.1 < b.1)
  }

  datatype Search = Search(times: seq<int>, links: seq<Link>)

  /** Arc `i` explains the time of the vertex it enters. */
  ghost predicate Tight(net: Net, times: seq<int>, i: nat)
    requires |times| == net.n
  {
    && i < |net.arcs|
    && var a := net.arcs[i];
       a.open && a.from < net.n && a.to < net.n && times[a.from] <= a.ready && a.done == times[a.to]
  }

  /** `link` is the first tight arc into `v` among `used`, if there is one. */
  ghost predicate LeastTight(net: Net, times: seq<int>, used: set<nat>, v: nat, link: Link)
    requires |times| == net.n
  {
    match link
    case None => forall i | i in used && Tight(net, times, i) :: net.arcs[i].to != v
    case Some((u, e)) =>
      && e in used && Tight(net, times, e) && net.arcs[e].to == v && net.arcs[e].from == u
      && forall i | i in used && Tight(net, times, i) && net.arcs[i].to == v :: !Before((net.arcs[i].from, i), (u, e))
  }

  /** After settling `settled`, none later than `top`, and trying the arcs `used`. */
  ghost predicate Progress(net: Net, s: Search, settled: set<nat>, used: set<nat>, top: int)
    requires net.Valid()
  {
    && net.Times(s.times) && s.times[net.source] == net.t0 && net.Attained(s.times) && |s.links| == net.n
    && Ordered(net, s.times, settled, top)
    && Tried(net, s.times, settled, used)
    && Explained(net, s, used)
  }

  ghost predicate Ordered(net: Net, times: seq<int>, settled: set<nat>, top: int)
    requires |times| == net.n
  {
    && (forall u | u in settled :: u < net.n && times[u] <= top && times[u] < net.inf)
    && (forall x: nat | x < net.n && x !in settled :: top <= times[x])
  }

  /** The arcs tried so far leave settled vertices and improve nothing any more. */
  ghost predicate Tried(net: Net, times: seq<int>, settled: set<nat>, used: set<nat>)
    requires net.Valid() && |times| == net.n
  {
    forall i | i in used ::
      && i < |net.arcs| && net.arcs[i].from in settled
      && (net.arcs[i].open && times[net.arcs[i].from] <= net.arcs[i].ready ==>
          times[net.arcs[i].to] <= net.arcs[i].done)
  }

  /** Each link is the first tight arc tried so far, and only the source may be finite without one. */
  ghost predicate Explained(net: Net, s: Search, used: set<nat>)
    requires |s.times| == |s.links| == net.n
  {
    && (forall v: nat | v < net.n :: LeastTight(net, s.times, used, v, s.links[v]))
    && (forall v: nat | v < net.n && v != net.source && s.times[v] < net.inf :: s.links[v].Some?)
  }

  function Start(net: Net): (s: Search)
    requires net.source < net.n
  {
    Search(seq(net.n, v => if v == net.source then net.t0 else net.inf), seq(net.n, _ => None))
  }

  lemma Started(net: Net)
    requires net.Valid()
    ensures Progress(net, Start(net), {}, {}, net.t0)
  {
    var s := Start(net);
    assert net.Route([], net.source) && net.Time([], net.source) == net.t0;
  }

  lemma Settle(net: Net, s: Search, settled: set<nat>, used: set<nat>, top: int, v: nat)
    requires net.Valid() && Progress(net, s, settled, used, top)
    requires v < net.n && v !in settled && s.times[v] < net.inf
    requires forall x: nat | x < net.n && x !in settled :: s.times[v] <= s.times[x]
    ensures Progress(net, s, settled + {v}, used, s.times[v])
  {
  }

  /** What trying arc `i` does: improve a time, or replace the link of a tied one. */
  function Relax(net: Net, s: Search, i: nat): (s': Search)
    requires |s.times| == |s.links| == net.n && i < |net.arcs|
    requires net.arcs[i].from < net.n && net.arcs[i].to < net.n
  {
    var a := net.arcs[i];
    if !a.open || a.ready < s.times[a.from] then s
    else if a.done < s.times[a.to]
         || (a.done == s.times[a.to] && (s.links[a.to].None? || Before((a.from, i), s.links[a.to].value))) then
      Search(s.times[a.to := a.done], s.links[a.to := Some((a.from, i))])
    else s
  }

  /** Trying an arc of the vertex settled last. */
  lemma Relaxed(net: Net, s: Search, settled: set<nat>, used: set<nat>, i: nat)
    requires net.Valid() && i < |net.arcs| && net.arcs[i].from in settled && net.arcs[i].to < net.n
    requires |s.times| == net.n && net.arcs[i].from < net.n
    requires Progress(net, s, settled, used, s.times[net.arcs[i].from])
    ensures Progress(net, Relax(net, s, i), settled, used + {i}, s.times[net.arcs[i].from])
    ensures Relax(net, s, i).times[net.arcs[i].from] == s.times[net.arcs[i].from]
  {
    hide Explained, LeastTight, Net.Attained;
    var a := net.arcs[i];
    if a.open && s.times[a.from] <= a.ready && a.done < s.times[a.to] {
      net.Attain(s.times, i);
      assert Explained(net, Relax(net, s, i), used + {i}) by { Improved(net, s, settled, used, i); }
    } else {
      assert Relax(net, s, i).times == s.times;
      assert Explained(net, Relax(net, s, i), used + {i}) by { Tied(net, s, used, i); }
    }
  }

  lemma Improved(net: Net, s: Search, settled: set<nat>, used: set<nat>, i: nat)
    requires net.Valid() && |s.times| == |s.links| == net.n && i < |net.arcs| && net.arcs[i].open
    requires Tried(net, s.times, settled, used) && Explained(net, s, used)
    requires s.times[net.arcs[i].from] <= net.arcs[i].ready && net.arcs[i].done < s.times[net.arcs[i].to]
    requires net.arcs[i].to !in settled && net.arcs[i].to != net.arcs[i].from
    ensures Explained(net, Relax(net, s, i), used + {i})
  {
    var s' := Relax(net, s, i);
    forall v: nat | v < net.n
      ensures LeastTight(net, s'.times, used + {i}, v, s'.links[v])
    {
      ImprovedAt(net, s, settled, used, i, v);
    }
  }

  /** Arcs that were tight into the improved vertex no longer are; all others stay as they were. */
  lemma ImprovedAt(net: Net, s: Search, settled: set<nat>, used: set<nat>, i: nat, v: nat)
    requires net.Valid() && |s.times| == |s.links| == net.n && i < |net.arcs| && net.arcs[i].open
    requires Tried(net, s.times, settled, used)
    requires v < net.n && LeastTight(net, s.times, used, v, s.links[v])
    requires s.times[net.arcs[i].from] <= net.arcs[i].ready && net.arcs[i].done < s.times[net.arcs[i].to]
    requires net.arcs[i].to !in settled && net.arcs[i].to != net.arcs[i].from
    ensures LeastTight(net, Relax(net, s, i).times, used + {i}, v, Relax(net, s, i).links[v])
  {
    var s' := Relax(net, s, i);
    forall j | j in used
      ensures Tight(net, s'.times, j) <==> Tight(net, s.times, j) && net.arcs[j].to != net.arcs[i].to
    {
    }
  }

  lemma Tied(net: Net, s: Search, used: set<nat>, i: nat)
    requires net.Valid() && |s.times| == |s.links| == net.n && i < |net.arcs|
    requires net.arcs[i].from < net.n && net.arcs[i].to < net.n
    requires Explained(net, s, used) && Relax(net, s, i).times == s.times
    requires net.arcs[i].open && s.times[net.arcs[i].from] <= net.arcs[i].ready ==>
              s.times[net.arcs[i].to] <= net.arcs[i].done
    ensures Explained(net, Relax(net, s, i), used + {i})
  {
    var s' := Relax(net, s, i);
    forall v: nat | v < net.n
      ensures LeastTight(net, s.times, used + {i}, v, s'.links[v])
    {
      assert LeastTight(net, s.times, used, v, s.links[v]);
    }
  }

  /** Every time is the earliest one. */
  ghost predicate Labelled(net: Net, times: seq<int>)
  {
    |times| == net.n && forall v: nat | v < net.n :: net.Earliest(v, times[v])
  }

  /** `link` is the first of all arcs that explain the time of `v` and leave a reached vertex. */
  ghost predicate FirstTight(net: Net, times: seq<int>, v: nat, link: Link)
    requires |times| == net.n
  {
    match link
    case None => forall i: nat | Tight(net, times, i) && net.arcs[i].to == v :: times[net.arcs[i].from] == net.inf
    case Some((u, e)) =>
      && Tight(net, times, e) && net.arcs[e].to == v && net.arcs[e].from == u && times[u] < net.inf
      && forall i: nat | Tight(net, times, i) && net.arcs[i].to == v && times[net.arcs[i].from] < net.inf ::
           !Before((net.arcs[i].from, i), (u, e))
  }

  /** What a finished search knows. */
  ghost predicate Solved(net: Net, s: Search)
  {
    && Labelled(net, s.times)
    && |s.links| == net.n
    && (forall v: nat | v < net.n :: FirstTight(net, s.times, v, s.links[v]))
    && (forall v: nat | v < net.n && v != net.source && s.times[v] < net.inf :: s.links[v].Some?)
  }

  lemma Finished(net: Net, s: Search, settled: set<nat>, used: set<nat>, top: int)
    requires net.Valid() && Progress(net, s, settled, used, top)
    requires forall v: nat | v < net.n && s.times[v] < net.inf :: v in settled
    requires forall i: nat | i < |net.arcs| && net.arcs[i].from in settled :: i in used
    ensures Solved(net, s)
  {
    net.ClosedIsEarliest(s.times);
    forall v: nat | v < net.n
      ensures FirstTight(net, s.times, v, s.links[v])
    {
      assert LeastTight(net, s.times, used, v, s.links[v]);
    }
  }

  /** The link of a finite vertex other than the source. */
  lemma LinkOf(net: Net, s: Search, v: nat) returns (u: nat, i: nat)
    requires Solved(net, s) && v < net.n && v != net.source && s.times[v] < net.inf
    ensures |s.times| == |s.links| == net.n && s.links[v] == Some((u, i))
    ensures u < net.n && s.times[u] < net.inf && i < |net.arcs|
    ensures net.arcs[i].open && net.arcs[i].from == u && net.arcs[i].to == v
    ensures s.times[u] <= net.arcs[i].ready && net.arcs[i].done == s.times[v]
  {
    u, i := s.links[v].value.0, s.links[v].value.1;
    assert FirstTight(net, s.times, v, s.links[v]);
  }

  /** The vertex `k` links back from `v`, stopping at the source. */
  ghost function Chain(net: Net, s: Search, v: nat, k: nat): (u: nat)
    requires Solved(net, s) && v < net.n && s.times[v] < net.inf
    ensures u < net.n && s.times[u] < net.inf
  {
    if k == 0 then v else
    var u := Chain(net, s, v, k - 1);
    if u == net.source then u else s.links[u].value.0
  }

  /** No open arc finishes the moment it becomes ready. */
  ghost predicate Lasting(net: Net)
  {
    forall i | 0 <= i < |net.arcs| && net.arcs[i].open :: net.arcs[i].ready < net.arcs[i].done
  }

  /**
   * A loop of arcs that take no time, away from the source, in which each arc is the first of all that explain the
   * vertex it enters. It is a matter of the arcs and the earliest times; no search is mentioned.
   */
  ghost predicate PreferredLoop(net: Net, times: seq<int>, es: seq<nat>)
    requires |times| == net.n
  {
    && es != []
    && (forall k | 0 <= k < |es| :: Preferred(net, times, es[k]))
    && (forall k | 0 <= k < |es| - 1 :: net.arcs[es[k]].to == net.arcs[es[k + 1]].from)
    && net.arcs[es[|es| - 1]].to == net.arcs[es[0]].from
  }

  ghost predicate Preferred(net: Net, times: seq<int>, i: nat)
    requires |times| == net.n
  {
    && i < |net.arcs|
    && var a := net.arcs[i];
       && a.to < net.n && a.to != net.source && times[a.to] < net.inf && a.ready == a.done
       && FirstTight(net, times, a.to, Some((a.from, i)))
  }

  lemma Sizes(net: Net, s: Search)
    requires Solved(net, s)
    ensures |s.times| == |s.links| == net.n
  {
  }

  /** As long as no vertex repeats, the links visit one more vertex with each step. */
  lemma {:induction false} ChainSpreads(net: Net, s: Search, v: nat, k: nat) returns (visited: set<nat>)
    requires Solved(net, s) && v < net.n && s.times[v] < net.inf
    requires forall i: nat, j: nat | i < j <= k :: Chain(net, s, v, i) != Chain(net, s, v, j)
    ensures |visited| == k + 1
    ensures forall u | u in visited :: u < net.n && Visited(net, s, v, k, u)
  {
    hide Solved;
    if k == 0 {
      visited := {Chain(net, s, v, k)};
    } else {
      visited := ChainSpreads(net, s, v, k - 1);
      visited := visited + {Chain(net, s, v, k)};
    }
  }

  ghost predicate Visited(net: Net, s: Search, v: nat, k: nat, u: nat)
    requires Solved(net, s) && v < net.n && s.times[v] < net.inf
  {
    exists i: nat :: i <= k && u == Chain(net, s, v, i)
  }

  lemma ChainRepeats(net: Net, s: Search, v: nat) returns (i: nat, j: nat)
    requires Solved(net, s) && v < net.n && s.times[v] < net.inf
    ensures i < j <= net.n && Chain(net, s, v, i) == Chain(net, s, v, j)
  {
    hide Solved;
    if forall i: nat, j: nat | i < j <= net.n :: Chain(net, s, v, i) != Chain(net, s, v, j) {
      var visited := ChainSpreads(net, s, v, net.n);
      BelowRange(net.n, visited);
    }
    i, j :| i < j <= net.n && Chain(net, s, v, i) == Chain(net, s, v, j);
  }

  /** The source stays reached. */
  lemma {:induction false} ChainStops(net: Net, s: Search, v: nat, i: nat, j: nat)
    requires Solved(net, s) && v < net.n && s.times[v] < net.inf && i <= j && Chain(net, s, v, i) == net.source
    ensures Chain(net, s, v, j) == net.source
    decreases j
  {
    hide Solved;
    if i < j { ChainStops(net, s, v, i, j - 1); }
  }

  /** Links never lead forward in time. */
  lemma {:induction false} ChainDescends(net: Net, s: Search, v: nat, i: nat, j: nat)
    requires net.Valid() && Solved(net, s) && v < net.n && s.times[v] < net.inf && i <= j
    ensures s.times[Chain(net, s, v, j)] <= s.times[Chain(net, s, v, i)]
    decreases j
  {
    hide Solved;
    if i < j {
      ChainDescends(net, s, v, i, j - 1);
      var u := Chain(net, s, v, j - 1);
      if u != net.source { var w, e := LinkOf(net, s, u); }
    }
  }

  /** The arc from step `m + 1` of the chain to step `m`. */
  ghost function ChainArc(net: Net, s: Search, v: nat, m: nat): (e: nat)
    requires Solved(net, s) && v < net.n && s.times[v] < net.inf && Chain(net, s, v, m) != net.source
  {
    s.links[Chain(net, s, v, m)].value.1
  }

  lemma ChainArcOf(net: Net, s: Search, v: nat, m: nat)
    requires Solved(net, s) && v < net.n && s.times[v] < net.inf && Chain(net, s, v, m) != net.source
    ensures ChainArc(net, s, v, m) < |net.arcs|
    ensures net.arcs[ChainArc(net, s, v, m)].from == Chain(net, s, v, m + 1)
    ensures net.arcs[ChainArc(net, s, v, m)].to == Chain(net, s, v, m) && net.arcs[ChainArc(net, s, v, m)].open
    ensures |s.times| == net.n && s.times[Chain(net, s, v, m + 1)] <= net.arcs[ChainArc(net, s, v, m)].ready
    ensures net.arcs[ChainArc(net, s, v, m)].done == s.times[Chain(net, s, v, m)]
  {
    hide Solved;
    var u, e := LinkOf(net, s, Chain(net, s, v, m));
  }

  /** Between two visits of a vertex no time passes. */
  lemma ChainArcIsPreferred(net: Net, s: Search, v: nat, i: nat, j: nat, m: nat)
    requires net.Valid() && Solved(net, s) && v < net.n && s.times[v] < net.inf && i <= m < j
    requires Chain(net, s, v, i) == Chain(net, s, v, j) && Chain(net, s, v, m) != net.source
    ensures Preferred(net, s.times, ChainArc(net, s, v, m))
  {
    ChainDescends(net, s, v, i, m);
    ChainDescends(net, s, v, m, m + 1);
    ChainDescends(net, s, v, m + 1, j);
    var u, e := LinkOf(net, s, Chain(net, s, v, m));
    assert FirstTight(net, s.times, Chain(net, s, v, m), s.links[Chain(net, s, v, m)]);
  }

  /** A chain that misses the source runs around a preferred loop. */
  lemma LostChainLoops(net: Net, s: Search, v: nat) returns (es: seq<nat>)
    requires net.Valid() && Solved(net, s) && v < net.n && s.times[v] < net.inf && Chain(net, s, v, net.n) != net.source
    ensures PreferredLoop(net, s.times, es)
  {
    hide Solved, Preferred, Net.Valid, Chain, ChainArc;
    var i, j := ChainRepeats(net, s, v);
    forall m: nat | m <= net.n ensures Chain(net, s, v, m) != net.source {
      if Chain(net, s, v, m) == net.source { ChainStops(net, s, v, m, net.n); }
    }
    es := LoopArcs(net, s, v, i, j);
  }

  /** The arcs between two visits of a vertex, first arc first. */
  lemma LoopArcs(net: Net, s: Search, v: nat, i: nat, j: nat) returns (es: seq<nat>)
    requires net.Valid() && Solved(net, s) && v < net.n && s.times[v] < net.inf && i < j
    requires Chain(net, s, v, i) == Chain(net, s, v, j)
    requires forall m: nat | i <= m < j :: Chain(net, s, v, m) != net.source
    ensures PreferredLoop(net, s.times, es)
  {
    hide Solved, Preferred, Net.Valid, Chain, ChainArc;
    Sizes(net, s);
    es := seq(j - i, k requires 0 <= k < j - i => ChainArc(net, s, v, j - 1 - k));
    forall k | 0 <= k < |es|
      ensures Preferred(net, s.times, es[k]) && es[k] < |net.arcs|
      ensures net.arcs[es[k]].to == Chain(net, s, v, j - 1 - k) && net.arcs[es[k]].from == Chain(net, s, v, j - k)
    {
      var m := j - 1 - k;
      assert es[k] == ChainArc(net, s, v, m);
      ChainArcIsPreferred(net, s, v, i, j, m);
      ChainArcOf(net, s, v, m);
    }
  }

  /** A chain that enters a preferred loop stays in it. */
  lemma {:induction false} LoopHolds(net: Net, s: Search, es: seq<nat>, v: nat, k: nat) returns (at: nat)
    requires Solved(net, s) && PreferredLoop(net, s.times, es) && v == net.arcs[es[0]].to
    ensures v < net.n && s.times[v] < net.inf && at < |es| && Chain(net, s, v, k) == net.arcs[es[at]].to != net.source
  {
    hide Solved, FirstTight;
    Sizes(net, s);
    assert Preferred(net, s.times, es[0]);
    if k == 0 {
      at := 0;
    } else {
      var now := LoopHolds(net, s, es, v, k - 1);
      at := LoopStep(net, s, es, now);
    }
  }

  /** The link of a vertex on a preferred loop is the arc of the loop. */
  lemma LoopStep(net: Net, s: Search, es: seq<nat>, now: nat) returns (at: nat)
    requires Solved(net, s) && PreferredLoop(net, s.times, es) && now < |es|
    ensures at < |es| && |s.links| == net.n && net.arcs[es[now]].to < net.n && net.arcs[es[at]].to != net.source
    ensures s.links[net.arcs[es[now]].to].Some? && s.links[net.arcs[es[now]].to].value.0 == net.arcs[es[at]].to
  {
    hide Labelled, Tight;
    Sizes(net, s);
    var u := net.arcs[es[now]].to;
    assert Preferred(net, s.times, es[now]);
    LinkIsUnique(net, s.times, u, s.links[u], Some((net.arcs[es[now]].from, es[now])));
    at := if now == 0 then |es| - 1 else now - 1;
    assert Preferred(net, s.times, es[at]);
  }

  /**
   * The links of all reached vertices lead to the source, within as many steps as there are vertices, exactly without a
   * preferred loop.
   */
  lemma LinksReachSourceIff(net: Net, s: Search)
    requires net.Valid() && Solved(net, s)
    ensures (forall v: nat | v < net.n && s.times[v] < net.inf :: Chain(net, s, v, net.n) == net.source)
       <==> !exists es :: PreferredLoop(net, s.times, es)
  {
    hide Solved, PreferredLoop, Net.Valid;
    Sizes(net, s);
    forall v: nat | v < net.n && s.times[v] < net.inf && Chain(net, s, v, net.n) != net.source
      ensures exists es :: PreferredLoop(net, s.times, es)
    {
      var es := LostChainLoops(net, s, v);
    }
    forall es | PreferredLoop(net, s.times, es)
      ensures exists v: nat :: v < net.n && s.times[v] < net.inf && Chain(net, s, v, net.n) != net.source
    {
      var v := LoopEntry(net, s, es);
    }
  }

  lemma LoopEntry(net: Net, s: Search, es: seq<nat>) returns (v: nat)
    requires Solved(net, s) && PreferredLoop(net, s.times, es)
    ensures v < net.n && s.times[v] < net.inf && Chain(net, s, v, net.n) != net.source
  {
    hide Solved;
    Sizes(net, s);
    assert Preferred(net, s.times, es[0]);
    v := net.arcs[es[0]].to;
    var at := LoopHolds(net, s, es, v, net.n);
  }

  // What a caller can see beforehand: only arcs, no labels.

  /** Open arcs, each starting where and no earlier than the one before it ended. */
  ghost predicate Linked(net: Net, es: seq<nat>)
  {
    && (forall k | 0 <= k < |es| :: es[k] < |net.arcs| && net.arcs[es[k]].open)
    && (forall k | 0 <= k < |es| - 1 ::
          net.arcs[es[k]].to == net.arcs[es[k + 1]].from && net.arcs[es[k]].done <= net.arcs[es[k + 1]].ready)
  }

  /** A round trip of arcs that take no time, away from the source. */
  ghost predicate InstantLoop(net: Net, es: seq<nat>)
  {
    && es != [] && Linked(net, es + [es[0]])
    && forall k | 0 <= k < |es| ::
         es[k] < |net.arcs| && net.arcs[es[k]].ready == net.arcs[es[k]].done && net.arcs[es[k]].to != net.source
  }

  /** An instant loop from which `v` can still be reached. */
  ghost predicate Lasso(net: Net, es: seq<nat>, path: seq<nat>, v: nat)
  {
    InstantLoop(net, es) && Linked(net, es + path) && net.arcs[(es + path)[|es + path| - 1]].to == v
  }

  /** The arcs of the first `j` links from `v`, first arc first. */
  lemma ChainWalk(net: Net, s: Search, v: nat, j: nat) returns (es: seq<nat>)
    requires Solved(net, s) && v < net.n && s.times[v] < net.inf
    requires forall m: nat | m < j :: Chain(net, s, v, m) != net.source
    ensures |es| == j && Linked(net, es) && forall k: nat | k < j :: es[k] == ChainArc(net, s, v, j - 1 - k)
  {
    hide Solved, Chain, ChainArc;
    es := seq(j, k requires 0 <= k < j => ChainArc(net, s, v, j - 1 - k));
    forall k: nat | k < j ensures es[k] < |net.arcs| && net.arcs[es[k]].open {
      ChainArcOf(net, s, v, j - 1 - k);
    }
    forall k: nat | k < j - 1
      ensures net.arcs[es[k]].to == net.arcs[es[k + 1]].from && net.arcs[es[k]].done <= net.arcs[es[k + 1]].ready
    {
      ChainArcOf(net, s, v, j - 1 - k);
      ChainArcOf(net, s, v, j - 2 - k);
    }
  }

  /** A chain that misses the source winds back along a lasso. */
  lemma LostChainIsLasso(net: Net, s: Search, v: nat) returns (es: seq<nat>, path: seq<nat>)
    requires net.Valid() && Solved(net, s) && v < net.n && s.times[v] < net.inf && Chain(net, s, v, net.n) != net.source
    ensures Lasso(net, es, path, v)
  {
    hide Solved, Net.Valid, Chain, ChainArc, Linked, InstantLoop;
    var i, j := ChainRepeats(net, s, v);
    forall m: nat | m <= net.n ensures Chain(net, s, v, m) != net.source {
      if Chain(net, s, v, m) == net.source { ChainStops(net, s, v, m, net.n); }
    }
    var all := ChainWalk(net, s, v, j);
    es, path := all[..j - i], all[j - i..];
    assert es + path == all;
    ChainRound(net, s, v, i, j, es);
    ChainArcOf(net, s, v, 0);
    ChainStart(net, s, v);
  }

  lemma ChainStart(net: Net, s: Search, v: nat)
    requires Solved(net, s) && v < net.n && s.times[v] < net.inf
    ensures Chain(net, s, v, 0) == v
  {
    hide Solved;
  }

  lemma ChainRound(net: Net, s: Search, v: nat, i: nat, j: nat, es: seq<nat>)
    requires net.Valid() && Solved(net, s) && v < net.n && s.times[v] < net.inf && i < j
    requires Chain(net, s, v, i) == Chain(net, s, v, j)
    requires forall m: nat | m < j :: Chain(net, s, v, m) != net.source
    requires |es| == j - i && forall k: nat | k < j - i :: es[k] == ChainArc(net, s, v, j - 1 - k)
    ensures InstantLoop(net, es)
  {
    hide Solved, Net.Valid, Chain, ChainArc, Preferred;
    Sizes(net, s);
    var round := es + [es[0]];
    forall k: nat | k < |es|
      ensures es[k] < |net.arcs| && net.arcs[es[k]].open && Preferred(net, s.times, es[k])
      ensures net.arcs[es[k]].from == Chain(net, s, v, j - k) && net.arcs[es[k]].to == Chain(net, s, v, j - 1 - k)
      ensures s.times[Chain(net, s, v, j - k)] <= net.arcs[es[k]].ready
      ensures net.arcs[es[k]].done == s.times[Chain(net, s, v, j - 1 - k)]
    {
      ChainArcOf(net, s, v, j - 1 - k);
      ChainArcIsPreferred(net, s, v, i, j, j - 1 - k);
    }
    forall k | 0 <= k < |round| - 1
      ensures net.arcs[round[k]].to == net.arcs[round[k + 1]].from
      ensures net.arcs[round[k]].done <= net.arcs[round[k + 1]].ready
    {
      if k + 1 < |es| {
        assert round[k + 1] == es[k + 1];
      } else {
        assert round[k + 1] == es[0];
      }
    }
    forall k | 0 <= k < |es| ensures net.arcs[es[k]].ready == net.arcs[es[k]].done && net.arcs[es[k]].to != net.source {
      PreferredIsInstant(net, s.times, es[k]);
    }
  }

  lemma PreferredIsInstant(net: Net, times: seq<int>, i: nat)
    requires |times| == net.n && Preferred(net, times, i)
    ensures net.arcs[i].ready == net.arcs[i].done && net.arcs[i].to != net.source
  {
  }

  /**
   * For one vertex: without a lasso that ends there its links lead to the source, within as many steps as there are
   * vertices.
   */
  lemma ChainReachesSource(net: Net, s: Search, v: nat)
    requires net.Valid() && Solved(net, s) && v < net.n && s.times[v] < net.inf
    requires !exists es, path :: Lasso(net, es, path, v)
    ensures Chain(net, s, v, net.n) == net.source
  {
    hide Solved, Net.Valid, Chain, Lasso;
    if Chain(net, s, v, net.n) != net.source {
      var es, path := LostChainIsLasso(net, s, v);
    }
  }

  /** With lasting arcs there is no lasso. */
  lemma LastingHasNoLasso(net: Net, es: seq<nat>, path: seq<nat>, v: nat)
    requires Lasting(net)
    ensures !Lasso(net, es, path, v)
  {
    LassoTakesNoTime(net, es, path, v);
  }

  lemma LassoTakesNoTime(net: Net, es: seq<nat>, path: seq<nat>, v: nat)
    ensures Lasso(net, es, path, v) ==> !Lasting(net)
  {
    if Lasso(net, es, path, v) { assert (es + [es[0]])[0] == es[0]; }
  }

  /** With lasting arcs the links lead to the source in at most as many steps as there are vertices. */
  lemma LastingChainReachesSource(net: Net, s: Search, v: nat)
    requires net.Valid() && Solved(net, s) && Lasting(net) && v < net.n && s.times[v] < net.inf
    ensures Chain(net, s, v, net.n) == net.source
  {
    hide Solved, Net.Valid, Chain, Lasso, Lasting;
    forall es, path ensures !Lasso(net, es, path, v) { LastingHasNoLasso(net, es, path, v); }
    ChainReachesSource(net, s, v);
  }

  /** Prepending the arc that explains `v` to a route that leaves `v` in time keeps it connected. */
  ghost predicate Tail(net: Net, s: Search, es: seq<nat>, v: nat, target: nat)
    requires |s.times| == net.n
  {
    && v < net.n && target < net.n
    && (forall k | 0 <= k < |es| :: es[k] < |net.arcs| && net.arcs[es[k]].open)
    && (forall k | 0 <= k < |es| - 1 ::
          net.arcs[es[k]].to == net.arcs[es[k + 1]].from && net.arcs[es[k]].done <= net.arcs[es[k + 1]].ready)
    && (if es == [] then v == target else
        && net.arcs[es[0]].from == v && s.times[v] <= net.arcs[es[0]].ready
        && net.arcs[es[|es| - 1]].to == target && net.arcs[es[|es| - 1]].done == s.times[target])
  }

  lemma ExtendTail(net: Net, s: Search, es: seq<nat>, v: nat, target: nat)
    requires Solved(net, s) && target < net.n && Tail(net, s, es, v, target)
    requires v != net.source && s.times[v] < net.inf
    ensures s.links[v].Some? && Tail(net, s, [s.links[v].value.1] + es, s.links[v].value.0, target)
  {
    hide Solved;
    var u, i := LinkOf(net, s, v);
    var es' := [i] + es;
    forall k | 0 <= k < |es'| - 1
      ensures net.arcs[es'[k]].to == net.arcs[es'[k + 1]].from && net.arcs[es'[k]].done <= net.arcs[es'[k + 1]].ready
    {
      if k > 0 {
        assert es'[k] == es[k - 1] && es'[k + 1] == es[k];
      }
    }
  }

  lemma TailIsRoute(net: Net, s: Search, es: seq<nat>, target: nat)
    requires net.Valid() && Solved(net, s) && target < net.n && Tail(net, s, es, net.source, target)
    ensures net.Route(es, target)
    ensures es != [] ==> net.Time(es, target) == s.times[target]
  {
  }

  /** Labels and links are a function of the problem alone. */
  lemma SolvedIsUnique(net: Net, s: Search, s': Search, v: nat)
    requires net.Valid() && Solved(net, s) && Solved(net, s') && v < net.n
    ensures s.times[v] == s'.times[v] && s.links[v] == s'.links[v]
  {
    LabelsAreUnique(net, s.times, s'.times);
    LinkIsUnique(net, s.times, v, s.links[v], s'.links[v]);
  }

  lemma SearchIsUnique(net: Net, s: Search, s': Search)
    requires net.Valid() && Solved(net, s) && Solved(net, s')
    ensures s == s'
  {
    hide Net.Valid;
    forall v: nat | v < net.n ensures s.times[v] == s'.times[v]
        && s.links[v] == s'.links[v] { SolvedIsUnique(net, s, s', v); }
  }

  lemma LabelsAreUnique(net: Net, times: seq<int>, times': seq<int>)
    requires net.Valid() && Labelled(net, times) && Labelled(net, times')
    ensures times == times'
  {
    hide Net.Route;
    forall v: nat | v < net.n ensures times[v] == times'[v] { net.EarliestIsUnique(v, times[v], times'[v]); }
  }

  lemma LinkIsUnique(net: Net, times: seq<int>, v: nat, link: Link, link': Link)
    requires |times| == net.n && FirstTight(net, times, v, link) && FirstTight(net, times, v, link')
    ensures link == link'
  {
  }

  /** Two vertices joined by arcs that take no time, and a source that reaches them. */
  const LOOP_NET: Net :=
    Net([Arc(0, 1, 5, 5, true), Arc(1, 0, 5, 5, true), Arc(2, 1, 0, 5, true)], 3, 2, 0, I64_MAX)
  const LOOP_SEARCH: Search := Search([5, 5, 0], [Some((1, 1)), Some((0, 0)), None])

  lemma LoopIsAttained()
    ensures LOOP_NET.Valid() && LOOP_NET.Attained(LOOP_SEARCH.times)
  {
    var net := LOOP_NET;
    LoopRoutes(net);
    forall v: nat | v < 3
      ensures exists es :: net.Route(es, v) && net.Time(es, v) == LOOP_SEARCH.times[v]
    {
      assert v == 0 || v == 1 || v == 2;
    }
  }

  lemma LoopRoutes(net: Net)
    requires net.Valid() && |net.arcs| == 3 && net.n == 3 && net.source == 2 && net.t0 == 0
    requires net.arcs[2] == Arc(2, 1, 0, 5, true) && net.arcs[1] == Arc(1, 0, 5, 5, true)
    ensures exists es :: net.Route(es, 2) && net.Time(es, 2) == 0
    ensures exists es :: net.Route(es, 1) && net.Time(es, 1) == 5
    ensures exists es :: net.Route(es, 0) && net.Time(es, 0) == 5
  {
    hide Net.Valid;
    assert net.Route([], 2) && net.Time([], 2) == 0;
    net.Longer([], 2, 2);
    net.Longer([] + [2], 1, 1);
    assert net.Route([] + [2], 1) && net.Route([] + [2] + [1], 0);
  }

  lemma LoopIsLabelled()
    ensures LOOP_NET.Valid() && Labelled(LOOP_NET, LOOP_SEARCH.times)
  {
    hide Net.Attained, Net.Earliest;
    LoopIsAttained();
    LOOP_NET.ClosedIsEarliest(LOOP_SEARCH.times);
  }

  lemma LoopIsSolved()
    ensures Solved(LOOP_NET, LOOP_SEARCH)
  {
    hide Labelled;
    LoopIsLabelled();
    var net, times := LOOP_NET, LOOP_SEARCH.times;
    assert Tight(net, times, 0) && Tight(net, times, 1) && Tight(net, times, 2);
    forall v: nat | v < 3 ensures FirstTight(net, times, v, LOOP_SEARCH.links[v]) {
      assert v == 0 || v == 1 || v == 2;
    }
  }

  lemma LoopIsPreferred(net: Net, s: Search)
    requires Solved(net, s) && |net.arcs| == 3 && net.n == 3 && net.source == 2 && |s.times| == 3 && |s.links| == 3
    requires net.arcs[0] == Arc(0, 1, 5, 5, true) && net.arcs[1] == Arc(1, 0, 5, 5, true)
    requires s.times[0] < net.inf && s.times[1] < net.inf && s.links[0] == Some((1, 1)) && s.links[1] == Some((0, 0))
    ensures PreferredLoop(net, s.times, [1, 0])
  {
    hide Labelled, Tight;
    assert FirstTight(net, s.times, 0, s.links[0]) && FirstTight(net, s.times, 1, s.links[1]);
    assert Preferred(net, s.times, 0) && Preferred(net, s.times, 1);
  }

  /** Arcs that take no time can link two vertices to each other, and then the links never lead to the source. */
  lemma InstantArcsCanLoop()
    ensures LOOP_NET.Valid() && Solved(LOOP_NET, LOOP_SEARCH) && LOOP_SEARCH.times[0] < LOOP_NET.inf
    ensures forall k: nat :: Chain(LOOP_NET, LOOP_SEARCH, 0, k) != LOOP_NET.source
  {
    hide Solved;
    LoopIsLabelled();
    LoopIsSolved();
    LoopIsPreferred(LOOP_NET, LOOP_SEARCH);
    forall k: nat ensures Chain(LOOP_NET, LOOP_SEARCH, 0, k) != LOOP_NET.source {
      var at := LoopHolds(LOOP_NET, LOOP_SEARCH, [1, 0], 0, k);
    }
  }
}

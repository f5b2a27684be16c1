/** Searches over edges that depart and arrive at given times. */
module Temporal {
  import opened Wrappers
  import opened Guard
  import opened Csr
  import opened KernelValues
  import opened FiniteSets
  import opened TimedRoutes

  datatype Window = Window(departure: string, arrival: string, start: I64, end: I64)

  datatype TemporalRequest = TemporalRequest(
    source: Option<nat>,
    target: Option<nat>,
    departureProperty: Option<string>,
    arrivalProperty: Option<string>,
    timeStart: Option<I64>,
    timeEnd: Option<I64>)

  datatype TemporalPath = TemporalPath(vertices: seq<nat>, edgeIds: seq<nat>, departureTime: I64, arrivalTime: I64)

  function RequestWindow(request: TemporalRequest): (r: Result<Window, AnalyticsError>)
    ensures r.Ok? ==> r.value.start <= r.value.end
    ensures r.Err? ==> r.error == InvalidRequest
  {
    match (request.departureProperty, request.arrivalProperty, request.timeStart, request.timeEnd)
    case (Some(departure), Some(arrival), Some(start), Some(end)) =>
      if start > end then Err(InvalidRequest) else Ok(Window(departure, arrival, start, end))
    case _ => Err(InvalidRequest)
  }

  function IndexFrom(ids: seq<nat>, id: nat, k: nat): (r: Option<nat>)
    requires k <= |ids|
    ensures r.Some? ==> k <= r.value < |ids| && ids[r.value] == id
    ensures r.None? ==> id !in ids[k..]
    decreases |ids| - k
  {
    if k == |ids| then None else if ids[k] == id then Some(k) else IndexFrom(ids, id, k + 1)
  }

  /** The position of the requested vertex. */
  function RequestVertex(csr: SnapshotCsr, id: Option<nat>): (r: Result<nat, AnalyticsError>)
    ensures r.Ok? ==> id.Some? && r.value < csr.VertexCount() && csr.vertexIds[r.value] == id.value
    ensures r.Err? ==> r.error == InvalidRequest && (id.None? || id.value !in csr.vertexIds)
  {
    match id
    case None => Err(InvalidRequest)
    case Some(id) =>
      match IndexFrom(csr.vertexIds, id, 0)
      case Some(v) => Ok(v)
      case None => Err(InvalidRequest)
  }

  function EdgeTimes(csr: SnapshotCsr, w: Window, e: nat): (r: Result<(I64, I64), AnalyticsError>)
  {
    match (csr.EdgeInteger(w.departure, e), csr.EdgeInteger(w.arrival, e))
    case (Some(departure), Some(arrival)) => Ok((departure, arrival))
    case _ => Err(MissingProperty)
  }

  /** Edge `e` may be travelled inside the window. */
  predicate Admissible(csr: SnapshotCsr, w: Window, e: nat)
  {
    var times := EdgeTimes(csr, w, e);
    times.Ok? && w.start <= times.value.0 <= times.value.1 <= w.end
  }

  ghost function ForwardArc(csr: SnapshotCsr, w: Window, e: nat): Arc
    requires csr.Valid() && e < csr.EdgeCount()
  {
    var times := EdgeTimes(csr, w, e);
    Arc(csr.Source(e), csr.neighbors[e],
        if times.Ok? then times.value.0 else 0, if times.Ok? then times.value.1 else 0, Admissible(csr, w, e))
  }

  /** Travelling forward: ready at the departure, done at the arrival. */
  ghost function ForwardNet(csr: SnapshotCsr, w: Window, source: nat): (net: Net)
    requires csr.Valid() && source < csr.VertexCount()
    ensures w.start <= w.end ==> net.Valid()
    ensures |net.arcs| == csr.EdgeCount() && forall e | 0 <= e < csr.EdgeCount() :: net.arcs[e] == ForwardArc(csr, w, e)
  {
    Net(seq(csr.EdgeCount(), e requires 0 <= e < csr.EdgeCount() => ForwardArc(csr, w, e)),
        csr.VertexCount(), source, w.start, I64_MAX)
  }

  ghost predicate TimesMissing(csr: SnapshotCsr, w: Window)
  {
    exists e: nat :: e < csr.EdgeCount() && EdgeTimes(csr, w, e).Err?
  }

  lemma MissingTimes(csr: SnapshotCsr, w: Window, e: nat)
    requires e < csr.EdgeCount()
    ensures EdgeTimes(csr, w, e).Err? ==> EdgeTimes(csr, w, e).error == MissingProperty && TimesMissing(csr, w)
  {
  }

  /** Every edge that may be travelled takes time. */
  ghost predicate EdgesLast(csr: SnapshotCsr, w: Window)
  {
    forall e: nat | e < csr.EdgeCount() && Admissible(csr, w, e) ::
        EdgeTimes(csr, w, e).value.0 < EdgeTimes(csr, w, e).value.1
  }

  /** A request that lacks a vertex or a window, or names an unknown vertex. */
  predicate Malformed(csr: SnapshotCsr, request: TemporalRequest)
  {
    || RequestVertex(csr, request.source).Err? || RequestVertex(csr, request.target).Err?
    || RequestWindow(request).Err?
  }

  ghost predicate TimesMissingFor(csr: SnapshotCsr, request: TemporalRequest)
  {
    RequestWindow(request).Ok? && TimesMissing(csr, RequestWindow(request).value)
  }

  /** A request on edges that all have their times, and all take time. */
  ghost predicate Answerable(csr: SnapshotCsr, request: TemporalRequest)
  {
    && !Malformed(csr, request) && !TimesMissingFor(csr, request)
    && EdgesLast(csr, RequestWindow(request).value)
  }

  /** What a search can cost: a round for each vertex, in which every vertex is looked at, and every edge tried once. */
  function SearchWork(csr: SnapshotCsr): nat
  {
    RoundWork(csr, csr.VertexCount()) + csr.EdgeCount()
  }

  function RoundWork(csr: SnapshotCsr, rounds: nat): nat
  {
    rounds * (csr.VertexCount() + 1)
  }

  lemma NoRounds(csr: SnapshotCsr)
    ensures RoundWork(csr, 0) == 0
  {
  }

  /** The limits leave room for a search and a walk along its links. */
  predicate Affordable(csr: SnapshotCsr, workItems: nat, maxWorkItems: nat, memoryBytes: nat, maxMemoryBytes: nat)
  {
    workItems + SearchWork(csr) + csr.VertexCount() <= maxWorkItems
        && memoryBytes + csr.VertexCount() * 24 <= maxMemoryBytes
  }

  /** Rounds so far, one more, and the edges tried stay within the cost of a search. */
  lemma RoundFits(csr: SnapshotCsr, rounds: nat, used: set<nat>)
    requires rounds < csr.VertexCount() && forall i | i in used :: i < csr.EdgeCount()
    ensures |used| <= csr.EdgeCount()
    ensures RoundWork(csr, rounds + 1) == RoundWork(csr, rounds) + csr.VertexCount() + 1
    ensures RoundWork(csr, rounds + 1) + csr.EdgeCount() <= SearchWork(csr)
  {
    var n := csr.VertexCount();
    BelowRange(csr.EdgeCount(), used);
    assert (rounds + 1) * (n + 1) <= n * (n + 1);
  }

  /** Edges that connect `source` to `target`, each leaving no earlier than the one before it arrived. */
  ghost predicate Journey(csr: SnapshotCsr, w: Window, es: seq<nat>, source: nat, target: nat)
    requires csr.Valid()
  {
    && (forall k | 0 <= k < |es| :: es[k] < csr.EdgeCount() && Admissible(csr, w, es[k]))
    && (forall k | 0 <= k < |es| - 1 ::
          csr.neighbors[es[k]] == csr.Source(es[k + 1])
          && EdgeTimes(csr, w, es[k]).value.1 <= EdgeTimes(csr, w, es[k + 1]).value.0)
    && (if es == [] then source == target else
        csr.Source(es[0]) == source && csr.neighbors[es[|es| - 1]] == target)
  }

  ghost function ArrivalOf(csr: SnapshotCsr, w: Window, es: seq<nat>, source: nat, target: nat): I64
    requires csr.Valid() && Journey(csr, w, es, source, target)
  {
    if es == [] then w.start else EdgeTimes(csr, w, es[|es| - 1]).value.1
  }

  ghost function DepartureOf(csr: SnapshotCsr, w: Window, es: seq<nat>, source: nat, target: nat): I64
    requires csr.Valid() && Journey(csr, w, es, source, target)
  {
    if es == [] then w.end else EdgeTimes(csr, w, es[0]).value.0
  }

  lemma JourneyIsRoute(csr: SnapshotCsr, w: Window, es: seq<nat>, source: nat, target: nat)
    requires csr.Valid() && source < csr.VertexCount()
    ensures Journey(csr, w, es, source, target) <==> ForwardNet(csr, w, source).Route(es, target)
    ensures Journey(csr, w, es, source, target) ==>
              ForwardNet(csr, w, source).Time(es, target) == ArrivalOf(csr, w, es, source, target)
  {
    var net := ForwardNet(csr, w, source);
    forall k | 0 <= k < |es| && es[k] < csr.EdgeCount()
      ensures net.arcs[es[k]] == ForwardArc(csr, w, es[k])
    {
    }
  }

  ghost predicate EarliestArrivalIs(csr: SnapshotCsr, w: Window, source: nat, target: nat, arrival: int)
    requires csr.Valid()
  {
    && (exists es :: Journey(csr, w, es, source, target) && ArrivalOf(csr, w, es, source, target) == arrival)
    && (forall es | Journey(csr, w, es, source, target) :: arrival <= ArrivalOf(csr, w, es, source, target))
  }

  /** A finite label is the least arrival of all journeys; the label "never" means none arrives before it. */
  lemma LabelIsArrival(csr: SnapshotCsr, w: Window, source: nat, target: nat, t: int)
    requires csr.Valid() && source < csr.VertexCount() && w.start <= w.end
    requires ForwardNet(csr, w, source).Earliest(target, t)
    ensures t < I64_MAX ==> EarliestArrivalIs(csr, w, source, target, t)
    ensures t == I64_MAX ==>
              forall es | Journey(csr, w, es, source, target) :: ArrivalOf(csr, w, es, source, target) == I64_MAX
  {
    var net := ForwardNet(csr, w, source);
    forall es: seq<nat>
      ensures Journey(csr, w, es, source, target) <==> net.Route(es, target)
      ensures Journey(csr, w, es, source, target) ==> net.Time(es, target) == ArrivalOf(csr, w, es, source, target)
    {
      JourneyIsRoute(csr, w, es, source, target);
    }
    if t < I64_MAX {
      var es :| net.Route(es, target) && net.Time(es, target) == t;
      assert Journey(csr, w, es, source, target);
    }
  }

  // ----- journeys, said of the stored cells

  /** The times of an edge are the integers stored under the two properties. */
  lemma TimesMean(csr: SnapshotCsr, w: Window, e: nat, departure: I64, arrival: I64)
    ensures EdgeTimes(csr, w, e) == Ok((departure, arrival))
       <==> CellIs(csr, w.departure, e, Integer(departure)) && CellIs(csr, w.arrival, e, Integer(arrival))
    ensures EdgeTimes(csr, w, e).Err? <==>
              || (forall i: I64 :: !CellIs(csr, w.departure, e, Integer(i)))
              || (forall i: I64 :: !CellIs(csr, w.arrival, e, Integer(i)))
  {
    var times := EdgeTimes(csr, w, e);
    if times.Ok? {
      assert CellIs(csr, w.departure, e, Integer(times.value.0)) && CellIs(csr, w.arrival, e, Integer(times.value.1));
    }
  }

  /** Consecutive edges from `source` to `target`. */
  ghost predicate Connects(csr: SnapshotCsr, es: seq<nat>, source: nat, target: nat)
    requires csr.Valid()
  {
    && (forall k | 0 <= k < |es| :: es[k] < csr.EdgeCount())
    && (forall k | 0 <= k < |es| - 1 :: csr.neighbors[es[k]] == csr.Source(es[k + 1]))
    && (if es == [] then source == target
        else csr.Source(es[0]) == source && csr.neighbors[es[|es| - 1]] == target)
  }

  /** Stored departures and arrivals, inside the window; no edge leaves before the one ahead of it has arrived. */
  ghost predicate Timetable(csr: SnapshotCsr, w: Window, es: seq<nat>, departures: seq<I64>, arrivals: seq<I64>)
  {
    && |departures| == |arrivals| == |es|
    && (forall k | 0 <= k < |es| :: CellIs(csr, w.departure, es[k], Integer(departures[k])))
    && (forall k | 0 <= k < |es| :: CellIs(csr, w.arrival, es[k], Integer(arrivals[k])))
    && (forall k | 0 <= k < |es| :: w.start <= departures[k] <= arrivals[k] <= w.end)
    && (forall k | 0 <= k < |es| - 1 :: arrivals[k] <= departures[k + 1])
  }

  /** A journey has a timetable, and departs and arrives as it says. */
  lemma JourneyHasTimetable(csr: SnapshotCsr, w: Window, es: seq<nat>, source: nat, target: nat)
    returns (departures: seq<I64>, arrivals: seq<I64>)
    requires csr.Valid() && Journey(csr, w, es, source, target)
    ensures Connects(csr, es, source, target) && Timetable(csr, w, es, departures, arrivals)
    ensures ArrivalOf(csr, w, es, source, target) == if es == [] then w.start else arrivals[|es| - 1]
    ensures DepartureOf(csr, w, es, source, target) == if es == [] then w.end else departures[0]
  {
    hide CellIs, EdgeTimes, SnapshotCsr.Transposed, Timetable;
    departures, arrivals := Stamps(csr, w, es);
  }

  lemma Stamps(csr: SnapshotCsr, w: Window, es: seq<nat>) returns (departures: seq<I64>, arrivals: seq<I64>)
    requires forall k | 0 <= k < |es| :: Admissible(csr, w, es[k])
    requires forall j, k | 0 <= j < |es| && 0 <= k < |es| && k == j + 1 ::
      && Admissible(csr, w, es[j]) && Admissible(csr, w, es[k])
      && EdgeTimes(csr, w, es[j]).value.1 <= EdgeTimes(csr, w, es[k]).value.0
    ensures Timetable(csr, w, es, departures, arrivals)
    ensures forall k | 0 <= k < |es| :: EdgeTimes(csr, w, es[k]) == Ok((departures[k], arrivals[k]))
  {
    hide CellIs, EdgeTimes;
    departures := seq(|es|, k requires 0 <= k < |es| => EdgeTimes(csr, w, es[k]).value.0);
    arrivals := seq(|es|, k requires 0 <= k < |es| => EdgeTimes(csr, w, es[k]).value.1);
    forall k | 0 <= k < |es|
      ensures CellIs(csr, w.departure, es[k], Integer(departures[k]))
      ensures CellIs(csr, w.arrival, es[k], Integer(arrivals[k]))
    {
      TimesMean(csr, w, es[k], departures[k], arrivals[k]);
    }
  }

  lemma TimetableIsJourney(csr: SnapshotCsr, w: Window, es: seq<nat>, source: nat, target: nat,
                           departures: seq<I64>, arrivals: seq<I64>)
    requires csr.Valid() && Connects(csr, es, source, target) && Timetable(csr, w, es, departures, arrivals)
    ensures Journey(csr, w, es, source, target)
    ensures ArrivalOf(csr, w, es, source, target) == if es == [] then w.start else arrivals[|es| - 1]
    ensures DepartureOf(csr, w, es, source, target) == if es == [] then w.end else departures[0]
  {
    hide CellIs, EdgeTimes, SnapshotCsr.Transposed;
    forall k | 0 <= k < |es| ensures EdgeTimes(csr, w, es[k]) == Ok((departures[k], arrivals[k])) {
      TimesMean(csr, w, es[k], departures[k], arrivals[k]);
    }
  }
}

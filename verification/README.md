# DTGProxy in Dafny

A model of the hard core of DTGProxy, a distributed temporal graph proxy, with proofs of what its components promise.

* **Graph analytics** (`Csr`, `KCore`, `TimedRoutes`, `LabelSetting`, `Temporal`, `EarliestArrival`, `LatestDeparture`, `TemporalReach`,
  `Reachability`, `Components`, `Trails`, `StoredWeights`, `ShortestPath`, `Traversal`). The loops over the snapshot CSR are methods with invariants. Each is proved
  against a definition that does not mention the loop: largest cohesive set, optimum over all walks, equivalence classes.
* **Snapshot assembly** (`Ascending`, `RowOffsets`, `Projection`, `Sums`, `ProjectionEstimate`, `Partitions`, `CsrAssembly`, `SnapshotAssembly`,
  `SnapshotFootprint`). The CSR built from shard parts is canonical: it depends only on the multiset of what was delivered, the reverse rows are its
  transpose, and the usage charged for it is its own footprint.
* **Merging with spill** (`QueryValues`, `ValueOrder`, `StableSort`, `Batch`, `RowBytes`, `SpillMerge`, `MergeMeaning`, `MergeOperators`, `ByteStrings`,
  `SpillCodec`, `SpillSizes`, `SpillFile`). The bounded-memory merge refines the simple one, the order of its rows is said without the comparison, its
  memory account balances, and what it spills is sized, written and read back exactly.
* **Job ledger** (`Jobs`, `KeyOrder`, `LedgerSteps`, `LedgerRuns`, `LedgerRetention`, `LedgerOutcomes`, `LedgerService`, `SpecCodec`, `LedgerCodec`, `LedgerDecoding`). Steps are functions on
  records; `AnalyticsLedger` performs them in place and remembers its run; the theorems are about all runs. Every reachable ledger survives its snapshot codec.
* **Backend migration** (`MigrationSteps`, `MigrationRuns`, `MigrationService`, `MigrationCleanup`, `MigrationHistory`, `MigrationProgress`). The same
  arrangement for the cutover protocol; what a migration holds and accepts is told from the requests that were accepted before.
* **Gateway and data processes** (`FragmentPlan`, `FragmentCodec`, `FragmentReads`, `Pipeline`, `ReplicaRoutes`). The fragment encoder of one process
  against the decoder of the other, the pipeline writer as a state machine of atomic steps, and the route index against a scan.

Conventions. Cancellation, deadlines, failing stores and failing inputs are choices the environment makes; a contract speaks about every choice.
`ExecutionGuard.reported` remembers the error a guard raised, so that an algorithm can say that its error came from the guard and from nowhere else.
Digests are functions passed in; only that they are functions matters. Text is its UTF-8 bytes. Integers carry the width of the source where it matters.

Where the code falls short of what one would expect, the model follows the code:

* Instantaneous edges can make the links of a temporal search loop; `EarliestArrival.ComputeOnLoop` is a snapshot on which no budget brings an answer.
  `LabelSetting.LinksReachSourceIff` says exactly when links loop, and `LabelSetting.ChainReachesSource` what a caller can check beforehand.
  With edges that take time they never do (`EarliestArrival.Compute`, `LatestDeparture.Compute`). The labels are right either way.
* A checkpoint whose new expiry overflows is refused after it has been stored (`LedgerRetention.OverflowLosesCheckpoint`); checkpoints stay in order
  exactly without such an overflow (`LedgerRetention.CheckpointKeepsIff`, `LedgerRetention.EarlyCheckpointsAreKept`).
* An edge lookup is sent under the number of a counting scan. No worker executes edge lookups, and every one that the planner builds is refused
  (`FragmentReads.PlannedEdgeIsRefused`); with identifiers of 2^80 and more it can pass for a count (`FragmentReads.EdgePointMisread`).
* Reverse receipts outlive a rollback, so a later grace period can clean up the source that the rollback retained
  (`MigrationCleanup.RetainedSourceCleanedUp`); it cannot exactly as long as no rollback was accepted (`MigrationCleanup.CleanupSparesServedIff`).

* A rollback to the pair that is just being activated is answered as a rollback although nothing is rolled back
  (`MigrationProgress.RollbackEchoesActivation`); all others come from grace (`MigrationHistory.RollbackAcceptedIff`).
* The spilling merge keeps every row it has given charged to the memory budget, so its whole output has to fit (`MergeOperators.Drain`).

`dafny verify dfyconfig.toml` checks the whole project.

## Model

| member | source | states |
|---|---|---|
| `Guard.ExecutionGuard.Checkpoint` | crates/execution/dtg-analytics/src/catalog.rs:319-325 | passes exactly while nothing has cancelled the run, and records the error it reports |
| `Guard.ExecutionGuard.Step` | crates/execution/dtg-analytics/src/catalog.rs:327-337 | counts one work item and fails exactly when cancelled or past the work limit; every algorithm blames its guard errors on it |
| `Guard.ExecutionGuard.Reserve` | crates/execution/dtg-analytics/src/catalog.rs:339-349 | adds to the memory in use and fails exactly when cancelled or past the memory limit |
| `Csr.OwnerFrom` | crates/execution/dtg-analytics/src/csr.rs:254-256 | every edge position lies in the row of some vertex, and this finds it |
| `Csr.SnapshotCsr.SourceOf` | crates/execution/dtg-analytics/src/csr.rs:254-256 | an edge in the outgoing range of a vertex has that vertex, and no other, as its source |
| `Csr.SnapshotCsr.PositionOf` | crates/execution/dtg-analytics/src/csr.rs:258-262 | in a valid snapshot every edge stands in the incoming range of its target, next to its source |
| `KCore.UndirectedAdjacency` | crates/execution/dtg-analytics/src/centrality.rs:237-256 | the adjacency links two vertices exactly if some edge joins them in either direction, loops dropped |
| `KCore.UndirectedIsSimple` | crates/execution/dtg-analytics/src/centrality.rs:237-256 | that adjacency is symmetric and loop-free |
| `KCore.InitialDegrees` | crates/execution/dtg-analytics/src/community.rs:15-19 | the degrees count the neighbours among all vertices |
| `KCore.SelectLeast` | crates/execution/dtg-analytics/src/community.rs:24-34 | selects the remaining vertex of least degree, lowest index first; none exactly when nothing remains |
| `KCore.RemoveVertex` | crates/execution/dtg-analytics/src/community.rs:37-43 | after a vertex is removed, the degrees again count exactly the remaining neighbours |
| `KCore.RemovalKeepsBound` | crates/execution/dtg-analytics/src/community.rs:21-44 | no cohesive set that has lost a member is more cohesive than the current core number: the first member lost had that many neighbours left |
| `KCore.RemovalKeepsWitness` | crates/execution/dtg-analytics/src/community.rs:21-44 | each removed vertex lies in a set as cohesive as its core number says |
| `KCore.PeelStep` | crates/execution/dtg-analytics/src/community.rs:21-44 | one round of peeling keeps both halves, with the running maximum as the new core number |
| `KCore.PeeledIsCoreNumber` | crates/execution/dtg-analytics/src/community.rs:21-44 | after the last round every number is the largest k for which the vertex lies in a set of minimum degree k |
| `KCore.CoreNumbers` | crates/execution/dtg-analytics/src/community.rs:7-51 | on every simple graph the peeling loop returns exactly the core numbers, or the guard error that stopped it |
| `KCore.KCoreOf` | crates/execution/dtg-analytics/src/community.rs:7-51 | for every snapshot each vertex identifier is mapped to the core number of its vertex in the undirected simple graph |
| `KCore.ByVertexId` | crates/execution/dtg-analytics/src/community.rs:45-50 | the result map has every vertex identifier once, with the number of its index |
| `Temporal.RequestWindow` | crates/execution/dtg-analytics/src/temporal.rs:277-292 | a request window never ends before it starts; anything else is an invalid request |
| `Temporal.RequestVertex` | crates/execution/dtg-analytics/src/temporal.rs:11-18 | a requested vertex is the index of its identifier; an absent or unknown one is an invalid request |
| `Temporal.TimesMean` | crates/execution/dtg-analytics/src/temporal.rs:294-307 | an edge has these times exactly if its departure and arrival cells hold these integers, and none exactly if one of them holds no integer |
| `Temporal.JourneyHasTimetable` | crates/execution/dtg-analytics/src/temporal.rs:42-61 | every time-respecting walk is a row of connected edges whose stored departures and arrivals lie in the window and never overlap; its arrival and departure are the last and first of them |
| `Temporal.TimetableIsJourney` | crates/execution/dtg-analytics/src/temporal.rs:42-61 | and every such row of stored times is a time-respecting walk |
| `Temporal.JourneyIsRoute` | crates/execution/dtg-analytics/src/temporal.rs:22-62 | the time-respecting walks of the snapshot are exactly the routes of the search network, with the same arrival |
| `Temporal.LabelIsArrival` | crates/execution/dtg-analytics/src/temporal.rs:63-72 | a finite label is the minimum arrival over all time-respecting walks; the sentinel means no walk arrives before it |
| `TimedRoutes.Net.ClosedIsEarliest` | crates/execution/dtg-analytics/src/temporal.rs:22-62 | labels that no edge improves and that some route attains are the earliest arrivals over all routes of any length |
| `TimedRoutes.Net.Simplify` | crates/execution/dtg-analytics/src/temporal.rs:160-190 | a route with a repeated vertex can be cut to one without, arriving no later |
| `TimedRoutes.Net.DistinctIsShort` | crates/execution/dtg-analytics/src/temporal.rs:160-190 | a route without repeated vertices has fewer edges than there are vertices |
| `TimedRoutes.Net.RoundsAreEarliest` | crates/execution/dtg-analytics/src/temporal.rs:160-190 | n rounds of sweeping suffice for the earliest arrivals over walks of any length |
| `LabelSetting.Settle` | crates/execution/dtg-analytics/src/temporal.rs:28-41 | settling a least unsettled label keeps the search invariant |
| `LabelSetting.Relaxed` | crates/execution/dtg-analytics/src/temporal.rs:42-61 | trying one edge of a settled vertex, ties included, keeps the search invariant |
| `LabelSetting.Finished` | crates/execution/dtg-analytics/src/temporal.rs:25-62 | when the loop ends every label is the earliest arrival and every link is the least tight edge under the tie rule |
| `LabelSetting.SolvedIsUnique` | crates/execution/dtg-analytics/src/temporal.rs:54-60 | the tie rule leaves exactly one answer for every vertex, label and link |
| `LabelSetting.LinksReachSourceIff` | crates/execution/dtg-analytics/src/temporal.rs:54-60 | the links of all reached vertices lead to the source within n steps exactly when there is no loop of instantaneous edges, away from the source, each first of all the edges that explain its end |
| `LabelSetting.ChainReachesSource` | crates/execution/dtg-analytics/src/temporal.rs:42-61 | for one target, on edges alone: unless a round trip of admissible instantaneous edges away from the source leads on to the target, its links reach the source within n steps |
| `LabelSetting.LastingChainReachesSource` | crates/execution/dtg-analytics/src/temporal.rs:309-346 | when every edge takes time, following links reaches the source within n steps; the method contracts below rest on it |
| `LabelSetting.InstantArcsCanLoop` | crates/execution/dtg-analytics/src/temporal.rs:54-60 | the network of a three-vertex snapshot with instantaneous edges, in which the links loop and never reach the source |
| `EarliestArrival.SelectNext` | crates/execution/dtg-analytics/src/temporal.rs:28-40 | selects an unsettled vertex of least finite label; none exactly when no finite label is unsettled |
| `EarliestArrival.RelaxOutgoing` | crates/execution/dtg-analytics/src/temporal.rs:42-61 | tries exactly the outgoing edges of the vertex and keeps the search invariant; fails only through the guard or a missing time |
| `EarliestArrival.SearchForward` | crates/execution/dtg-analytics/src/temporal.rs:19-62 | solves the forward problem, within n(n + 1) + m work items, and says why it stops otherwise |
| `EarliestArrival.BuildEarliestPath` | crates/execution/dtg-analytics/src/temporal.rs:309-346 | the returned path is a walk attaining the label; it takes as many steps as the links; it fails only by cancellation or a work limit below n more items when the links reach the source, and always when they avoid it |
| `EarliestArrival.Compute` | crates/execution/dtg-analytics/src/temporal.rs:6-72 | the arrival is the minimum over all time-respecting walks in the window, attained by the returned walk; none means no walk arrives before the sentinel; every error names its cause: the request, missing times, cancellation, a limit below the stated cost, or an instant loop ahead of the target; so with edges that take time and a sufficient budget there is always an answer |
| `EarliestArrival.ComputeOnLoop` | crates/execution/dtg-analytics/src/temporal.rs:6-72 | on one snapshot with instantaneous edges the target can be reached and yet no budget brings an answer |
| `EarliestArrival.SettleNext` | crates/execution/dtg-analytics/src/temporal.rs:26-61 | one round settles a least unsettled vertex and tries its edges, or ends when all others are unreached, within n + 1 work items and one for each new edge |
| `LatestDeparture.JourneyIsBackwardRoute` | crates/execution/dtg-analytics/src/temporal.rs:114-135 | walks of the snapshot are exactly the reversed routes of the backward network, with departure as negated time |
| `LatestDeparture.LabelIsDeparture` | crates/execution/dtg-analytics/src/temporal.rs:137-146 | a label above the sentinel is the maximum departure over all walks that leave no earlier than start and arrive by end |
| `LatestDeparture.SelectLatest` | crates/execution/dtg-analytics/src/temporal.rs:97-112 | selects an unsettled vertex of greatest label above the sentinel |
| `LatestDeparture.RelaxIncoming` | crates/execution/dtg-analytics/src/temporal.rs:114-135 | tries exactly the edges into the vertex, through the reverse rows, and keeps the search invariant |
| `LatestDeparture.SearchBackward` | crates/execution/dtg-analytics/src/temporal.rs:88-136 | solves the backward problem over the reverse rows, within n(n + 1) + m work items, and says why it stops otherwise |
| `LatestDeparture.BuildLatestPath` | crates/execution/dtg-analytics/src/temporal.rs:348-381 | the returned path is a walk attaining the label; it fails only by cancellation or a work limit below n more items when the links reach the target, and always when they avoid it |
| `LatestDeparture.Compute` | crates/execution/dtg-analytics/src/temporal.rs:74-146 | the departure is the maximum over all time-respecting walks in the window, attained by the returned walk; every error names its cause; so with edges that take time and a sufficient budget there is always an answer |
| `LatestDeparture.SettleNext` | crates/execution/dtg-analytics/src/temporal.rs:95-135 | one round settles a latest unsettled vertex and tries the edges into it, or ends when no other can depart, within n + 1 work items and one for each new edge |
| `TemporalReach.Sweep` | crates/execution/dtg-analytics/src/temporal.rs:164-189 | one in-place round covers every edge in order and reports whether anything changed |
| `TemporalReach.Arrivals` | crates/execution/dtg-analytics/src/temporal.rs:158-190 | at most n rounds with early exit give the earliest arrival of every vertex |
| `TemporalReach.LabelIsReachable` | crates/execution/dtg-analytics/src/temporal.rs:191-198 | a label other than the sentinel is the same as a walk arriving before it |
| `TemporalReach.Collect` | crates/execution/dtg-analytics/src/temporal.rs:191-198 | lists ascending exactly the vertices whose label is not the sentinel |
| `TemporalReach.Compute` | crates/execution/dtg-analytics/src/temporal.rs:148-199 | returns ascending exactly the vertices that some time-respecting walk reaches before the sentinel |
| `Components.ForwardRows` | crates/execution/dtg-analytics/src/csr.rs:254-256 | the outgoing ranges are the edges of the directed graph |
| `Components.ReverseRows` | crates/execution/dtg-analytics/src/csr.rs:258-262 | the incoming ranges are the edges of its transpose |
| `Components.Explore` | crates/execution/dtg-analytics/src/components.rs:73-109 | marks exactly the vertices reachable from the seed |
| `Reachability.ReachesBack` | crates/execution/dtg-analytics/src/components.rs:22-31 | reaching in the transpose is being reached |
| `Components.MutualIsEquivalence` | crates/execution/dtg-analytics/src/components.rs:17-33 | mutual reachability is an equivalence |
| `Components.StronglyConnected` | crates/execution/dtg-analytics/src/components.rs:6-35 | the components partition the vertices into nonempty classes, two vertices share one exactly if each reaches the other, vertices ascend within a component, and components come in order of their least vertex |
| `Components.NeighborsBothDirections` | crates/execution/dtg-analytics/src/components.rs:111-130 | the neighbours are exactly those joined by an edge in either direction |
| `Components.GrowComponent` | crates/execution/dtg-analytics/src/components.rs:53-68 | grows from an unvisited seed exactly the vertices connected to it, marking them visited |
| `Components.WeaklyConnected` | crates/execution/dtg-analytics/src/components.rs:37-71 | the components partition the vertices into nonempty classes, two vertices share one exactly if they are connected ignoring direction, each begins with its least vertex, and components come in that order |
| `StoredWeights.EdgeWeight` | crates/execution/dtg-analytics/src/shortest_path.rs:86-94 | an accepted weight is a non-negative number; anything else is a missing or invalid property |
| `StoredWeights.WeightMeans` | crates/execution/dtg-analytics/src/shortest_path.rs:86-94 | a cell holding a non-negative integer or a finite non-negative float weighs exactly that number, any other number is invalid, any other cell missing; without a property every edge weighs one |
| `StoredWeights.ShortestMeans` | crates/execution/dtg-analytics/src/shortest_path.rs:56-103 | a label is the least weight in the search network exactly if it is the least sum of stored cells over all walks from the source |
| `ShortestPath.SelectNearest` | crates/execution/dtg-analytics/src/shortest_path.rs:70-82 | selects an unsettled vertex of least distance; none exactly when no known distance is unsettled |
| `ShortestPath.RelaxOutgoing` | crates/execution/dtg-analytics/src/shortest_path.rs:84-100 | tries exactly the outgoing edges and keeps the search invariant; fails only through the guard or a bad weight |
| `ShortestPath.ShortestDistances` | crates/execution/dtg-analytics/src/shortest_path.rs:56-103 | every distance is the least sum of the stored cells over all walks from the source, and absent exactly if there is none; a cell that is no weight is the error it is |
| `Traversal.SearchEnd` | crates/execution/dtg-analytics/src/traversal.rs:15-35 | when the queue is empty the order lists, once each and by non-decreasing hops, exactly the vertices within the limit |
| `Traversal.BreadthFirst` | crates/execution/dtg-analytics/src/traversal.rs:7-36 | lists each vertex within max_depth hops once, in non-decreasing distance, and nothing else |
| `Traversal.HopsAreDistances` | crates/execution/dtg-analytics/src/traversal.rs:7-36 | the hop count is the shortest distance with unit weights |
| `RowOffsets.BuildOffsets` | crates/execution/dtg-analytics/src/csr.rs:129-142 | counting and summing gives offsets whose ranges are exactly the groups of equal owners |
| `RowOffsets.OffsetsAreUnique` | crates/execution/dtg-analytics/src/csr.rs:129-142 | offsets with the same ranges are the same |
| `Partitions.Validate` | crates/execution/dtg-analytics/src/csr.rs:432-492 | accepts exactly complete partition sets: right fences, one count per shard, every index once, every shard present; and returns them in order |
| `Partitions.Covered` | crates/execution/dtg-analytics/src/csr.rs:469-485 | the per-shard summary is full exactly if the partition set is complete |
| `CsrAssembly.AddAll` | crates/execution/dtg-analytics/src/csr.rs:82-93 | the map holds every item under its identifier, and fails exactly on a repeated one |
| `CsrAssembly.AscendIds` | crates/execution/dtg-analytics/src/csr.rs:96-100 | the vertex identifiers in ascending order, each once |
| `CsrAssembly.OrderEdges` | crates/execution/dtg-analytics/src/csr.rs:110-124 | all edges ascending by source, target and identifier; refused exactly if one has an unknown end |
| `CsrAssembly.BuildRows` | crates/execution/dtg-analytics/src/csr.rs:129-149 | offsets, neighbours and edge identifiers are the rows of the ordered edges |
| `CsrAssembly.BuildReverse` | crates/execution/dtg-analytics/src/csr.rs:494-537 | the reverse rows list the edges ascending by target, source and forward index |
| `CsrAssembly.ReverseIsTransposed` | crates/execution/dtg-analytics/src/csr.rs:494-537 | such reverse rows are the exact transpose, with the forward indices a permutation of all edges |
| `CsrAssembly.ReverseIsUnique` | crates/execution/dtg-analytics/src/csr.rs:494-537 | there is one such reverse for a forward CSR |
| `CsrAssembly.BuildColumns` | crates/execution/dtg-analytics/src/csr.rs:539-571 | builds each requested column value by value, and fails exactly on a missing required or wrongly typed property |
| `CsrAssembly.ColumnsAreUnique` | crates/execution/dtg-analytics/src/csr.rs:539-571 | columns are determined by the entities and the specification |
| `Projection.MatchesMeans` | crates/execution/dtg-analytics/src/projection.rs:159-173 | a column type takes null and exactly the values of its own kind |
| `ProjectionEstimate.EstimateValue` | crates/execution/dtg-analytics/src/csr.rs:362-397 | the size of a value, refused exactly if it overflows |
| `ProjectionEstimate.EstimateSelected` | crates/execution/dtg-analytics/src/csr.rs:339-360 | adds the selected columns of one vertex or edge, refused exactly on overflow |
| `ProjectionEstimate.EstimateProjection` | crates/execution/dtg-analytics/src/csr.rs:288-337 | the estimate of the whole delivery, refused exactly on overflow |
| `ProjectionEstimate.NoParts` | crates/execution/dtg-analytics/src/csr.rs:288-337 | the empty delivery costs 256 bytes |
| `ProjectionEstimate.Usage` | crates/execution/dtg-analytics/src/csr.rs:399-412 | memory first, the rest spilled; refused exactly if both budgets together are too small |
| `SnapshotAssembly.SharedSnapshot` | crates/execution/dtg-analytics/src/csr.rs:414-430 | all parts carry one snapshot, and there is at least one part |
| `SnapshotAssembly.Collect` | crates/execution/dtg-analytics/src/csr.rs:78-94 | collects all vertices and edges of all parts, and fails exactly if an identifier repeats |
| `SnapshotAssembly.BuildTables` | crates/execution/dtg-analytics/src/csr.rs:96-176 | succeeds exactly if the collected contents can be built, and then builds the canonical tables |
| `SnapshotAssembly.Assemble` | crates/execution/dtg-analytics/src/csr.rs:67-204 | succeeds exactly if the delivered contents are acceptable and fit the budget, and returns their canonical snapshot, provenance in order and usage; `SnapshotFootprint.UsageIsFootprint` says what the usage is |
| `SnapshotAssembly.CanonicalIsUnique` | crates/execution/dtg-analytics/src/csr.rs:67-204 | the same contents have one canonical CSR |
| `SnapshotAssembly.CanonicalIsValid` | crates/execution/dtg-analytics/src/csr.rs:254-262 | a canonical CSR is valid for every reader, and the outgoing range of a vertex holds exactly its edges |
| `SnapshotAssembly.EstimateIsUnordered` | crates/execution/dtg-analytics/src/csr.rs:288-337 | the byte estimate does not depend on any order |
| `SnapshotAssembly.OrderIsIrrelevant` | crates/execution/dtg-analytics/src/csr.rs:67-204 | two deliveries of the same parts, in any order of parts and of vertices and edges within them, are both accepted or both refused, use the budget alike, and become the same assembled snapshot |
| `SnapshotAssembly.ReorderKeepsContents` | crates/execution/dtg-analytics/src/csr.rs:67-204 | every permutation of the parts, and of the vertices and edges within each, keeps the contents |
| `SnapshotFootprint.ValueIsInside` | crates/execution/dtg-analytics/src/csr.rs:362-397 | the size of a value is the sum over everything inside it: one byte for a null, two for a boolean, nine for anything else, and the length of text, bytes and names |
| `SnapshotFootprint.UsageIsFootprint` | crates/execution/dtg-analytics/src/csr.rs:67-204 | memory and spill of an accepted delivery add up to the footprint counted on the tables of the returned CSR: its rows, the names and cells of its columns, its partitions; so that footprint fits the budget |
| `SnapshotFootprint.TextFits` | crates/execution/dtg-analytics/src/csr.rs:399-412 | all text and byte cells of the returned CSR together fit the memory and spill budgets |
| `SnapshotFootprint.EmptyPartAdds` | crates/execution/dtg-analytics/src/csr.rs:293-298 | one more part costs 64 bytes, wherever it is delivered |
| `SnapshotFootprint.VertexAdds` | crates/execution/dtg-analytics/src/csr.rs:299-308 | one more vertex, in any part and place, costs 128 bytes and its selected columns |
| `SnapshotFootprint.EdgeAdds` | crates/execution/dtg-analytics/src/csr.rs:309-335 | one more edge costs 192 bytes, 200 with reverse rows, and its selected columns |
| `SnapshotFootprint.VertexValueChanges` | crates/execution/dtg-analytics/src/csr.rs:339-360 | changing a vertex property changes the estimate by the change in size if a column selects it, and not at all otherwise |
| `SnapshotFootprint.EdgeValueChanges` | crates/execution/dtg-analytics/src/csr.rs:339-360 | so does changing an edge property |
| `SnapshotFootprint.LongerTextAdds` | crates/execution/dtg-analytics/src/csr.rs:371-376 | text or bytes longer by n in a selected column of a vertex or edge raise the estimate by n |
| `SnapshotFootprint.CellsAreTyped` | crates/execution/dtg-analytics/src/csr.rs:539-571 | every cell of an accepted snapshot is of its column's type, or null, or missing where the column is not required |
| `QueryValues.CmpReverse` | crates/execution/dtg-query/src/batch.rs:97-163 | comparing two nested values the other way round gives the reversed answer |
| `QueryValues.CmpFits` | crates/execution/dtg-query/src/batch.rs:97-163 | the order of nested values is transitive, also through equal ones |
| `ValueOrder.CmpMeans` | crates/execution/dtg-query/src/batch.rs:97-163 | what the comparison answers, said without it: by kind first, null before boolean, integer, float, bytes, text, list, map, vertex and relationship; numbers ascending, bytes and text by their first difference, lists by their first differing item, maps by their first differing entry, name before value |
| `QueryValues.RowsReverse` | crates/execution/dtg-query/src/spill.rs:316-328 | the merge order on rows is total: swapping the rows reverses the answer |
| `QueryValues.RowsFit` | crates/execution/dtg-query/src/spill.rs:316-328 | the merge order on rows is transitive |
| `ValueOrder.RowsMean` | crates/execution/dtg-query/src/spill.rs:316-328 | one row comes before another if its key column does, and with equal keys by the first column that differs |
| `StableSort.SortIsStable` | crates/execution/dtg-query/src/exchange.rs:87-95 | the reference sort is sorted and keeps equal rows in their order |
| `StableSort.SortIsPermutation` | crates/execution/dtg-query/src/exchange.rs:87-95 | the reference sort keeps every row |
| `MergeMeaning.SortArranges` | crates/execution/dtg-query/src/exchange.rs:87-95 | the reference sort takes every row once; whatever precedes comes first, and rows that are the same keep their order |
| `StableSort.StableSortIsUnique` | crates/execution/dtg-query/src/exchange.rs:87-95 | there is only one stable sort of a sequence, so the library sort computes the reference |
| `StableSort.SortedRuns` | crates/execution/dtg-query/src/spill.rs:224-243 | sorting batches into runs first does not change the sort of everything |
| `StableSort.MergeStep` | crates/execution/dtg-query/src/spill.rs:272-285 | the first least head of sorted runs is the first row of the stable sort of all of them, tie order included |
| `Batch.IntoRows` | crates/execution/dtg-query/src/batch.rs:311-325 | moves the columns out as the rows of the batch |
| `Batch.FromRows` | crates/execution/dtg-query/src/batch.rs:207-250 | builds a batch exactly if every row fits the schema, and the batch has those rows |
| `Batch.TypeMeans` | crates/execution/dtg-query/src/batch.rs:76-95 | a value fits the type of its own kind and the type of anything, null also what is nullable, a list also by its items |
| `RowBytes.ValueIsInside` | crates/execution/dtg-query/src/batch.rs:42-72 | the size of a value is the sum over everything inside it: text, bytes and names by their length, numbers by eight, vertices and relationships by a fixed size and the map of their properties |
| `RowBytes.KernelIsQuery` | crates/execution/dtg-query/src/batch.rs:55-71 | a stored property is reckoned as the query value it becomes |
| `RowBytes.BatchIsRows` | crates/execution/dtg-query/src/batch.rs:327-334 | a batch, reckoned by columns, takes up what its rows do |
| `SpillMerge.QueryContext.ChargeMemory` | crates/execution/dtg-query/src/budget.rs:177-185 | charges exactly if the total stays within the limit, and changes nothing otherwise |
| `SpillMerge.QueryContext.ReleaseMemory` | crates/execution/dtg-query/src/budget.rs:191-193 | releases down to zero at most |
| `SpillMerge.QueryContext.ChargeSpill` | crates/execution/dtg-query/src/budget.rs:205-213 | charges exactly if the total stays within the limit, and changes nothing otherwise |
| `SpillMerge.SpillStore.WriteRun` | crates/execution/dtg-query/src/spill.rs:26-30 | a written run gets a fresh handle and keeps its rows; other runs are untouched |
| `SpillMerge.SpillStore.ReadRow` | crates/execution/dtg-query/src/spill.rs:33-33 | what is read is what was written |
| `SpillMerge.SpillStore.RemoveRun` | crates/execution/dtg-query/src/spill.rs:34-34 | removes that run only |
| `SpillMerge.EnsureHead` | crates/execution/dtg-query/src/spill.rs:79-107 | loads the head of a spilled run without changing what the run still holds, and charges exactly the size of the row read |
| `SpillMerge.EnsureHeads` | crates/execution/dtg-query/src/spill.rs:269-271 | loads every head without changing what the runs still hold |
| `SpillMerge.SelectRun` | crates/execution/dtg-query/src/spill.rs:272-282 | selects the first run whose head is least; none exactly if all runs are empty |
| `SpillMerge.TakeHead` | crates/execution/dtg-query/src/spill.rs:121-149 | takes the head of one run, drops the file of a run read to its end, and leaves all other runs as they were; the row taken is no longer held |
| `SpillMerge.LoadBatch` | crates/execution/dtg-query/src/spill.rs:207-243 | a batch becomes a sorted run, in memory and charged for exactly, or spilled, without touching other runs |
| `SpillMerge.LoadInput` | crates/execution/dtg-query/src/spill.rs:207-244 | an input becomes one sorted run per batch, in order |
| `SpillMerge.LoadInputs` | crates/execution/dtg-query/src/spill.rs:200-248 | all inputs become runs in order, provided their schemas agree |
| `MergeOperators.TakeStep` | crates/execution/dtg-query/src/spill.rs:272-285 | taking the first least head takes the first row of the merge and keeps the rest of it |
| `MergeMeaning.MergeMeans` | crates/execution/dtg-query/src/spill.rs:255-305 | a merge gives the rows of all its inputs in ascending order, ties as they came, every row once; on request runs of the same row are given once |
| `MergeMeaning.MergedAscends` | crates/execution/dtg-query/src/spill.rs:255-305 | no row of a merge precedes the one given before it |
| `MergeMeaning.MergedKeysAscend` | crates/execution/dtg-query/src/spill.rs:255-305 | nor does its key |
| `MergeOperators.SpillMergeOperator.constructor` | crates/execution/dtg-query/src/spill.rs:173-198 | a new operator has the whole merge of its inputs before it, and holds nothing |
| `MergeOperators.SpillMergeOperator.Initialize` | crates/execution/dtg-query/src/spill.rs:200-248 | loading the inputs changes nothing about the rows to come |
| `MergeOperators.SpillMergeOperator.TakeLeast` | crates/execution/dtg-query/src/spill.rs:269-285 | takes the first row of the merge, or finds nothing left and nothing held |
| `MergeOperators.SpillMergeOperator.Keep` | crates/execution/dtg-query/src/spill.rs:290-296 | keeps a copy of the row in place of the one before, and charges for the difference |
| `MergeOperators.SpillMergeOperator.Advance` | crates/execution/dtg-query/src/spill.rs:269-297 | one round emits the next row to come, skips a repeat, or ends the merge; a row emitted stays charged, a repeat does not |
| `MergeOperators.SpillMergeOperator.NextBatch` | crates/execution/dtg-query/src/spill.rs:255-305 | the batch holds the next rows to come: full unless they run out, none exactly when none are left; building it never fails |
| `MergeOperators.Drain` | crates/execution/dtg-query/src/spill.rs:255-305 | for any inputs, threshold, batch size and mix of runs, the batches end to end are the rows the new operator had before it, which `MergeMeaning.MergeMeans` describes; all but the last are full; in the end the budget is charged for exactly the rows given and the copy kept for comparison |
| `MergeOperators.CollectRows` | crates/execution/dtg-query/src/operator.rs:859-874 | reads one input to its end, rows in order, and charges for exactly those rows |
| `MergeOperators.DeterministicMergeOperator.NextBatch` | crates/execution/dtg-query/src/exchange.rs:66-102 | one batch with that same merge of all rows, then none; every input row is charged for |
| `ByteStrings.BigEndianRoundTrip` | crates/execution/dtg-query/src/file_spill.rs:857-873 | a number that fits its width is read back from its big-endian bytes |
| `ByteStrings.SignedRoundTrip` | crates/execution/dtg-query/src/file_spill.rs:871-873 | two's complement is undone |
| `SpillCodec.ToKernelBack` | crates/execution/dtg-query/src/file_spill.rs:902-924 | converting a stored value to a query value and back is the identity |
| `SpillCodec.ValueBack` | crates/execution/dtg-query/src/file_spill.rs:756-786 | every sound value within depth 32 and the byte bound is decoded from its bytes, and nothing after them is touched |
| `SpillCodec.MapBack` | crates/execution/dtg-query/src/file_spill.rs:830-842 | the same for maps: the ordered entries come back, each key once |
| `SpillCodec.RowBack` | crates/execution/dtg-query/src/file_spill.rs:732-741 | decoding the bytes of a row gives the row |
| `SpillSizes.TrailingIsRefused` | crates/execution/dtg-query/src/file_spill.rs:732-741 | a payload with anything after its row is refused |
| `SpillSizes.SizeIsLength` | crates/execution/dtg-query/src/file_spill.rs:558-608 | the size function measures exactly the bytes that encoding writes, saturating, and fails exactly when encoding would for depth |
| `SpillFile.EncodeValue` | crates/execution/dtg-query/src/file_spill.rs:610-703 | appends exactly the bytes of the value, and fails exactly if it is too deep or does not fit |
| `SpillFile.EncodeMap` | crates/execution/dtg-query/src/file_spill.rs:718-730 | appends exactly the bytes of the entries, and fails exactly if one is too deep or they do not fit |
| `SpillFile.EncodeRow` | crates/execution/dtg-query/src/file_spill.rs:549-556 | the payload of a row, refused exactly if a value is too deep or the row too long |
| `SpillFile.ReservedWriteBytes` | crates/execution/dtg-query/src/file_spill.rs:221-253 | the reservation is the length of the file the rows will make, and is refused exactly if they cannot be stored |
| `SpillFile.PermutedRecords` | crates/execution/dtg-query/src/file_spill.rs:376-432 | the length of the file does not depend on the order of the rows |
| `SpillFile.ReservationIsExact` | crates/execution/dtg-query/src/file_spill.rs:221-253 | the sorted rows of a batch take exactly what was reserved for the batch, and can be stored exactly if it could |
| `SpillFile.WriteRun` | crates/execution/dtg-query/src/file_spill.rs:376-432 | the file has exactly the computed length, its header, and every payload and checksum where the metadata says; refused exactly if the rows do not fit |
| `SpillFile.ReadBack` | crates/execution/dtg-query/src/file_spill.rs:316-359 | every row of a written run is read back at its own place |
| `SpillFile.CheckedTells` | crates/execution/dtg-query/src/file_spill.rs:513-528 | what a checksum is taken over tells the namespace, the run, the row number, the size and the payload apart |
| `SpillFile.ReadOrCollision` | crates/execution/dtg-query/src/file_spill.rs:316-359 | where a file has the checksum of a row, an accepted read under any run, number and metadata finds that row's payload and says which row it is, or the hash has collided |
| `SpillFile.ForeignIsRefused` | crates/execution/dtg-query/src/file_spill.rs:489-511 | no row is read from the file of another run |
| `LedgerSteps.FindHighest` | crates/execution/dtg-analytics/src/ledger.rs:250-256 | the checkpoint of the highest generation, if any |
| `LedgerService.AnalyticsLedger.SubmitJob` | crates/execution/dtg-analytics/src/ledger.rs:165-192 | does exactly the submit step, as the next of the run behind the object |
| `LedgerService.AnalyticsLedger.ClaimJob` | crates/execution/dtg-analytics/src/ledger.rs:202-239 | does exactly the claim step, as the next of the run behind the object |
| `LedgerService.AnalyticsLedger.ActiveRecord` | crates/execution/dtg-analytics/src/ledger.rs:719-752 | gives the record exactly if epoch, worker and revision are current and the lease has not expired, and the exact error otherwise |
| `LedgerService.AnalyticsLedger.BeginJob` | crates/execution/dtg-analytics/src/ledger.rs:241-273 | does exactly the begin step, as the next of the run behind the object, from the highest checkpoint |
| `LedgerService.AnalyticsLedger.RenewLease` | crates/execution/dtg-analytics/src/ledger.rs:275-302 | does exactly the renew step, as the next of the run behind the object |
| `LedgerService.AnalyticsLedger.StoreCheckpoint` | crates/execution/dtg-analytics/src/ledger.rs:304-345 | does exactly the checkpoint step, as the next of the run behind the object, also when the new expiry overflows |
| `LedgerService.AnalyticsLedger.PublishResult` | crates/execution/dtg-analytics/src/ledger.rs:347-377 | does exactly the publish step, as the next of the run behind the object |
| `LedgerService.AnalyticsLedger.FailJob` | crates/execution/dtg-analytics/src/ledger.rs:379-403 | does exactly the fail step, as the next of the run behind the object; `LedgerOutcomes.FailureDecides` says what becomes of the job |
| `LedgerService.AnalyticsLedger.CancelJob` | crates/execution/dtg-analytics/src/ledger.rs:405-429 | does exactly the cancel step, as the next of the run behind the object |
| `LedgerService.AnalyticsLedger.ExpireLeases` | crates/execution/dtg-analytics/src/ledger.rs:439-478 | expires exactly the first jobs in key order that budget and cancellation allow, and counts the records it changed |
| `LedgerService.AnalyticsLedger.PinArtifact` | crates/execution/dtg-analytics/src/ledger.rs:480-503 | does exactly the pin step, as the next of the run behind the object |
| `LedgerService.AnalyticsLedger.UnpinArtifact` | crates/execution/dtg-analytics/src/ledger.rs:505-536 | does exactly the unpin step, as the next of the run behind the object |
| `LedgerService.AnalyticsLedger.NextGcCandidate` | crates/execution/dtg-analytics/src/ledger.rs:570-617 | a candidate is an unpinned artifact of a finished job past its retention, with the token of its record, and no such artifact comes before it in key order |
| `LedgerService.AnalyticsLedger.AcknowledgeReclaimed` | crates/execution/dtg-analytics/src/ledger.rs:619-637 | does exactly the reclaim step, as the next of the run behind the object |
| `LedgerService.AnalyticsLedger.GarbageCollect` | crates/execution/dtg-analytics/src/ledger.rs:546-568 | extends the run by successful reclaim steps, each of an artifact collectable at that moment, and returns their manifests |
| `LedgerService.AnalyticsLedger.TombstoneJob` | crates/execution/dtg-analytics/src/ledger.rs:639-668 | does exactly the tombstone step, as the next of the run behind the object |
| `LedgerRuns.RevisionsGrow` | crates/execution/dtg-analytics/src/ledger.rs:202-668 | in every run revisions and epochs never fall, equal revisions mean equal records, and finished jobs stay finished |
| `LedgerRuns.SuccessMoves` | crates/execution/dtg-analytics/src/ledger.rs:202-668 | every successful operation on a job raises its revision by one |
| `LedgerRuns.LeaseAuthorisesOnce` | crates/execution/dtg-analytics/src/ledger.rs:719-752 | among operations under leases of one job and revision at most one succeeds, in any interleaving |
| `LedgerRuns.CasAuthorisesOnce` | crates/execution/dtg-analytics/src/ledger.rs:755-766 | a compare-and-set token authorises at most one successful operation on its job |
| `LedgerRuns.SupersededNeverSucceeds` | crates/execution/dtg-analytics/src/ledger.rs:719-752 | once the epoch of a job has passed a lease, that lease never succeeds again |
| `LedgerRuns.LosingSupersedes` | crates/execution/dtg-analytics/src/ledger.rs:379-429 | losing a lease by failing or cancelling raises the epoch |
| `LedgerRuns.ExpirySupersedes` | crates/execution/dtg-analytics/src/ledger.rs:452-478 | losing a lease by expiry raises the epoch |
| `LedgerRuns.AttemptsAreClaims` | crates/execution/dtg-analytics/src/ledger.rs:202-239 | in every run attempts equal the successful claims and stay within the limit |
| `LedgerRuns.PublishedOnce` | crates/execution/dtg-analytics/src/ledger.rs:347-377 | a job publishes its result at most once |
| `LedgerRuns.RunsAreSound` | crates/execution/dtg-analytics/src/ledger.rs:202-668 | in every reachable state pins are artifacts, generations lie below the next one, manifests belong to their job, and lease epochs match |
| `LedgerRuns.CountersBounded` | crates/execution/dtg-analytics/src/ledger.rs:202-668 | counters grow by at most one per operation, so runs shorter than 2^64 do not overflow them |
| `LedgerRetention.CheckpointKeepsIff` | crates/execution/dtg-analytics/src/ledger.rs:304-345 | a checkpoint that passes its checks leaves the latest checkpoint pinned and current exactly if the new expiry fits |
| `LedgerRetention.CheckpointsAreKept` | crates/execution/dtg-analytics/src/ledger.rs:241-345 | in every run without an overflowing checkpoint, unfinished jobs keep their latest checkpoint pinned and running jobs run from it |
| `LedgerRetention.EarlyCheckpointsAreKept` | crates/execution/dtg-analytics/src/ledger.rs:304-345 | so they do in every run whose checkpoints come early enough for the new expiry to fit 64 bits |
| `LedgerRetention.OverflowSpoils` | crates/execution/dtg-analytics/src/ledger.rs:331-331 | an overflowing checkpoint always spoils the record it was meant for |
| `LedgerRetention.OverflowLosesCheckpoint` | crates/execution/dtg-analytics/src/ledger.rs:331-331 | a concrete run in which the refused checkpoint leaves its artifact behind, unknown to the running state |
| `LedgerRetention.ReclaimKeepsHighest` | crates/execution/dtg-analytics/src/ledger.rs:619-637 | reclaiming spares what is pinned, so the latest checkpoint stays the latest |
| `LedgerRetention.ResultIsKept` | crates/execution/dtg-analytics/src/ledger.rs:347-637 | from publication on, the result stays pinned and unchanged until an unpin at or after the retention time |
| `LedgerOutcomes.RecordedAsSubmitted` | crates/execution/dtg-analytics/src/ledger.rs:165-192 | in every run a job is on record exactly once it was submitted, with the specification and time of its first submission |
| `LedgerOutcomes.SubmittedAgain` | crates/execution/dtg-analytics/src/ledger.rs:165-192 | submitting a job again changes nothing, and is refused exactly if the specification digest is another |
| `LedgerOutcomes.EndedForGood` | crates/execution/dtg-analytics/src/ledger.rs:202-429 | a job that has ended stays ended and is never claimed, worked on or cancelled again |
| `LedgerOutcomes.FailureDecides` | crates/execution/dtg-analytics/src/ledger.rs:379-403 | in every run a failure that is not retryable, or comes when the claims have reached the submitted limit, leaves the job failed with that code, ended in every later state and never claimed again; any other leaves it queued, and the next claim with its token is accepted |
| `LedgerOutcomes.ExpiryDecides` | crates/execution/dtg-analytics/src/ledger.rs:439-478 | a lease that an expiry pass reaches and finds run out goes the same two ways, under the expiry code; every other job is left as it was; the pass reaches exactly the jobs with few enough smaller numbers |
| `LedgerOutcomes.WaitingIsClaimable` | crates/execution/dtg-analytics/src/ledger.rs:202-239 | in every run a queued job can be claimed with its current token |
| `LedgerOutcomes.CancellationEnds` | crates/execution/dtg-analytics/src/ledger.rs:405-429 | a cancelled job has ended and is never claimed again |
| `LedgerOutcomes.CancellationAccepted` | crates/execution/dtg-analytics/src/ledger.rs:405-429 | with the current token a job can be cancelled exactly until it has ended |
| `LedgerOutcomes.GrantSays` | crates/execution/dtg-analytics/src/ledger.rs:202-345 | a granted lease names the job, worker, epoch, revision and expiry that the record then has; the expiry is the full duration from now, except that starting keeps it |
| `LedgerOutcomes.HeldAsGranted` | crates/execution/dtg-analytics/src/ledger.rs:202-345 | in every run a leased job is held under the last lease granted for it |
| `LedgerOutcomes.OnlyHolderSucceeds` | crates/execution/dtg-analytics/src/ledger.rs:719-752 | a lease operation succeeds only for the worker and epoch of the last lease granted, and before that lease runs out |
| `LedgerOutcomes.LeaseIsHonoured` | crates/execution/dtg-analytics/src/ledger.rs:241-403 | while the record has not moved on, the granted lease renews and fails exactly until it runs out, starts exactly a claimed job, and stores exactly what describes the next artifact of the running job |
| `LedgerOutcomes.ClaimedAgain` | crates/execution/dtg-analytics/src/ledger.rs:202-478 | between two successful claims of a job its holder failed it or its lease had run out, and the second claim has a later epoch |
| `LedgerOutcomes.RetentionAllows` | crates/execution/dtg-analytics/src/ledger.rs:480-668 | with the current token: unpinning needs an ended job past its retention and a pin, burying also no pin left, pinning an artifact of a job not buried; and that is enough |
| `LedgerOutcomes.ReleasedBeforeBurial` | crates/execution/dtg-analytics/src/ledger.rs:639-668 | a job with a result is buried only after the result was released, past its retention |
| `LedgerOutcomes.BuriedForGood` | crates/execution/dtg-analytics/src/ledger.rs:639-668 | a buried job stays buried, and only unpinning and reclaiming succeed on it |
| `LedgerOutcomes.StoredUntilReclaimed` | crates/execution/dtg-analytics/src/ledger.rs:304-637 | a stored artifact keeps its content until it is reclaimed, unpinned |
| `LedgerOutcomes.ReclaimedForGood` | crates/execution/dtg-analytics/src/ledger.rs:619-637 | what is reclaimed is gone, and no later artifact takes its key |
| `LedgerOutcomes.ReclaimAllowed` | crates/execution/dtg-analytics/src/ledger.rs:619-637 | with the current token an artifact is reclaimed exactly if it is stored as described and not pinned |
| `LedgerOutcomes.OnlyLatestPinned` | crates/execution/dtg-analytics/src/ledger.rs:304-377 | unless somebody pins more or a checkpoint overflows, only the latest checkpoint is pinned, and none once there is a result |
| `SpecCodec.RequestBack` | crates/execution/dtg-analytics/src/ledger.rs:1006-1069 | a request is decoded from its bytes |
| `SpecCodec.SnapshotBack` | crates/execution/dtg-analytics/src/ledger.rs:1071-1109 | a snapshot provenance is decoded from its bytes, shards in key order |
| `SpecCodec.ProjectionBack` | crates/execution/dtg-analytics/src/ledger.rs:1111-1153 | a projection is decoded from its bytes |
| `SpecCodec.SpecBack` | crates/execution/dtg-analytics/src/ledger.rs:848-902 | a constructed specification is rebuilt from its bytes with the identifier, digest and versions it had |
| `LedgerCodec.StateBack` | crates/execution/dtg-analytics/src/ledger.rs:904-968 | a state is decoded from its bytes |
| `LedgerCodec.ManifestBack` | crates/execution/dtg-analytics/src/ledger.rs:970-1004 | a manifest is decoded from its bytes |
| `LedgerCodec.ArtifactsBack` | crates/execution/dtg-analytics/src/ledger.rs:789-827 | artifacts and pins are decoded from their bytes, and the pin checks pass |
| `LedgerCodec.RecordBack` | crates/execution/dtg-analytics/src/ledger.rs:781-846 | a fitting record passes every decoder check and comes back |
| `LedgerCodec.SnapshotRoundTrip` | crates/execution/dtg-analytics/src/ledger.rs:670-717 | decoding the snapshot of a fitting ledger gives the ledger |
| `LedgerCodec.ReachableRoundTrip` | crates/execution/dtg-analytics/src/ledger.rs:670-717 | every ledger that operations can reach, with fewer than 2^32 jobs and artifacts, survives encoding and decoding unchanged |
| `LedgerDecoding.DecodedIsInOrder` | crates/execution/dtg-analytics/src/ledger.rs:670-846 | whatever bytes the decoder accepts, the ledger it makes is in order, with constructed specifications, attempts within the limit, matching epochs, real artifacts and pins on artifacts, and survives encoding and decoding |
| `LedgerDecoding.ChangeIsRefused` | crates/execution/dtg-analytics/src/ledger.rs:696-699 | two accepted snapshots with the same hash are the same, or the hash has collided |
| `LedgerDecoding.NewSpecIff` | crates/execution/dtg-analytics/src/job.rs:91-112 | a specification is made exactly if its numbers are given and the projection has the reverse rows and the required edge columns that its algorithm reads |
| `MigrationRuns.NewIsFresh` | crates/execution/dtg-control/src/migration.rs:405-510 | a migration is created exactly towards the next generation and another class, with distinct voters; it allocates, accepts the source pair and has no receipts |
| `MigrationService.MigrationRecord.ClaimTargetNamespace` | crates/execution/dtg-control/src/migration.rs:569-608 | does exactly the claim step, as the next of the run behind the object |
| `MigrationService.MigrationRecord.StartBackfill` | crates/execution/dtg-control/src/migration.rs:610-632 | does exactly the backfill step, as the next of the run behind the object |
| `MigrationService.MigrationRecord.StartMirroring` | crates/execution/dtg-control/src/migration.rs:634-652 | does exactly the mirroring step, as the next of the run behind the object |
| `MigrationService.MigrationRecord.FileReceipt` | crates/execution/dtg-control/src/migration.rs:882-907 | files the first receipt of a kind from a replica, and refuses foreign and conflicting ones |
| `MigrationService.MigrationRecord.AcceptReceipt` | crates/execution/dtg-control/src/migration.rs:654-666 | does exactly the receipt step, as the next of the run behind the object |
| `MigrationService.MigrationRecord.VoterProof` | crates/execution/dtg-control/src/migration.rs:920-940 | the proof the voters agree on, or the first reason in voter order why there is none |
| `MigrationService.MigrationRecord.PrepareCutover` | crates/execution/dtg-control/src/migration.rs:668-693 | does exactly the prepare step, as the next of the run behind the object |
| `MigrationService.MigrationRecord.CommitActivation` | crates/execution/dtg-control/src/migration.rs:695-720 | does exactly the activation step, as the next of the run behind the object |
| `MigrationService.MigrationRecord.AnnounceActivation` | crates/execution/dtg-control/src/migration.rs:722-754 | does exactly the publication step, as the next of the run behind the object |
| `MigrationService.MigrationRecord.AcceptReverseReceipt` | crates/execution/dtg-control/src/migration.rs:756-777 | does exactly the reverse receipt step, as the next of the run behind the object |
| `MigrationService.MigrationRecord.AbandonMigration` | crates/execution/dtg-control/src/migration.rs:779-801 | does exactly the abort step, as the next of the run behind the object |
| `MigrationService.MigrationRecord.RollBackTo` | crates/execution/dtg-control/src/migration.rs:803-831 | does exactly the rollback step, as the next of the run behind the object |
| `MigrationService.MigrationRecord.CleanUpReplica` | crates/execution/dtg-control/src/migration.rs:833-880 | does exactly the cleanup step, as the next of the run behind the object; `MigrationHistory.CleanupAcceptedIff` says when it is accepted |
| `MigrationRuns.ProofIsUnanimous` | crates/execution/dtg-control/src/migration.rs:920-940 | the proof is found exactly if every voter gave a receipt and all say the same |
| `MigrationRuns.RunsKeepInvariant` | crates/execution/dtg-control/src/migration.rs:569-880 | every run, rollbacks included, keeps the protocol invariant |
| `MigrationRuns.RunsAdvance` | crates/execution/dtg-control/src/migration.rs:569-880 | receipts and owners are never lost or changed, and the active pair only moves up |
| `MigrationRuns.EpochFollowsGeneration` | crates/execution/dtg-control/src/migration.rs:695-831 | in every run the active epoch and generation have moved by the same amount |
| `MigrationRuns.PairsNeverReturn` | crates/execution/dtg-control/src/migration.rs:565-567 | a pair that has stopped being accepted is never accepted again |
| `MigrationRuns.CutoverIsProven` | crates/execution/dtg-control/src/migration.rs:668-720 | past the cutover every voter has mirrored forward, with one digest and one index no earlier than the snapshot |
| `MigrationRuns.TargetNeedsCutover` | crates/execution/dtg-control/src/migration.rs:695-720 | another generation than the source is accepted only past the cutover |
| `MigrationRuns.CompletionIsProven` | crates/execution/dtg-control/src/migration.rs:833-880 | a completed migration has unanimous reverse receipts and, from every voter, a cleanup receipt with the owner it claimed |
| `MigrationCleanup.RollbacksDecide` | crates/execution/dtg-control/src/migration.rs:695-831 | in every run past the cutover the target serves exactly if no rollback has been accepted, and a later generation otherwise |
| `MigrationCleanup.CleanupIgnoresGeneration` | crates/execution/dtg-control/src/migration.rs:833-880 | whether a cleanup is accepted does not depend on which generation serves |
| `MigrationCleanup.CleanupSparesServedIff` | crates/execution/dtg-control/src/migration.rs:833-880 | a cleanup of the source is ordered while the target serves exactly if no rollback was accepted before it |
| `MigrationCleanup.ProofOutlivesRollback` | crates/execution/dtg-control/src/migration.rs:756-880 | from every grace period with complete reverse receipts, rollback and publication are accepted and then the cleanup of the source they retained |
| `MigrationCleanup.RetainedSourceCleanedUp` | crates/execution/dtg-control/src/migration.rs:569-880 | for every migration with one voter, a run from its creation that rolls back and then orders the cleanup of the namespace it rolled back to |
| `MigrationRuns.EndsAreFinal` | crates/execution/dtg-control/src/migration.rs:779-880 | completion and abortion are final, and an aborted migration leaves the source in charge |
| `MigrationRuns.RetryIsHarmless` | crates/execution/dtg-control/src/migration.rs:569-880 | repeating an accepted request gives the same answer and changes nothing more |
| `MigrationHistory.OwnersAreClaimed` | crates/execution/dtg-control/src/migration.rs:569-608 | in every run the owners of a replica are those of an accepted claim, and there is never a second pair |
| `MigrationHistory.ReceiptsAreGiven` | crates/execution/dtg-control/src/migration.rs:654-777 | the receipts on file are exactly the ones that were handed in and accepted |
| `MigrationHistory.ReportsAreProof` | crates/execution/dtg-control/src/migration.rs:920-940 | the proof of a kind is found exactly when every voter has reported it |
| `MigrationHistory.RunsAreChecked` | crates/execution/dtg-control/src/migration.rs:896-907 | every receipt on file is about this migration and from one of its voters |
| `MigrationHistory.CleanupAcceptedIff` | crates/execution/dtg-control/src/migration.rs:833-880 | in every run a cleanup is accepted exactly when its pins are released, its replica claimed the source for this owner, the migration is in grace or complete, and every voter reported the same reverse mirror |
| `MigrationHistory.CompletedIff` | crates/execution/dtg-control/src/migration.rs:866-871 | a migration is complete exactly when the cleanup of every voter was accepted |
| `MigrationHistory.CompletedHasCleanups` | crates/execution/dtg-control/src/migration.rs:833-880 | each voter of a complete migration has an accepted cleanup request with pins released, for the owner it had claimed, after every voter had reported the reverse mirror |
| `MigrationHistory.ClaimAcceptedIff` | crates/execution/dtg-control/src/migration.rs:569-608 | a claim is accepted exactly while allocating, from a voter, with real owners, and unless another owner was observed or claimed |
| `MigrationHistory.PrepareAcceptedIff` | crates/execution/dtg-control/src/migration.rs:668-693 | preparing is accepted exactly once prepared, or when every voter has reported the same forward mirror while mirroring |
| `MigrationHistory.AbortAcceptedIff` | crates/execution/dtg-control/src/migration.rs:779-801 | a migration can be aborted, under its own catalog version, exactly until the cutover |
| `MigrationHistory.RollbackAcceptedIff` | crates/execution/dtg-control/src/migration.rs:803-831 | a rollback is accepted exactly from grace to the next pair, or as an echo of the activation under way |
| `MigrationHistory.ReceiptAcceptedIff` | crates/execution/dtg-control/src/migration.rs:654-777 | a forward receipt is accepted exactly while mirroring and from the snapshot on, a reverse one exactly in grace, both only about this migration, from a voter, and unless an accepted one contradicts it |
| `MigrationHistory.PairFollowsRequests` | crates/execution/dtg-control/src/migration.rs:695-831 | the pair that is served changes only with an accepted activation or rollback, and then to the pair it names |
| `MigrationProgress.OrdersSay` | crates/execution/dtg-control/src/migration.rs:569-880 | in every run an accepted request orders the right action: of the right generation, for the replica, index and epoch that the requests named, and for the owner that was claimed |
| `MigrationProgress.RollbackEchoesActivation` | crates/execution/dtg-control/src/migration.rs:803-831 | every new migration has a run without rollbacks after whose activation a rollback to the pair being activated is answered as one and changes nothing |
| `MigrationProgress.CarriedThrough` | crates/execution/dtg-control/src/migration.rs:569-880 | every new migration that can advance its epoch can be carried through: some run, each request of it accepted, completes it |
| `FragmentPlan.CountsVerticesIff` | crates/execution/dtg-execution/src/gateway.rs:3504-3561 | a plan is sent out as a count exactly if its root is a plain count over one source, under the one column of the answer, and every fragment does nothing but scan the vertices of that source |
| `FragmentCodec.TypeBack` | crates/execution/dtg-execution/src/data.rs:2481-2490 | the bytes of a type are skipped exactly if it nests no deeper than 32; a deeper one is refused |
| `FragmentCodec.SchemaBack` | crates/execution/dtg-execution/src/data.rs:2468-2479 | the bytes of a schema are skipped exactly if its types keep to the bound, and refused otherwise |
| `FragmentCodec.ValueBack` | crates/execution/dtg-execution/src/data.rs:2648-2681 | the bytes of a value are skipped exactly if it nests no deeper than 64; a deeper one is refused |
| `FragmentCodec.ExprBack` | crates/execution/dtg-execution/src/data.rs:2604-2646 | the bytes of an expression are skipped exactly if it nests no deeper than 64; a deeper one is refused |
| `FragmentReads.PhysicalBack` | crates/execution/dtg-execution/src/data.rs:2587-2602 | the same for a physical expression |
| `FragmentReads.ProjectionsBack` | crates/execution/dtg-execution/src/data.rs:2578-2585 | the same for projections, one level deeper |
| `FragmentReads.KindBack` | crates/execution/dtg-execution/src/data.rs:2507-2576 | the same for an operator of any kind |
| `FragmentReads.ScopeBack` | crates/execution/dtg-execution/src/data.rs:2292-2332 | a read scope is accepted exactly if its literal times are those of the fence |
| `FragmentReads.LogicalBack` | crates/execution/dtg-execution/src/gateway.rs:3458-3494 | a logical read is decoded to itself exactly if the worker can execute it at the fence, and refused otherwise; so are edge lookups by identifiers of at most ten bytes |
| `FragmentReads.PushdownBack` | crates/execution/dtg-execution/src/gateway.rs:3417-3437 | a pushed-down read is decoded to itself exactly if it is executable |
| `FragmentReads.AccessBack` | crates/execution/dtg-execution/src/gateway.rs:3395-3448 | the same for a whole storage access, capabilities, guarantees and residual skipped |
| `FragmentReads.FragmentRoundTrip` | crates/execution/dtg-execution/src/data.rs:2054-2214 | the worker decodes exactly the read of the one access if it is executable and plan and access keep to the nesting bounds, refuses otherwise, and consumes every byte; edge lookups by identifiers below 2^80 are among those refused |
| `FragmentReads.OneAccessOnly` | crates/execution/dtg-execution/src/data.rs:2064-2068 | a fragment with any other number of accesses is refused |
| `FragmentReads.ShortEdgeIsRefused` | crates/execution/dtg-execution/src/gateway.rs:3468-3472 | an edge lookup by an identifier below 2^80 is refused, whatever follows it: its bytes pass for an empty scope and a row bound of zero |
| `FragmentReads.PlannedEdgeIsRefused` | crates/execution/dtg-plan/src/logical.rs:237-242 | every edge lookup that the planner builds, from an integer literal and for one row, is refused by every worker, in every plan |
| `FragmentReads.EdgeLookupIsCountOrRefused` | crates/execution/dtg-execution/src/data.rs:2054-2214 | an edge lookup by any identifier, in any plan, is refused or answered with a count of vertices |
| `FragmentReads.EdgePointMisread` | crates/execution/dtg-execution/src/gateway.rs:3468-3472 | the bound is needed: a lookup by an identifier of eleven bytes, for one row, that a worker decodes as a count |
| `Pipeline.StepConserves` | crates/execution/dtg-execution/src/gateway.rs:1751-1787 | every step keeps the credit balance |
| `Pipeline.StepExamines` | crates/execution/dtg-execution/src/gateway.rs:1608-1652 | every step keeps submissions examined in order, each once |
| `Pipeline.StepFramesSound` | crates/execution/dtg-execution/src/gateway.rs:756-795 | every step keeps batch and frames within 32 requests and 65,536 bytes |
| `Pipeline.StepKeepsWakeup` | crates/execution/dtg-execution/src/gateway.rs:1751-1787 | every step keeps a parked writer from missing its notification |
| `Pipeline.RunsKeepInvariant` | crates/execution/dtg-execution/src/gateway.rs:1599-1787 | every interleaving of writer, reader, callers and failures keeps all of these |
| `Pipeline.CreditsBalance` | crates/execution/dtg-execution/src/gateway.rs:1751-1831 | credits received are available or reserved, and requests sent never exceed those reserved |
| `Pipeline.FramesAreFifo` | crates/execution/dtg-execution/src/gateway.rs:1599-1749 | the frames end to end are a prefix of the pending, admissible submissions in order; each keeps both limits |
| `Pipeline.ParkedWriterIsSafe` | crates/execution/dtg-execution/src/gateway.rs:1774-1786 | a parked writer can go on; or else, if there are credits the reader can notify it now, and if the connection has failed the failing task can |
| `Pipeline.OneFrameAfterClosing` | crates/execution/dtg-execution/src/gateway.rs:1751-1787 | after a failure has closed the pipeline at most one more frame is sent, and none if the writer had yet to check |
| `Pipeline.CheckedSendsNoMore` | crates/execution/dtg-execution/src/gateway.rs:1758-1760 | a writer that checks after the pipeline was closed stops and sends no further frame |
| `Pipeline.PendingIsRegistered` | crates/execution/dtg-execution/src/gateway.rs:1723-1733 | a request is pending exactly from its registration until it is forgotten or refused as too large |
| `Pipeline.CreditsAreUsed` | crates/execution/dtg-execution/src/gateway.rs:1751-1772 | with credits at hand and nobody interfering the writer sends the front of its batch, one request for each credit |
| `ReplicaRoutes.FindMatches` | crates/execution/dtg-execution/src/data.rs:2004-2015 | the exact routes under a wildcard, up to two |
| `ReplicaRoutes.RefreshWildcard` | crates/execution/dtg-execution/src/data.rs:2004-2015 | the wildcard entry exists exactly if one replica matches, leads to it, and no other entry changes |
| `ReplicaRoutes.InsertRoute` | crates/execution/dtg-execution/src/data.rs:2017-2026 | adding a replica keeps the index exact |
| `ReplicaRoutes.RemoveRoute` | crates/execution/dtg-execution/src/data.rs:1987-2001 | removing a replica keeps the index exact |
| `ReplicaRoutes.DataRoutes.constructor` | crates/execution/dtg-execution/src/data.rs:2733-2745 | the index built from the initial replicas is exact |
| `ReplicaRoutes.DataRoutes.AddReplica` | crates/execution/dtg-execution/src/data.rs:476-510 | registers a new key unless the host refuses, changes nothing otherwise, and keeps the index exact |
| `ReplicaRoutes.DataRoutes.RemoveReplica` | crates/execution/dtg-execution/src/data.rs:532-556 | removes a known replica unless the host refuses, changes nothing otherwise, and keeps the index exact |
| `ReplicaRoutes.ScanReplicas` | crates/execution/dtg-execution/src/data.rs:642-675 | the scan answers with the single match, or says that there is none or more than one |
| `ReplicaRoutes.DataRoutes.Locate` | crates/execution/dtg-execution/src/data.rs:604-675 | lookup through the index gives the answer of the scan for unique, absent and ambiguous routes |
| `ReplicaRoutes.IndexAgreesWithScan` | crates/execution/dtg-execution/src/data.rs:604-675 | a route is in the index exactly if the scan finds one replica, and leads to it |

## Left out

- PageRank, betweenness, closeness, label propagation, Louvain and change points: their results rest on floating-point rounding or are easier than what is here.
- Depth-first search, temporal motifs and triangle counts: easier members of the families above.
- ShortestPath.ShortestDistances: weights are real numbers decoded by a function parameter; floating-point rounding is not modelled.
- SnapshotAssembly.Assemble: cancellation during assembly, the content digest and the stored column types are not modelled.
- ProjectionEstimate.EstimateSelected: the name of a selected column is counted as one byte for each character.
- Guard.ExecutionGuard.Checkpoint: cancellation is read from a field that the environment sets between calls.
- SpillMerge.SpillStore.ReadRow: the store is modelled by what it keeps; that a spill file does keep it is `SpillFile.ReadBack`.
- SpillMerge.LoadInput: an input operator is its schema and the batches it will give, of that schema; it may fail between batches.
- MergeOperators.SpillMergeOperator.NextBatch: the state after an error is not described; the query is over then.
- SpillCodec.RowBack: the decoder's shrinking slice is modelled by functions that return the rest, and its error texts by refusal.
- LedgerCodec.ReachableRoundTrip: encoder buffer and decoder position are modelled by functions on byte strings, and the error codes of the decoder by refusal.
- LedgerRuns.RevisionsGrow: revision, epoch and generation counters are unbounded; `LedgerRuns.CountersBounded` says when that is exact.
- LedgerService.AnalyticsLedger.NextGcCandidate: how much budget suffices to find a candidate is not stated.
- MigrationRuns.NewIsFresh: backend classes are their digests.
- FragmentReads.EdgeLookupIsCountOrRefused: which lookups by identifiers of 2^80 and more are misread is not characterised; no such identifier is ever built.
- ReplicaRoutes.DataRoutes.AddReplica: the fence of a replica is that of its registration; the host has no way to stage a cutover that would change it.
- FragmentReads.FragmentRoundTrip: the encoder's buffer and the cursor's offset are modelled by functions on byte strings; error texts by refusal.
- Pipeline.FramesAreFifo: request sizes are given; metrics, timestamps, cancel frames and response delivery are only seen through the pending set.
- Liveness of the job scheduler and of garbage collection: both look at a bounded prefix of the jobs.
- Transport, sessions, RPC errors, raft, the planner, the control catalog and the read caches of the data process.
- File-system work around spill files: namespaces, renaming and reclaiming orphans.

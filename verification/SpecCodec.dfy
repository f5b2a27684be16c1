/** Job specifications: how they are made, and their encoding in a ledger snapshot. */
module SpecCodec {
  import opened Wrappers
  import opened ByteStrings
  import opened Jobs
  import opened KeyOrder

  // ----- primitive fields

  function PutText(s: Bytes8, tail: Bytes8): (b: Bytes8)
  {
    PutU32(AsU32(|s|), s + tail)
  }

  function TakeText(b: Bytes8): (p: Option<Parsed<Bytes8>>)
  {
    var n :- TakeU32(b);
    var t :- Take(n.rest, n.value);
    if ValidUtf8(t.value) then Some(t) else None
  }

  ghost predicate TextSound(s: Bytes8)
  {
    |s| <= U32_MAX && ValidUtf8(s)
  }

  lemma TextBack(s: Bytes8, tail: Bytes8)
    requires TextSound(s)
    ensures TakeText(PutText(s, tail)) == Some(Parsed(s, tail))
  {
    U32Back(|s|, s + tail);
    TakeBack(s, tail);
  }

  function PutFlag(flag: bool, tail: Bytes8): (b: Bytes8)
  {
    PutByte(if flag then 1 else 0, tail)
  }

  function TakeFlag(b: Bytes8): (p: Option<Parsed<bool>>)
  {
    var n :- TakeByte(b);
    if n.value == 0 then Some(Parsed(false, n.rest))
    else if n.value == 1 then Some(Parsed(true, n.rest))
    else None
  }

  lemma FlagBack(flag: bool, tail: Bytes8)
    ensures TakeFlag(PutFlag(flag, tail)) == Some(Parsed(flag, tail))
  {
    ByteBack(if flag then 1 else 0, tail);
  }

  function PutDigest(d: Digest, tail: Bytes8): (b: Bytes8)
  {
    d + tail
  }

  function TakeDigest(b: Bytes8): (p: Option<Parsed<Digest>>)
  {
    var t :- Take(b, 32);
    Some(Parsed(t.value, t.rest))
  }

  lemma DigestBack(d: Digest, tail: Bytes8)
    ensures TakeDigest(PutDigest(d, tail)) == Some(Parsed(d, tail))
  {
    TakeBack(d, tail);
  }

  function PutOptionText(s: Option<Bytes8>, tail: Bytes8): (b: Bytes8)
  {
    PutFlag(s.Some?, if s.Some? then PutText(s.value, tail) else tail)
  }

  function TakeOptionText(b: Bytes8): (p: Option<Parsed<Option<Bytes8>>>)
  {
    var some :- TakeFlag(b);
    if some.value then
      var t :- TakeText(some.rest);
      Some(Parsed(Some(t.value), t.rest))
    else Some(Parsed(None, some.rest))
  }

  lemma OptionTextBack(s: Option<Bytes8>, tail: Bytes8)
    requires s.Some? ==> TextSound(s.value)
    ensures TakeOptionText(PutOptionText(s, tail)) == Some(Parsed(s, tail))
  {
    hide PutFlag, TakeFlag, PutText, TakeText;
    FlagBack(s.Some?, if s.Some? then PutText(s.value, tail) else tail);
    if s.Some? {
      TextBack(s.value, tail);
    }
  }

  function PutOptionU128(n: Option<U128>, tail: Bytes8): (b: Bytes8)
  {
    PutFlag(n.Some?, if n.Some? then PutU128(n.value, tail) else tail)
  }

  /** An optional vertex identifier; zero names no vertex. */
  function TakeOptionId(b: Bytes8): (p: Option<Parsed<Option<U128>>>)
  {
    var some :- TakeFlag(b);
    if some.value then
      var n :- TakeU128(some.rest);
      if n.value == 0 then None else Some(Parsed(Some(n.value), n.rest))
    else Some(Parsed(None, some.rest))
  }

  lemma OptionIdBack(n: Option<U128>, tail: Bytes8)
    requires n != Some(0)
    ensures TakeOptionId(PutOptionU128(n, tail)) == Some(Parsed(n, tail))
  {
    hide PutFlag, TakeFlag, PutU128, TakeU128;
    FlagBack(n.Some?, if n.Some? then PutU128(n.value, tail) else tail);
    if n.Some? {
      U128Back(n.value, tail);
    }
  }

  function PutOptionI64(n: Option<I64>, tail: Bytes8): (b: Bytes8)
  {
    PutFlag(n.Some?, if n.Some? then PutI64(n.value, tail) else tail)
  }

  function TakeOptionI64(b: Bytes8): (p: Option<Parsed<Option<I64>>>)
  {
    var some :- TakeFlag(b);
    if some.value then
      var n :- TakeI64(some.rest);
      Some(Parsed(Some(n.value), n.rest))
    else Some(Parsed(None, some.rest))
  }

  lemma OptionI64Back(n: Option<I64>, tail: Bytes8)
    ensures TakeOptionI64(PutOptionI64(n, tail)) == Some(Parsed(n, tail))
  {
    hide PutFlag, TakeFlag, PutI64, TakeI64;
    FlagBack(n.Some?, if n.Some? then PutI64(n.value, tail) else tail);
    if n.Some? {
      I64Back(n.value, tail);
    }
  }

  function PutAlgorithm(a: Algorithm, tail: Bytes8): (b: Bytes8)
  {
    PutByte(a, tail)
  }

  function TakeAlgorithm(b: Bytes8): (p: Option<Parsed<Algorithm>>)
  {
    var n :- TakeByte(b);
    if 1 <= n.value <= 20 then Some(Parsed(n.value, n.rest)) else None
  }

  lemma AlgorithmBack(a: Algorithm, tail: Bytes8)
    ensures TakeAlgorithm(PutAlgorithm(a, tail)) == Some(Parsed(a, tail))
  {
    ByteBack(a, tail);
  }

  // ----- requests

  ghost predicate OptionTextSound(s: Option<Bytes8>)
  {
    s.Some? ==> TextSound(s.value)
  }

  ghost predicate RequestSound(r: Request)
  {
    && r.source != Some(0) && r.target != Some(0)
    && OptionTextSound(r.weightProperty) && OptionTextSound(r.departureProperty) && OptionTextSound(r.arrivalProperty)
    && OptionTextSound(r.eventTimeProperty) && OptionTextSound(r.signalProperty)
  }

  datatype Names = Names(weight: Option<Bytes8>, departure: Option<Bytes8>, arrival: Option<Bytes8>,
      eventTime: Option<Bytes8>, signal: Option<Bytes8>)

  function PutNames(n: Names, tail: Bytes8): (b: Bytes8)
  {
    PutOptionText(n.weight, PutOptionText(n.departure,
        PutOptionText(n.arrival, PutOptionText(n.eventTime, PutOptionText(n.signal, tail)))))
  }

  function TakeNames(b: Bytes8): (p: Option<Parsed<Names>>)
  {
    var weight :- TakeOptionText(b);
    var departure :- TakeOptionText(weight.rest);
    var arrival :- TakeOptionText(departure.rest);
    var eventTime :- TakeOptionText(arrival.rest);
    var signal :- TakeOptionText(eventTime.rest);
    Some(Parsed(Names(weight.value, departure.value, arrival.value, eventTime.value, signal.value), signal.rest))
  }

  lemma NamesBack(n: Names, tail: Bytes8)
    requires OptionTextSound(n.weight) && OptionTextSound(n.departure) && OptionTextSound(n.arrival)
    requires OptionTextSound(n.eventTime) && OptionTextSound(n.signal)
    ensures TakeNames(PutNames(n, tail)) == Some(Parsed(n, tail))
  {
    hide PutOptionText, TakeOptionText;
    var t5 := PutOptionText(n.signal, tail);
    var t4 := PutOptionText(n.eventTime, t5);
    var t3 := PutOptionText(n.arrival, t4);
    var t2 := PutOptionText(n.departure, t3);
    OptionTextBack(n.weight, t2);
    OptionTextBack(n.departure, t3);
    OptionTextBack(n.arrival, t4);
    OptionTextBack(n.eventTime, t5);
    OptionTextBack(n.signal, tail);
  }

  function NamesOf(r: Request): Names
  {
    Names(r.weightProperty, r.departureProperty, r.arrivalProperty, r.eventTimeProperty, r.signalProperty)
  }

  function PutTimes(r: Request, tail: Bytes8): (b: Bytes8)
  {
    PutOptionI64(r.timeStart, PutOptionI64(r.timeEnd, PutU64(r.changeThreshold, tail)))
  }

  function PutBounds(r: Request, tail: Bytes8): (b: Bytes8)
  {
    PutU32(r.maxDepth, PutU64(r.maxPairs, PutU32(r.iterations, PutU32(r.k, PutU64(r.damping, tail)))))
  }

  function PutRequest(r: Request, tail: Bytes8): (b: Bytes8)
  {
    PutAlgorithm(r.algorithm, PutOptionU128(r.source,
        PutOptionU128(r.target, PutBounds(r, PutNames(NamesOf(r), PutTimes(r, tail))))))
  }

  datatype Bounds = Bounds(maxDepth: U32, maxPairs: U64, iterations: U32, k: U32, damping: U64)

  function TakeBounds(b: Bytes8): (p: Option<Parsed<Bounds>>)
  {
    var maxDepth :- TakeU32(b);
    var maxPairs :- TakeU64(maxDepth.rest);
    var iterations :- TakeU32(maxPairs.rest);
    var k :- TakeU32(iterations.rest);
    var damping :- TakeU64(k.rest);
    Some(Parsed(Bounds(maxDepth.value, maxPairs.value, iterations.value, k.value, damping.value), damping.rest))
  }

  lemma BoundsBack(r: Request, tail: Bytes8)
    ensures TakeBounds(PutBounds(r, tail))
         == Some(Parsed(Bounds(r.maxDepth, r.maxPairs, r.iterations, r.k, r.damping), tail))
  {
    hide PutU32, TakeU32, PutU64, TakeU64;
    var t4 := PutU64(r.damping, tail);
    var t3 := PutU32(r.k, t4);
    var t2 := PutU32(r.iterations, t3);
    U32Back(r.maxDepth, PutU64(r.maxPairs, t2));
    U64Back(r.maxPairs, t2);
    U32Back(r.iterations, t3);
    U32Back(r.k, t4);
    U64Back(r.damping, tail);
  }

  function TakeRequest(b: Bytes8): (p: Option<Parsed<Request>>)
  {
    var algorithm :- TakeAlgorithm(b);
    var source :- TakeOptionId(algorithm.rest);
    var target :- TakeOptionId(source.rest);
    var bounds :- TakeBounds(target.rest);
    var names :- TakeNames(bounds.rest);
    var timeStart :- TakeOptionI64(names.rest);
    var timeEnd :- TakeOptionI64(timeStart.rest);
    var threshold :- TakeU64(timeEnd.rest);
    var c, n := bounds.value, names.value;
    Some(Parsed(Request(algorithm.value, source.value, target.value, c.maxDepth, c.maxPairs, c.iterations, c.k,
        c.damping,
                        n.weight, n.departure, n.arrival, n.eventTime, n.signal, timeStart.value, timeEnd.value,
                          threshold.value), threshold.rest))
  }

  lemma RequestBack(r: Request, tail: Bytes8)
    requires RequestSound(r)
    ensures TakeRequest(PutRequest(r, tail)) == Some(Parsed(r, tail))
  {
    hide PutAlgorithm, TakeAlgorithm, PutOptionU128, TakeOptionId, PutBounds, TakeBounds, PutNames, TakeNames,
      PutOptionI64, TakeOptionI64, PutU64, TakeU64, OptionTextSound;
    var t8 := PutU64(r.changeThreshold, tail);
    var t7 := PutOptionI64(r.timeEnd, t8);
    var t6 := PutTimes(r, tail);
    var t5 := PutNames(NamesOf(r), t6);
    var t4 := PutBounds(r, t5);
    AlgorithmBack(r.algorithm, PutOptionU128(r.source, PutOptionU128(r.target, t4)));
    OptionIdBack(r.source, PutOptionU128(r.target, t4));
    OptionIdBack(r.target, t4);
    BoundsBack(r, t5);
    NamesBack(NamesOf(r), t6);
    OptionI64Back(r.timeStart, t7);
    OptionI64Back(r.timeEnd, t8);
    U64Back(r.changeThreshold, tail);
  }

  // ----- snapshots

  datatype Shard = Shard(id: U64, fence: Fence)

  ghost predicate FenceSound(f: Fence)
  {
    f.placementEpoch != 0 && f.backendGeneration != 0 && f.closedTime >= 0
  }

  ghost predicate SnapshotSound(s: Snapshot)
  {
    && s.transactionId != 0 && s.startTime >= 0 && s.catalogVersion != 0
    && s.shards != map[] && |s.shards| <= U32_MAX && 0 !in s.shards
    && forall id | id in s.shards :: FenceSound(s.shards[id]) && s.startTime <= s.shards[id].closedTime
  }

  function PutShard(shard: Shard, tail: Bytes8): (b: Bytes8)
  {
    PutU64(shard.id, PutU64(shard.fence.placementEpoch, PutU64(shard.fence.backendGeneration,
      PutU64(shard.fence.appliedIndex, PutI64(shard.fence.closedTime, tail)))))
  }

  function TakeShard(b: Bytes8): (p: Option<Parsed<Shard>>)
  {
    var id :- TakeU64(b);
    var epoch :- TakeU64(id.rest);
    var generation :- TakeU64(epoch.rest);
    var applied :- TakeU64(generation.rest);
    var closed :- TakeI64(applied.rest);
    if id.value == 0 || epoch.value == 0 || generation.value == 0 || closed.value < 0 then None
    else Some(Parsed(Shard(id.value, Fence(epoch.value, generation.value, applied.value, closed.value)), closed.rest))
  }

  lemma ShardBack(shard: Shard, tail: Bytes8)
    requires shard.id != 0 && FenceSound(shard.fence)
    ensures TakeShard(PutShard(shard, tail)) == Some(Parsed(shard, tail))
  {
    hide PutU64, TakeU64, PutI64, TakeI64;
    var f := shard.fence;
    var t4 := PutI64(f.closedTime, tail);
    var t3 := PutU64(f.appliedIndex, t4);
    var t2 := PutU64(f.backendGeneration, t3);
    U64Back(shard.id, PutU64(f.placementEpoch, t2));
    U64Back(f.placementEpoch, t2);
    U64Back(f.backendGeneration, t3);
    U64Back(f.appliedIndex, t4);
    I64Back(f.closedTime, tail);
  }

  function PutShards(shards: seq<Shard>, tail: Bytes8): (b: Bytes8)
  {
    if shards == [] then tail else PutShard(shards[0], PutShards(shards[1..], tail))
  }

  function TakeShards(b: Bytes8, count: nat): (p: Option<Parsed<seq<Shard>>>)
    decreases count
  {
    if count == 0 then Some(Parsed([], b))
    else
      var first :- TakeShard(b);
      var more :- TakeShards(first.rest, count - 1);
      Some(Parsed([first.value] + more.value, more.rest))
  }

  lemma {:induction false} ShardsBack(shards: seq<Shard>, tail: Bytes8)
    requires forall i | 0 <= i < |shards| :: shards[i].id != 0 && FenceSound(shards[i].fence)
    ensures TakeShards(PutShards(shards, tail), |shards|) == Some(Parsed(shards, tail))
  {
    hide PutShard, TakeShard, FenceSound;
    if shards != [] {
      ShardBack(shards[0], PutShards(shards[1..], tail));
      ShardsBack(shards[1..], tail);
      assert [shards[0]] + shards[1..] == shards;
    }
  }

  function ShardPairs(shards: seq<Shard>): (pairs: seq<Pair<U64, Fence>>)
    ensures |pairs| == |shards| && forall i | 0 <= i < |pairs| :: pairs[i] == Pair(shards[i].id, shards[i].fence)
  {
    seq(|shards|, i requires 0 <= i < |shards| => Pair(shards[i].id, shards[i].fence))
  }

  ghost function ShardList(fences: map<U64, Fence>, order: seq<nat>): (s: seq<Shard>)
    requires forall i | 0 <= i < |order| :: order[i] in fences
    ensures |s| == |order| && forall i | 0 <= i < |s| :: s[i] == Shard(order[i], fences[order[i]])
  {
    seq(|order|, i requires 0 <= i < |order| => Shard(order[i], fences[order[i]]))
  }

  ghost function PutSnapshot(s: Snapshot, tail: Bytes8): (b: Bytes8)
  {
    var order := InOrderOf(s.shards.Keys);
    assert forall i | 0 <= i < |order| :: order[i] in order;
    PutU128(s.transactionId, PutI64(s.startTime,
        PutU64(s.catalogVersion, PutU32(AsU32(|s.shards|), PutShards(ShardList(s.shards, order), tail)))))
  }

  /** A snapshot has shards, each given once and closed no earlier than the snapshot starts. */
  function TakeSnapshot(b: Bytes8): (p: Option<Parsed<Snapshot>>)
  {
    var transaction :- TakeU128(b);
    var start :- TakeI64(transaction.rest);
    var version :- TakeU64(start.rest);
    var count :- TakeU32(version.rest);
    var shards :- TakeShards(count.rest, count.value);
    if transaction.value == 0 || start.value < 0 || version.value == 0 || shards.value == [] then None
    else if exists i | 0 <= i < |shards.value| :: shards.value[i].fence.closedTime < start.value then None
    else
      var fences :- Collect(ShardPairs(shards.value));
      Some(Parsed(Snapshot(transaction.value, start.value, version.value, fences), shards.rest))
  }

  lemma SnapshotBack(s: Snapshot, tail: Bytes8)
    requires SnapshotSound(s)
    ensures TakeSnapshot(PutSnapshot(s, tail)) == Some(Parsed(s, tail))
  {
    hide PutU128, TakeU128, PutI64, TakeI64, PutU64, TakeU64, PutU32, TakeU32, PutShards, TakeShards, Collect,
      FenceSound, InOrderOf, Entries;
    var order := InOrderOf(s.shards.Keys);
    ShardOrder(s, order);
    var list := ShardList(s.shards, order);
    OrderedSize(order, s.shards.Keys);
    var t3 := PutShards(list, tail);
    var t2 := PutU32(AsU32(|s.shards|), t3);
    var t1 := PutU64(s.catalogVersion, t2);
    U128Back(s.transactionId, PutI64(s.startTime, t1));
    I64Back(s.startTime, t1);
    U64Back(s.catalogVersion, t2);
    U32Back(|s.shards|, t3);
    ShardsBack(list, tail);
    CollectBack(ShardPairs(list), s.shards);
  }

  lemma ShardOrder(s: Snapshot, order: seq<nat>)
    requires SnapshotSound(s) && InOrder(order, s.shards.Keys)
    ensures forall i | 0 <= i < |order| :: order[i] in s.shards && order[i] != 0 && FenceSound(s.shards[order[i]])
    ensures forall i | 0 <= i < |order| :: s.startTime <= s.shards[order[i]].closedTime
    ensures Entries(ShardPairs(ShardList(s.shards, order)), s.shards)
  {
    assert forall i | 0 <= i < |order| :: order[i] in order;
    var pairs := ShardPairs(ShardList(s.shards, order));
    forall k | k in s.shards
      ensures exists i :: 0 <= i < |pairs| && pairs[i].key == k
    {
      assert k in order;
      var i :| 0 <= i < |order| && order[i] == k;
      assert pairs[i].key == k;
    }
  }

  // ----- projections

  ghost predicate ColumnSound(c: Column)
  {
    TextSound(c.name)
  }

  /** Names are given once, and are not empty. */
  predicate ColumnsDistinct(columns: seq<Column>)
  {
    && (forall i | 0 <= i < |columns| :: columns[i].name != [])
    && (forall i, j | 0 <= i < j < |columns| :: columns[i].name != columns[j].name)
  }

  ghost predicate ColumnsSound(columns: seq<Column>)
  {
    |columns| <= U32_MAX && ColumnsDistinct(columns) && forall i | 0 <= i < |columns| :: ColumnSound(columns[i])
  }

  function PutColumn(c: Column, tail: Bytes8): (b: Bytes8)
  {
    PutText(c.name, PutByte(c.propertyType, PutFlag(c.required, tail)))
  }

  function TakeColumn(b: Bytes8): (p: Option<Parsed<Column>>)
  {
    var name :- TakeText(b);
    var tag :- TakeByte(name.rest);
    if 1 <= tag.value <= 7 then
      var required :- TakeFlag(tag.rest);
      Some(Parsed(Column(name.value, tag.value, required.value), required.rest))
    else None
  }

  lemma ColumnBack(c: Column, tail: Bytes8)
    requires ColumnSound(c)
    ensures TakeColumn(PutColumn(c, tail)) == Some(Parsed(c, tail))
  {
    hide PutText, TakeText, PutByte, TakeByte, PutFlag, TakeFlag;
    TextBack(c.name, PutByte(c.propertyType, PutFlag(c.required, tail)));
    ByteBack(c.propertyType, PutFlag(c.required, tail));
    FlagBack(c.required, tail);
  }

  function PutColumns(columns: seq<Column>, tail: Bytes8): (b: Bytes8)
  {
    if columns == [] then tail else PutColumn(columns[0], PutColumns(columns[1..], tail))
  }

  function TakeColumns(b: Bytes8, count: nat): (p: Option<Parsed<seq<Column>>>)
    decreases count
  {
    if count == 0 then Some(Parsed([], b))
    else
      var first :- TakeColumn(b);
      var more :- TakeColumns(first.rest, count - 1);
      Some(Parsed([first.value] + more.value, more.rest))
  }

  lemma {:induction false} ColumnsBack(columns: seq<Column>, tail: Bytes8)
    requires forall i | 0 <= i < |columns| :: ColumnSound(columns[i])
    ensures TakeColumns(PutColumns(columns, tail), |columns|) == Some(Parsed(columns, tail))
  {
    hide PutColumn, TakeColumn, ColumnSound;
    if columns != [] {
      ColumnBack(columns[0], PutColumns(columns[1..], tail));
      ColumnsBack(columns[1..], tail);
      assert [columns[0]] + columns[1..] == columns;
    }
  }

  function PutProjection(p: Columns, tail: Bytes8): (b: Bytes8)
  {
    PutFlag(p.includeReverse, PutU32(AsU32(|p.vertexProperties|), PutColumns(p.vertexProperties,
      PutU32(AsU32(|p.edgeProperties|), PutColumns(p.edgeProperties, tail)))))
  }

  function TakeProjection(b: Bytes8): (p: Option<Parsed<Columns>>)
  {
    var reverse :- TakeFlag(b);
    var vertexCount :- TakeU32(reverse.rest);
    var vertexColumns :- TakeColumns(vertexCount.rest, vertexCount.value);
    var edgeCount :- TakeU32(vertexColumns.rest);
    var edgeColumns :- TakeColumns(edgeCount.rest, edgeCount.value);
    if ColumnsDistinct(vertexColumns.value) && ColumnsDistinct(edgeColumns.value) then
      Some(Parsed(Columns(reverse.value, vertexColumns.value, edgeColumns.value), edgeColumns.rest))
    else None
  }

  lemma ProjectionBack(p: Columns, tail: Bytes8)
    requires ColumnsSound(p.vertexProperties) && ColumnsSound(p.edgeProperties)
    ensures TakeProjection(PutProjection(p, tail)) == Some(Parsed(p, tail))
  {
    hide PutFlag, TakeFlag, PutU32, TakeU32, PutColumns, TakeColumns, ColumnsDistinct, ColumnSound;
    var t4 := PutColumns(p.edgeProperties, tail);
    var t3 := PutU32(AsU32(|p.edgeProperties|), t4);
    var t2 := PutColumns(p.vertexProperties, t3);
    FlagBack(p.includeReverse, PutU32(AsU32(|p.vertexProperties|), t2));
    U32Back(|p.vertexProperties|, t2);
    ColumnsBack(p.vertexProperties, t3);
    U32Back(|p.edgeProperties|, t4);
    ColumnsBack(p.edgeProperties, tail);
  }

  // ----- specifications

  /** What a specification is made from. */
  datatype Parts = Parts(
    identity: Bytes8, request: Request, snapshot: Snapshot, projection: Columns, topologyDigest: Digest,
      backendFenceDigest: Digest,
    providerVersion: U32, algorithmVersion: U32, maxAttempts: U32, retentionUntil: U64)

  /** The digests in use; nothing but their being functions matters here. */
  datatype Hashes = Hashes(jobId: Bytes8 -> U128, snapshot: Snapshot -> Digest, spec: Parts -> Digest,
      content: Bytes8 -> Digest)

  predicate NeedsReverse(a: Algorithm)
  {
    a in {STRONGLY_CONNECTED, WEAKLY_CONNECTED, DEGREE, CLUSTERING, K_CORE, LABEL_PROPAGATION, LOUVAIN,
        LATEST_DEPARTURE}
  }

  function NeededProperties(a: Algorithm): seq<Bytes8>
  {
    if a in {LATEST_DEPARTURE, EARLIEST_ARRIVAL, TEMPORAL_REACHABILITY, TEMPORAL_MOTIF} then
        [Ascii("departure"), Ascii("arrival")]
    else if a == CHANGE_POINT then [Ascii("event_time"), Ascii("signal")]
    else if a in {SHORTEST_PATH, ALL_PAIRS} then [Ascii("weight")]
    else []
  }

  predicate Provides(projection: Columns, name: Bytes8)
  {
    exists i | 0 <= i < |projection.edgeProperties| ::
        projection.edgeProperties[i].name == name && projection.edgeProperties[i].required
  }

  const RESULT_SCHEMA: U32 := 1
  const CHECKPOINT_SCHEMA: U32 := 1

  function NewSpec(h: Hashes, p: Parts): (spec: Option<Spec>)
  {
    var a := p.request.algorithm;
    if |p.identity| > 256 || p.providerVersion == 0 || p.algorithmVersion == 0 || p.maxAttempts == 0 then None
    else if NeedsReverse(a) && !p.projection.includeReverse then None
    else if exists i | 0 <= i < |NeededProperties(a)| :: !Provides(p.projection, NeededProperties(a)[i]) then None
    else
      var id := (h.jobId)(p.identity);
      Some(Spec(if id == 0 then 1 else id, p.identity, p.request, p.snapshot, p.projection, (h.snapshot)(p.snapshot),
          p.topologyDigest,
                p.backendFenceDigest, p.providerVersion, p.algorithmVersion, RESULT_SCHEMA, CHECKPOINT_SCHEMA,
                  p.maxAttempts, p.retentionUntil,
                (h.spec)(p)))
  }

  function PartsOf(s: Spec): Parts
  {
    Parts(s.identity, s.request, s.snapshot, s.projection, s.topologyDigest, s.backendFenceDigest,
          s.providerVersion, s.algorithmVersion, s.maxAttempts, s.retentionUntil)
  }

  /** The specification was made by its constructor from sound parts. */
  ghost predicate SpecSound(h: Hashes, s: Spec)
  {
    && NewSpec(h, PartsOf(s)) == Some(s)
    && s.identity != [] && TextSound(s.identity)
    && RequestSound(s.request) && SnapshotSound(s.snapshot)
    && ColumnsSound(s.projection.vertexProperties) && ColumnsSound(s.projection.edgeProperties)
  }

  function PutVersions(s: Spec, tail: Bytes8): (b: Bytes8)
  {
    PutU32(s.providerVersion, PutU32(s.algorithmVersion, PutU32(s.resultSchema, PutU32(s.checkpointSchema,
      PutU32(s.maxAttempts, PutU64(s.retentionUntil, tail))))))
  }

  ghost function PutSpec(s: Spec, tail: Bytes8): (b: Bytes8)
  {
    PutU128(s.id, PutDigest(s.digest,
        PutText(s.identity, PutRequest(s.request, PutSnapshot(s.snapshot, PutProjection(s.projection,
      PutDigest(s.topologyDigest, PutDigest(s.backendFenceDigest, PutVersions(s, tail)))))))))
  }

  datatype Versions = Versions(provider: U32, algorithm: U32, result: U32, checkpoint: U32, maxAttempts: U32,
      retentionUntil: U64)

  function TakeVersions(b: Bytes8): (p: Option<Parsed<Versions>>)
  {
    var provider :- TakeU32(b);
    var algorithm :- TakeU32(provider.rest);
    var result :- TakeU32(algorithm.rest);
    var checkpoint :- TakeU32(result.rest);
    var attempts :- TakeU32(checkpoint.rest);
    var retention :- TakeU64(attempts.rest);
    Some(Parsed(Versions(provider.value, algorithm.value, result.value, checkpoint.value, attempts.value,
        retention.value), retention.rest))
  }

  lemma VersionsBack(s: Spec, tail: Bytes8)
    ensures TakeVersions(PutVersions(s, tail))
         == Some(Parsed(Versions(s.providerVersion, s.algorithmVersion, s.resultSchema, s.checkpointSchema,
             s.maxAttempts, s.retentionUntil), tail))
  {
    hide PutU32, TakeU32, PutU64, TakeU64;
    var t5 := PutU64(s.retentionUntil, tail);
    var t4 := PutU32(s.maxAttempts, t5);
    var t3 := PutU32(s.checkpointSchema, t4);
    var t2 := PutU32(s.resultSchema, t3);
    U32Back(s.providerVersion, PutU32(s.algorithmVersion, t2));
    U32Back(s.algorithmVersion, t2);
    U32Back(s.resultSchema, t3);
    U32Back(s.checkpointSchema, t4);
    U32Back(s.maxAttempts, t5);
    U64Back(s.retentionUntil, tail);
  }

  /** Rebuilds the specification from its parts and insists on the identifier, digest and versions that were stored. */
  function TakeSpec(h: Hashes, b: Bytes8): (p: Option<Parsed<Spec>>)
  {
    var id :- TakeU128(b);
    var digest :- TakeDigest(id.rest);
    var identity :- TakeText(digest.rest);
    var request :- TakeRequest(identity.rest);
    var snapshot :- TakeSnapshot(request.rest);
    var projection :- TakeProjection(snapshot.rest);
    var topology :- TakeDigest(projection.rest);
    var backend :- TakeDigest(topology.rest);
    var versions :- TakeVersions(backend.rest);
    if id.value == 0 || identity.value == [] then None
    else
      var v := versions.value;
      var spec :- NewSpec(h, Parts(identity.value, request.value, snapshot.value, projection.value, topology.value,
          backend.value,
                                   v.provider, v.algorithm, v.maxAttempts, v.retentionUntil));
      if spec.id != id.value || spec.digest != digest.value || spec.resultSchema != v.result
          || spec.checkpointSchema != v.checkpoint then None
      else Some(Parsed(spec, versions.rest))
  }

  lemma SpecBack(h: Hashes, s: Spec, tail: Bytes8)
    requires SpecSound(h, s)
    ensures TakeSpec(h, PutSpec(s, tail)) == Some(Parsed(s, tail))
  {
    hide PutU128, TakeU128, PutDigest, TakeDigest, PutText, TakeText, PutRequest, TakeRequest, PutSnapshot,
      TakeSnapshot, PutProjection, TakeProjection,
      PutVersions, TakeVersions, NewSpec, RequestSound, SnapshotSound, ColumnsSound, TextSound;
    var t8 := PutVersions(s, tail);
    var t7 := PutDigest(s.backendFenceDigest, t8);
    var t6 := PutDigest(s.topologyDigest, t7);
    var t5 := PutProjection(s.projection, t6);
    var t4 := PutSnapshot(s.snapshot, t5);
    var t3 := PutRequest(s.request, t4);
    var t2 := PutText(s.identity, t3);
    U128Back(s.id, PutDigest(s.digest, t2));
    DigestBack(s.digest, t2);
    TextBack(s.identity, t3);
    RequestBack(s.request, t4);
    SnapshotBack(s.snapshot, t5);
    ProjectionBack(s.projection, t6);
    DigestBack(s.topologyDigest, t7);
    DigestBack(s.backendFenceDigest, t8);
    VersionsBack(s, tail);
    SpecNumbers(h, s);
  }

  lemma SpecNumbers(h: Hashes, s: Spec)
    requires NewSpec(h, PartsOf(s)) == Some(s)
    ensures s.id != 0 && s.resultSchema != 0 && s.checkpointSchema != 0 && s.algorithmVersion != 0
  {
  }
}

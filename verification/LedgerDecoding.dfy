/** What the snapshot decoder accepts: only ledgers in order, whatever the bytes. */
module LedgerDecoding {
  import opened Wrappers
  import opened ByteStrings
  import opened Jobs
  import opened KeyOrder
  import opened SpecCodec
  import opened LedgerCodec

  // ----- specifications

  lemma TextTaken(b: Bytes8)
    ensures TakeText(b).Some? ==> TextSound(TakeText(b).value.value)
  {
  }

  lemma OptionTextTaken(b: Bytes8)
    ensures TakeOptionText(b).Some? ==> OptionTextSound(TakeOptionText(b).value.value)
  {
    hide TakeText, TextSound;
    var some := TakeFlag(b);
    if some.Some? {
      TextTaken(some.value.rest);
    }
  }

  lemma NamesTaken(b: Bytes8)
    ensures var p := TakeNames(b); p.Some? ==>
      var n := p.value.value;
      && OptionTextSound(n.weight) && OptionTextSound(n.departure) && OptionTextSound(n.arrival)
      && OptionTextSound(n.eventTime) && OptionTextSound(n.signal)
  {
    hide TakeOptionText, OptionTextSound;
    if TakeNames(b).Some? {
      OptionTextTaken(b);
      var departure := TakeOptionText(b).value.rest;
      OptionTextTaken(departure);
      var arrival := TakeOptionText(departure).value.rest;
      OptionTextTaken(arrival);
      var eventTime := TakeOptionText(arrival).value.rest;
      OptionTextTaken(eventTime);
      OptionTextTaken(TakeOptionText(eventTime).value.rest);
    }
  }

  lemma IdTaken(b: Bytes8)
    ensures TakeOptionId(b).Some? ==> TakeOptionId(b).value.value != Some(0)
  {
  }

  lemma RequestTaken(b: Bytes8)
    ensures TakeRequest(b).Some? ==> RequestSound(TakeRequest(b).value.value)
  {
    hide TakeAlgorithm, TakeOptionId, TakeBounds, TakeNames, TakeOptionI64, TakeU64, OptionTextSound;
    if TakeRequest(b).Some? {
      var source := TakeAlgorithm(b).value.rest;
      IdTaken(source);
      var target := TakeOptionId(source).value.rest;
      IdTaken(target);
      NamesTaken(TakeBounds(TakeOptionId(target).value.rest).value.rest);
    }
  }

  lemma {:induction false} ShardsTaken(b: Bytes8, count: nat)
    ensures var p := TakeShards(b, count); p.Some? ==>
      && |p.value.value| == count
      && forall i | 0 <= i < count :: p.value.value[i].id != 0 && FenceSound(p.value.value[i].fence)
    decreases count
  {
    hide TakeShard, FenceSound;
    if count > 0 && TakeShard(b).Some? {
      ShardTaken(b);
      ShardsTaken(TakeShard(b).value.rest, count - 1);
    }
  }

  lemma ShardTaken(b: Bytes8)
    ensures TakeShard(b).Some? ==> TakeShard(b).value.value.id != 0 && FenceSound(TakeShard(b).value.value.fence)
  {
    hide TakeU64, TakeI64;
  }

  lemma EntryAdded<K(!new), V>(pairs: seq<Pair<K, V>>, less: map<K, V>, last: Pair<K, V>)
    requires Entries(pairs, less) && last.key !in less
    ensures Entries(pairs + [last], less[last.key := last.value]) && |less[last.key := last.value]| == |less| + 1
  {
    var all, m := pairs + [last], less[last.key := last.value];
    forall k | k in m ensures exists i :: 0 <= i < |all| && all[i].key == k {
      if k in less {
        var i :| 0 <= i < |pairs| && pairs[i].key == k;
        assert all[i].key == k;
      } else {
        assert all[|pairs|].key == k;
      }
    }
    assert m.Keys == less.Keys + {last.key};
  }

  /** A map collected from entries has those entries and no others. */
  lemma {:induction false} CollectedEntries<K(!new), V>(pairs: seq<Pair<K, V>>)
    ensures Collect(pairs).Some? ==> Entries(pairs, Collect(pairs).value) && |Collect(pairs).value| == |pairs|
    decreases |pairs|
  {
    hide Entries;
    if pairs == [] {
      NoneCollected<K, V>();
    } else if Collect(pairs).Some? {
      var front, last := pairs[..|pairs| - 1], pairs[|pairs| - 1];
      CollectedEntries(front);
      EntryAdded(front, Collect(front).value, last);
      assert front + [last] == pairs;
    }
  }

  lemma NoneCollected<K(!new), V>()
    ensures Entries<K, V>([], map[])
  {
  }

  lemma SnapshotTaken(b: Bytes8)
    ensures TakeSnapshot(b).Some? ==> SnapshotSound(TakeSnapshot(b).value.value)
  {
    hide TakeU128, TakeI64, TakeU64, TakeU32, TakeShards, Collect, FenceSound;
    if TakeSnapshot(b).Some? {
      var count := TakeU32(TakeU64(TakeI64(TakeU128(b).value.rest).value.rest).value.rest).value;
      ShardsTaken(count.rest, count.value);
      var shards := TakeShards(count.rest, count.value).value.value;
      CollectedEntries(ShardPairs(shards));
      ShardsHold(TakeSnapshot(b).value.value, shards);
    }
  }

  lemma ShardsHold(s: Snapshot, shards: seq<Shard>)
    requires Entries(ShardPairs(shards), s.shards) && |s.shards| == |shards| <= U32_MAX && shards != []
    requires forall i | 0 <= i < |shards| :: shards[i].id != 0 && FenceSound(shards[i].fence)
    requires forall i | 0 <= i < |shards| :: s.startTime <= shards[i].fence.closedTime
    requires s.transactionId != 0 && s.startTime >= 0 && s.catalogVersion != 0
    ensures SnapshotSound(s)
  {
    hide FenceSound;
    forall id | id in s.shards ensures id != 0 && FenceSound(s.shards[id]) && s.startTime <= s.shards[id].closedTime {
      var i :| 0 <= i < |shards| && ShardPairs(shards)[i].key == id;
    }
  }

  lemma {:induction false} ColumnsTaken(b: Bytes8, count: nat)
    ensures var p := TakeColumns(b, count); p.Some? ==>
      |p.value.value| == count && forall i | 0 <= i < count :: ColumnSound(p.value.value[i])
    decreases count
  {
    hide TakeText, TextSound;
    if count > 0 && TakeColumn(b).Some? {
      TextTaken(b);
      ColumnsTaken(TakeColumn(b).value.rest, count - 1);
    }
  }

  lemma ProjectionTaken(b: Bytes8)
    ensures var p := TakeProjection(b); p.Some? ==>
      ColumnsSound(p.value.value.vertexProperties) && ColumnsSound(p.value.value.edgeProperties)
  {
    hide TakeFlag, TakeU32, TakeColumns, ColumnsDistinct, ColumnSound;
    if TakeProjection(b).Some? {
      var first := TakeU32(TakeFlag(b).value.rest).value;
      ColumnsTaken(first.rest, first.value);
      var second := TakeU32(TakeColumns(first.rest, first.value).value.rest).value;
      ColumnsTaken(second.rest, second.value);
    }
  }

  lemma NewSpecKeeps(h: Hashes, p: Parts)
    ensures NewSpec(h, p).Some? ==> PartsOf(NewSpec(h, p).value) == p
  {
  }

  lemma SpecTaken(h: Hashes, b: Bytes8)
    ensures TakeSpec(h, b).Some? ==> SpecSound(h, TakeSpec(h, b).value.value)
  {
    hide TakeU128, TakeDigest, TakeText, TakeRequest, TakeSnapshot, TakeProjection, TakeVersions, NewSpec, TextSound,
      RequestSound, SnapshotSound, ColumnsSound;
    if TakeSpec(h, b).Some? {
      var identity := TakeDigest(TakeU128(b).value.rest).value.rest;
      TextTaken(identity);
      var request := TakeText(identity).value.rest;
      RequestTaken(request);
      var snapshot := TakeRequest(request).value.rest;
      SnapshotTaken(snapshot);
      var projection := TakeSnapshot(snapshot).value.rest;
      ProjectionTaken(projection);
      var topology := TakeProjection(projection).value.rest;
      var backend := TakeDigest(topology).value.rest;
      var v := TakeVersions(TakeDigest(backend).value.rest).value.value;
      NewSpecKeeps(h, Parts(TakeText(identity).value.value, TakeRequest(request).value.value,
          TakeSnapshot(snapshot).value.value, TakeProjection(projection).value.value,
          TakeDigest(topology).value.value, TakeDigest(backend).value.value, v.provider, v.algorithm, v.maxAttempts,
          v.retentionUntil));
    }
  }

  // ----- records

  lemma StateTaken(b: Bytes8)
    ensures TakeState(b).Some? ==> StateFits(TakeState(b).value.value)
  {
    hide TakeText, TextSound;
    var tag := TakeByte(b);
    if tag.Some? && tag.value.value == 5 && TakeFlag(tag.value.rest).Some? {
      TextTaken(TakeFlag(tag.value.rest).value.rest);
    }
  }

  lemma {:induction false} ManifestsTaken(b: Bytes8, count: nat)
    ensures var p := TakeManifests(b, count); p.Some? ==>
      |p.value.value| == count && forall i | 0 <= i < count :: ManifestFits(p.value.value[i])
    decreases count
  {
    hide TakeManifest, ManifestFits;
    if count > 0 && TakeManifest(b).Some? {
      ManifestTaken(b);
      ManifestsTaken(TakeManifest(b).value.rest, count - 1);
    }
  }

  lemma ManifestTaken(b: Bytes8)
    ensures TakeManifest(b).Some? ==> ManifestFits(TakeManifest(b).value.value)
  {
    hide TakeU128, TakeU64, TakeU32, TakeKind, TakeAlgorithm, TakeDigest;
  }

  lemma ArtifactsTaken(b: Bytes8)
    ensures var p := TakeArtifacts(b); p.Some? ==>
      ArtifactsFit(p.value.value.manifests) && p.value.value.pins <= p.value.value.manifests.Keys
  {
    hide TakeU32, TakeManifests, TakeKeys, Collect, ManifestFits;
    if TakeArtifacts(b).Some? {
      var count := TakeU32(b).value;
      ManifestsTaken(count.rest, count.value);
      var ms := TakeManifests(count.rest, count.value).value.value;
      CollectedEntries(ManifestPairs(ms));
      var artifacts := TakeArtifacts(b).value.value.manifests;
      forall k | k in artifacts ensures KeyOf(artifacts[k]) == k && ManifestFits(artifacts[k]) {
        var i :| 0 <= i < |ms| && ManifestPairs(ms)[i].key == k;
      }
    }
  }

  lemma RecordTaken(h: Hashes, b: Bytes8)
    ensures TakeRecord(h, b).Some? ==> RecordFits(h, TakeRecord(h, b).value.value)
  {
    hide TakeSpec, TakeState, TakeU64, TakeU32, TakeArtifacts, SpecSound, StateFits, ArtifactsFit;
    if TakeRecord(h, b).Some? {
      SpecTaken(h, b);
      var state := TakeSpec(h, b).value.rest;
      StateTaken(state);
      ArtifactsTaken(TakeCounters(TakeState(state).value.rest).value.rest);
    }
  }

  lemma {:induction false} RecordsTaken(h: Hashes, b: Bytes8, count: nat)
    ensures var p := TakeRecords(h, b, count); p.Some? ==>
      |p.value.value| == count && forall i | 0 <= i < count :: RecordFits(h, p.value.value[i])
    decreases count
  {
    hide TakeRecord, RecordFits;
    if count > 0 && TakeRecord(h, b).Some? {
      RecordTaken(h, b);
      RecordsTaken(h, TakeRecord(h, b).value.rest, count - 1);
    }
  }

  lemma BodyTaken(h: Hashes, b: Bytes8)
    ensures var p := TakeBody(h, b); p.Some? ==> LedgerFits(h, p.value.duration, p.value.records)
  {
    hide TakeU64, TakeU32, TakeRecords, Collect, RecordFits;
    if TakeBody(h, b).Some? {
      var count := TakeU32(TakeU64(b).value.rest).value;
      RecordsTaken(h, count.rest, count.value);
      var rs := TakeRecords(h, count.rest, count.value).value.value;
      CollectedEntries(RecordPairs(rs));
      var records := TakeBody(h, b).value.records;
      forall j | j in records ensures records[j].spec.id == j && RecordFits(h, records[j]) {
        var i :| 0 <= i < |rs| && RecordPairs(rs)[i].key == j;
      }
    }
  }

  /**
   * Whatever bytes the decoder accepts, it makes a ledger in order of them: constructed specifications, attempts within
   * the limit, matching epochs, real artifacts, pins on artifacts. That ledger survives encoding and decoding.
   */
  lemma DecodedIsInOrder(h: Hashes, bytes: Bytes8)
    requires DecodeSnapshot(h, bytes).Some?
    ensures var l := DecodeSnapshot(h, bytes).value;
      LedgerFits(h, l.duration, l.records) && DecodeSnapshot(h, EncodeSnapshot(h, l.duration, l.records)) == Some(l)
  {
    hide TakeBody, LedgerFits;
    BodyTaken(h, bytes[8..|bytes| - 32]);
    var l := DecodeSnapshot(h, bytes).value;
    SnapshotRoundTrip(h, l.duration, l.records);
  }

  /** A snapshot whose content was changed but not its hash is refused, or the hash has collided. */
  lemma ChangeIsRefused(h: Hashes, bytes: Bytes8, other: Bytes8)
    requires DecodeSnapshot(h, bytes).Some? && DecodeSnapshot(h, other).Some?
    requires bytes[|bytes| - 32..] == other[|other| - 32..]
    ensures bytes == other || (&& bytes[..|bytes| - 32] != other[..|other| - 32]
                               && (h.content)(bytes[..|bytes| - 32]) == (h.content)(other[..|other| - 32]))
  {
    hide TakeBody;
    assert bytes == bytes[..|bytes| - 32] + bytes[|bytes| - 32..];
    assert other == other[..|other| - 32] + other[|other| - 32..];
  }

  // ----- what a specification needs

  /** The column is among the edge columns, and required. */
  ghost predicate RequiresColumn(projection: Columns, name: string)
  {
    exists c :: c in projection.edgeProperties && c.name == Ascii(name) && c.required
  }

  /** A specification is made exactly if its numbers are given and the projection has what the algorithm reads. */
  lemma NewSpecIff(h: Hashes, p: Parts)
    ensures var a := p.request.algorithm;
      NewSpec(h, p).Some? <==>
        && |p.identity| <= 256 && p.providerVersion > 0 && p.algorithmVersion > 0 && p.maxAttempts > 0
        && (a in {5, 6, 8, 12, 13, 14, 15, 17} ==> p.projection.includeReverse)
        && (a in {16, 17, 18, 19} ==>
              RequiresColumn(p.projection, "departure") && RequiresColumn(p.projection, "arrival"))
        && (a == 20 ==> RequiresColumn(p.projection, "event_time") && RequiresColumn(p.projection, "signal"))
        && (a in {3, 4} ==> RequiresColumn(p.projection, "weight"))
  {
    hide Ascii, Provides, RequiresColumn;
    var names := NeededProperties(p.request.algorithm);
    ProvidesIs(p.projection, "departure");
    ProvidesIs(p.projection, "arrival");
    ProvidesIs(p.projection, "event_time");
    ProvidesIs(p.projection, "signal");
    ProvidesIs(p.projection, "weight");
    assert |names| >= 1 ==> names[0] in names;
    assert |names| == 2 ==> names[1] in names;
    assert |names| <= 2;
  }

  lemma ProvidesIs(projection: Columns, name: string)
    ensures Provides(projection, Ascii(name)) <==> RequiresColumn(projection, name)
  {
    hide Ascii;
    if Provides(projection, Ascii(name)) {
      var i :| 0 <= i < |projection.edgeProperties| && projection.edgeProperties[i].name == Ascii(name)
               && projection.edgeProperties[i].required;
      assert projection.edgeProperties[i] in projection.edgeProperties;
    }
  }
}

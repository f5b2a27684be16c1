/** Ledger snapshots: encoding, decoding, and why every reachable ledger survives the round trip. */
module LedgerCodec {
  import opened Wrappers
  import opened ByteStrings
  import opened Jobs
  import opened KeyOrder
  import Ascending
  import opened LedgerSteps
  import opened LedgerRuns
  import opened SpecCodec

  // ----- states

  ghost predicate StateFits(s: JobState)
  {
    && (s.Leased() ==> 1 <= s.leaseEpoch <= U64_MAX)
    && (s.Running? && s.checkpoint.Some? ==> s.checkpoint.value <= U64_MAX)
    && (s.Succeeded? ==> 1 <= s.resultGeneration <= U64_MAX)
    && (s.Failed? ==> TextSound(s.code))
  }

  function PutOptionU64(n: Option<nat>, tail: Bytes8): (b: Bytes8)
  {
    PutFlag(n.Some?, if n.Some? then PutU64(AsU64(n.value), tail) else tail)
  }

  function TakeOptionU64(b: Bytes8): (p: Option<Parsed<Option<nat>>>)
  {
    var some :- TakeFlag(b);
    if some.value then
      var n :- TakeU64(some.rest);
      Some(Parsed(Some(n.value), n.rest))
    else Some(Parsed(None, some.rest))
  }

  lemma OptionU64Back(n: Option<nat>, tail: Bytes8)
    requires n.Some? ==> n.value <= U64_MAX
    ensures TakeOptionU64(PutOptionU64(n, tail)) == Some(Parsed(n, tail))
  {
    hide PutFlag, TakeFlag, PutU64, TakeU64;
    FlagBack(n.Some?, if n.Some? then PutU64(AsU64(n.value), tail) else tail);
    if n.Some? {
      U64Back(n.value, tail);
    }
  }

  function PutLease(worker: U64, leaseEpoch: nat, expiresAt: U64, tail: Bytes8): (b: Bytes8)
  {
    PutU64(worker, PutU64(AsU64(leaseEpoch), PutU64(expiresAt, tail)))
  }

  datatype Held = Held(worker: WorkerId, leaseEpoch: nat, expiresAt: U64)

  function TakeLease(b: Bytes8): (p: Option<Parsed<Held>>)
  {
    var worker :- TakeU64(b);
    var epoch :- TakeU64(worker.rest);
    var expires :- TakeU64(epoch.rest);
    if worker.value == 0 || epoch.value == 0 then None
    else Some(Parsed(Held(worker.value, epoch.value, expires.value), expires.rest))
  }

  lemma LeaseBack(worker: WorkerId, leaseEpoch: nat, expiresAt: U64, tail: Bytes8)
    requires 1 <= leaseEpoch <= U64_MAX
    ensures TakeLease(PutLease(worker, leaseEpoch, expiresAt, tail))
         == Some(Parsed(Held(worker, leaseEpoch, expiresAt), tail))
  {
    hide PutU64, TakeU64;
    U64Back(worker, PutU64(AsU64(leaseEpoch), PutU64(expiresAt, tail)));
    U64Back(leaseEpoch, PutU64(expiresAt, tail));
    U64Back(expiresAt, tail);
  }

  function PutState(s: JobState, tail: Bytes8): (b: Bytes8)
  {
    match s
    case Queued => PutByte(1, tail)
    case Claimed(worker, epoch, expires) => PutByte(2, PutLease(worker, epoch, expires, tail))
    case Running(worker, epoch, expires, checkpoint) =>
        PutByte(3, PutLease(worker, epoch, expires, PutOptionU64(checkpoint, tail)))
    case Succeeded(generation) => PutByte(4, PutU64(AsU64(generation), tail))
    case Failed(retryable, code) => PutByte(5, PutFlag(retryable, PutText(code, tail)))
    case CancelledJob => PutByte(6, tail)
    case Tombstoned => PutByte(7, tail)
  }

  function TakeState(b: Bytes8): (p: Option<Parsed<JobState>>)
  {
    var tag :- TakeByte(b);
    match tag.value
    case 1 => Some(Parsed(Queued, tag.rest))
    case 2 =>
      var held :- TakeLease(tag.rest);
      Some(Parsed(Claimed(held.value.worker, held.value.leaseEpoch, held.value.expiresAt), held.rest))
    case 3 =>
      var held :- TakeLease(tag.rest);
      var checkpoint :- TakeOptionU64(held.rest);
      Some(Parsed(Running(held.value.worker, held.value.leaseEpoch, held.value.expiresAt, checkpoint.value),
          checkpoint.rest))
    case 4 =>
      var generation :- TakeU64(tag.rest);
      if generation.value == 0 then None else Some(Parsed(Succeeded(generation.value), generation.rest))
    case 5 =>
      var retryable :- TakeFlag(tag.rest);
      var code :- TakeText(retryable.rest);
      Some(Parsed(Failed(retryable.value, code.value), code.rest))
    case 6 => Some(Parsed(CancelledJob, tag.rest))
    case 7 => Some(Parsed(Tombstoned, tag.rest))
    case _ => None
  }

  lemma StateBack(s: JobState, tail: Bytes8)
    requires StateFits(s)
    ensures TakeState(PutState(s, tail)) == Some(Parsed(s, tail))
  {
    hide PutByte, TakeByte, PutLease, TakeLease, PutOptionU64, TakeOptionU64, PutU64, TakeU64, PutFlag, TakeFlag,
      PutText, TakeText, TextSound;
    match s
    case Queued => ByteBack(1, tail);
    case Claimed(worker, epoch, expires) =>
      ByteBack(2, PutLease(worker, epoch, expires, tail));
      LeaseBack(worker, epoch, expires, tail);
    case Running(worker, epoch, expires, checkpoint) =>
      ByteBack(3, PutLease(worker, epoch, expires, PutOptionU64(checkpoint, tail)));
      LeaseBack(worker, epoch, expires, PutOptionU64(checkpoint, tail));
      OptionU64Back(checkpoint, tail);
    case Succeeded(generation) =>
      ByteBack(4, PutU64(AsU64(generation), tail));
      U64Back(generation, tail);
    case Failed(retryable, code) =>
      ByteBack(5, PutFlag(retryable, PutText(code, tail)));
      FlagBack(retryable, PutText(code, tail));
      TextBack(code, tail);
    case CancelledJob => ByteBack(6, tail);
    case Tombstoned => ByteBack(7, tail);
  }

  // ----- artifacts

  function PutKind(kind: ArtifactKind, tail: Bytes8): (b: Bytes8)
  {
    PutByte(if kind.CheckpointArtifact? then 1 else 2, tail)
  }

  function TakeKind(b: Bytes8): (p: Option<Parsed<ArtifactKind>>)
  {
    var tag :- TakeByte(b);
    if tag.value == 1 then Some(Parsed(CheckpointArtifact, tag.rest))
    else if tag.value == 2 then Some(Parsed(ResultArtifact, tag.rest))
    else None
  }

  lemma KindBack(kind: ArtifactKind, tail: Bytes8)
    ensures TakeKind(PutKind(kind, tail)) == Some(Parsed(kind, tail))
  {
    ByteBack(if kind.CheckpointArtifact? then 1 else 2, tail);
  }

  ghost predicate ManifestFits(m: Manifest)
  {
    && m.jobId != 0 && 1 <= m.leaseEpoch <= U64_MAX && 1 <= m.generation <= U64_MAX
    && m.schemaVersion != 0 && m.algorithmVersion != 0 && m.chunkCount != 0 && m.totalBytes != 0
  }

  function PutContent(m: Manifest, tail: Bytes8): (b: Bytes8)
  {
    PutDigest(m.snapshotDigest, PutDigest(m.specDigest,
        PutDigest(m.payloadDigest, PutU64(m.chunkCount, PutU64(m.totalBytes, PutDigest(m.contentDigest, tail))))))
  }

  function PutManifest(m: Manifest, tail: Bytes8): (b: Bytes8)
  {
    PutU128(m.jobId, PutU64(AsU64(m.leaseEpoch), PutU64(AsU64(m.generation), PutKind(m.kind, PutU32(m.schemaVersion,
      PutAlgorithm(m.algorithm, PutU32(m.algorithmVersion, PutContent(m, tail))))))))
  }

  datatype Content = Content(snapshot: Digest, spec: Digest, payload: Digest, chunkCount: U64, totalBytes: U64,
      content: Digest)

  function TakeContent(b: Bytes8): (p: Option<Parsed<Content>>)
  {
    var snapshot :- TakeDigest(b);
    var spec :- TakeDigest(snapshot.rest);
    var payload :- TakeDigest(spec.rest);
    var chunks :- TakeU64(payload.rest);
    var total :- TakeU64(chunks.rest);
    var content :- TakeDigest(total.rest);
    if chunks.value == 0 || total.value == 0 then None
    else Some(Parsed(Content(snapshot.value, spec.value, payload.value, chunks.value, total.value, content.value),
        content.rest))
  }

  lemma ContentBack(m: Manifest, tail: Bytes8)
    requires m.chunkCount != 0 && m.totalBytes != 0
    ensures TakeContent(PutContent(m, tail))
         == Some(Parsed(Content(m.snapshotDigest, m.specDigest, m.payloadDigest, m.chunkCount, m.totalBytes,
             m.contentDigest), tail))
  {
    hide PutDigest, TakeDigest, PutU64, TakeU64;
    var t5 := PutDigest(m.contentDigest, tail);
    var t4 := PutU64(m.totalBytes, t5);
    var t3 := PutU64(m.chunkCount, t4);
    var t2 := PutDigest(m.payloadDigest, t3);
    DigestBack(m.snapshotDigest, PutDigest(m.specDigest, t2));
    DigestBack(m.specDigest, t2);
    DigestBack(m.payloadDigest, t3);
    U64Back(m.chunkCount, t4);
    U64Back(m.totalBytes, t5);
    DigestBack(m.contentDigest, tail);
  }

  function TakeManifest(b: Bytes8): (p: Option<Parsed<Manifest>>)
  {
    var job :- TakeU128(b);
    var epoch :- TakeU64(job.rest);
    var generation :- TakeU64(epoch.rest);
    var kind :- TakeKind(generation.rest);
    var schema :- TakeU32(kind.rest);
    var algorithm :- TakeAlgorithm(schema.rest);
    var version :- TakeU32(algorithm.rest);
    var c :- TakeContent(version.rest);
    if job.value == 0 || epoch.value == 0 || generation.value == 0 || schema.value == 0 || version.value == 0 then None
    else
      Some(Parsed(Manifest(job.value, epoch.value, generation.value, kind.value, schema.value, algorithm.value,
          version.value,
                           c.value.snapshot, c.value.spec, c.value.payload, c.value.chunkCount, c.value.totalBytes,
                             c.value.content), c.rest))
  }

  lemma ManifestBack(m: Manifest, tail: Bytes8)
    requires ManifestFits(m)
    ensures TakeManifest(PutManifest(m, tail)) == Some(Parsed(m, tail))
  {
    hide PutU128, TakeU128, PutU64, TakeU64, PutKind, TakeKind, PutU32, TakeU32, PutAlgorithm, TakeAlgorithm,
      PutContent, TakeContent;
    var t7 := PutContent(m, tail);
    var t6 := PutU32(m.algorithmVersion, t7);
    var t5 := PutAlgorithm(m.algorithm, t6);
    var t4 := PutU32(m.schemaVersion, t5);
    var t3 := PutKind(m.kind, t4);
    var t2 := PutU64(AsU64(m.generation), t3);
    U128Back(m.jobId, PutU64(AsU64(m.leaseEpoch), t2));
    U64Back(m.leaseEpoch, t2);
    U64Back(m.generation, t3);
    KindBack(m.kind, t4);
    U32Back(m.schemaVersion, t5);
    AlgorithmBack(m.algorithm, t6);
    U32Back(m.algorithmVersion, t7);
    ContentBack(m, tail);
  }

  function PutManifests(ms: seq<Manifest>, tail: Bytes8): (b: Bytes8)
  {
    if ms == [] then tail else PutManifest(ms[0], PutManifests(ms[1..], tail))
  }

  function TakeManifests(b: Bytes8, count: nat): (p: Option<Parsed<seq<Manifest>>>)
    decreases count
  {
    if count == 0 then Some(Parsed([], b))
    else
      var first :- TakeManifest(b);
      var more :- TakeManifests(first.rest, count - 1);
      Some(Parsed([first.value] + more.value, more.rest))
  }

  lemma {:induction false} ManifestsBack(ms: seq<Manifest>, tail: Bytes8)
    requires forall i | 0 <= i < |ms| :: ManifestFits(ms[i])
    ensures TakeManifests(PutManifests(ms, tail), |ms|) == Some(Parsed(ms, tail))
  {
    hide PutManifest, TakeManifest, ManifestFits;
    if ms != [] {
      ManifestBack(ms[0], PutManifests(ms[1..], tail));
      ManifestsBack(ms[1..], tail);
      assert [ms[0]] + ms[1..] == ms;
    }
  }

  function KeyOf(m: Manifest): ArtifactKey
  {
    ArtifactKey(m.kind, m.generation)
  }

  function ManifestPairs(ms: seq<Manifest>): (pairs: seq<Pair<ArtifactKey, Manifest>>)
    ensures |pairs| == |ms| && forall i | 0 <= i < |pairs| :: pairs[i] == Pair(KeyOf(ms[i]), ms[i])
  {
    seq(|ms|, i requires 0 <= i < |ms| => Pair(KeyOf(ms[i]), ms[i]))
  }

  // ----- pins

  function PutKeys(keys: seq<ArtifactKey>, tail: Bytes8): (b: Bytes8)
  {
    if keys == [] then tail else PutKind(keys[0].kind, PutU64(AsU64(keys[0].generation), PutKeys(keys[1..], tail)))
  }

  function TakeKeys(b: Bytes8, count: nat): (p: Option<Parsed<seq<ArtifactKey>>>)
    decreases count
  {
    if count == 0 then Some(Parsed([], b))
    else
      var kind :- TakeKind(b);
      var generation :- TakeU64(kind.rest);
      var more :- TakeKeys(generation.rest, count - 1);
      Some(Parsed([ArtifactKey(kind.value, generation.value)] + more.value, more.rest))
  }

  lemma {:induction false} KeysBack(keys: seq<ArtifactKey>, tail: Bytes8)
    requires forall i | 0 <= i < |keys| :: keys[i].generation <= U64_MAX
    ensures TakeKeys(PutKeys(keys, tail), |keys|) == Some(Parsed(keys, tail))
  {
    hide PutKind, TakeKind, PutU64, TakeU64;
    if keys != [] {
      var rest := PutKeys(keys[1..], tail);
      KindBack(keys[0].kind, PutU64(AsU64(keys[0].generation), rest));
      U64Back(keys[0].generation, rest);
      KeysBack(keys[1..], tail);
      assert [keys[0]] + keys[1..] == keys;
    }
  }

  /** Pins name artifacts, each once. */
  function CollectPins(keys: seq<ArtifactKey>, artifacts: map<ArtifactKey, Manifest>): (pins: Option<set<ArtifactKey>>)
  {
    if (exists i | 0 <= i < |keys| :: keys[i] !in artifacts)
        || (exists i, j | 0 <= i < j < |keys| :: keys[i] == keys[j]) then None
    else Some(set k | k in keys)
  }

  // ----- records

  ghost predicate CountersFit(r: Record)
  {
    && 1 <= r.revision <= U64_MAX && r.leaseEpoch <= U64_MAX && 1 <= r.nextGeneration <= U64_MAX
    && r.attempts <= r.spec.maxAttempts
  }

  ghost predicate ArtifactsFit(artifacts: map<ArtifactKey, Manifest>)
  {
    |artifacts| <= U32_MAX && forall k | k in artifacts :: KeyOf(artifacts[k]) == k && ManifestFits(artifacts[k])
  }

  /** Everything the decoder checks of a record. */
  ghost predicate RecordFits(h: Hashes, r: Record)
  {
    && SpecSound(h, r.spec) && StateFits(r.state) && CountersFit(r)
    && (r.state.Leased() ==> r.state.leaseEpoch == r.leaseEpoch)
    && ArtifactsFit(r.artifacts) && r.pins <= r.artifacts.Keys
  }

  function PutCounters(r: Record, tail: Bytes8): (b: Bytes8)
  {
    PutU64(AsU64(r.revision), PutU64(AsU64(r.leaseEpoch), PutU32(AsU32(r.attempts), PutU64(AsU64(r.nextGeneration),
      PutU64(r.submittedAt, PutU64(r.updatedAt, tail))))))
  }

  datatype Counters = Counters(revision: nat, leaseEpoch: nat, attempts: nat, nextGeneration: nat, submittedAt: U64,
      updatedAt: U64)

  function TakeCounters(b: Bytes8): (p: Option<Parsed<Counters>>)
  {
    var revision :- TakeU64(b);
    var epoch :- TakeU64(revision.rest);
    var attempts :- TakeU32(epoch.rest);
    var generation :- TakeU64(attempts.rest);
    var submitted :- TakeU64(generation.rest);
    var updated :- TakeU64(submitted.rest);
    Some(Parsed(Counters(revision.value, epoch.value, attempts.value, generation.value, submitted.value,
        updated.value), updated.rest))
  }

  lemma CountersBack(r: Record, tail: Bytes8)
    requires CountersFit(r)
    ensures TakeCounters(PutCounters(r, tail))
         == Some(Parsed(Counters(r.revision, r.leaseEpoch, r.attempts, r.nextGeneration, r.submittedAt, r.updatedAt),
             tail))
  {
    hide PutU64, TakeU64, PutU32, TakeU32;
    var t5 := PutU64(r.updatedAt, tail);
    var t4 := PutU64(r.submittedAt, t5);
    var t3 := PutU64(AsU64(r.nextGeneration), t4);
    var t2 := PutU32(AsU32(r.attempts), t3);
    U64Back(r.revision, PutU64(AsU64(r.leaseEpoch), t2));
    U64Back(r.leaseEpoch, t2);
    U32Back(r.attempts, t3);
    U64Back(r.nextGeneration, t4);
    U64Back(r.submittedAt, t5);
    U64Back(r.updatedAt, tail);
  }

  /** The manifests in key order. */
  ghost function ManifestList(artifacts: map<ArtifactKey, Manifest>): (ms: seq<Manifest>)
    ensures var order := ArtifactsInOrderOf(artifacts.Keys);
      |ms| == |order| && forall i | 0 <= i < |ms| :: order[i] in artifacts && ms[i] == artifacts[order[i]]
  {
    var order := ArtifactsInOrderOf(artifacts.Keys);
    assert forall i | 0 <= i < |order| :: order[i] in order;
    seq(|order|, i requires 0 <= i < |order| => artifacts[order[i]])
  }

  ghost function PutArtifacts(r: Record, tail: Bytes8): (b: Bytes8)
  {
    PutU32(AsU32(|r.artifacts|), PutManifests(ManifestList(r.artifacts),
        PutU32(AsU32(|r.pins|), PutKeys(ArtifactsInOrderOf(r.pins), tail))))
  }

  datatype Artifacts = Artifacts(manifests: map<ArtifactKey, Manifest>, pins: set<ArtifactKey>)

  function TakeArtifacts(b: Bytes8): (p: Option<Parsed<Artifacts>>)
  {
    var count :- TakeU32(b);
    var ms :- TakeManifests(count.rest, count.value);
    var artifacts :- Collect(ManifestPairs(ms.value));
    var pinCount :- TakeU32(ms.rest);
    var keys :- TakeKeys(pinCount.rest, pinCount.value);
    var pins :- CollectPins(keys.value, artifacts);
    Some(Parsed(Artifacts(artifacts, pins), keys.rest))
  }

  lemma {:induction false} ArtifactCount(s: seq<ArtifactKey>, keys: set<ArtifactKey>)
    requires ArtifactsInOrder(s, keys)
    ensures |s| == |keys| && forall i, j | 0 <= i < j < |s| :: s[i] != s[j]
  {
    forall i, j | 0 <= i < j < |s|
      ensures s[i] != s[j]
    {
      Ascending.LessIsTotal(OrderKey(s[i]), OrderKey(s[i]));
    }
    CountDistinct(s, keys);
  }

  lemma {:induction false} CountDistinct(s: seq<ArtifactKey>, keys: set<ArtifactKey>)
    requires (forall i, j | 0 <= i < j < |s| :: s[i] != s[j]) && forall k :: k in s <==> k in keys
    ensures |s| == |keys|
  {
    if s == [] {
      assert forall k | k in keys :: k in s;
      assert keys == {};
    } else {
      var last := s[|s| - 1];
      assert last in s;
      CountDistinct(s[..|s| - 1], keys - {last});
    }
  }

  lemma ManifestEntries(artifacts: map<ArtifactKey, Manifest>)
    requires ArtifactsFit(artifacts)
    ensures Entries(ManifestPairs(ManifestList(artifacts)), artifacts)
    ensures |ManifestList(artifacts)| == |artifacts|
    ensures forall i | 0 <= i < |artifacts| :: ManifestFits(ManifestList(artifacts)[i])
  {
    hide ManifestFits, ArtifactsInOrderOf;
    var order := ArtifactsInOrderOf(artifacts.Keys);
    ArtifactCount(order, artifacts.Keys);
    var pairs := ManifestPairs(ManifestList(artifacts));
    forall k | k in artifacts
      ensures exists i :: 0 <= i < |pairs| && pairs[i].key == k
    {
      assert k in order;
      var i :| 0 <= i < |order| && order[i] == k;
      assert pairs[i].key == k;
    }
  }

  lemma PinsBack(pins: set<ArtifactKey>, artifacts: map<ArtifactKey, Manifest>)
    requires pins <= artifacts.Keys && ArtifactsFit(artifacts)
    ensures var keys := ArtifactsInOrderOf(pins);
      && CollectPins(keys, artifacts) == Some(pins)
      && |keys| == |pins| <= |artifacts|
      && forall i | 0 <= i < |keys| :: keys[i].generation <= U64_MAX
  {
    hide ArtifactsInOrderOf;
    var keys := ArtifactsInOrderOf(pins);
    ArtifactCount(keys, pins);
    SubsetSize(pins, artifacts.Keys);
    forall i | 0 <= i < |keys|
      ensures keys[i] in artifacts && keys[i].generation <= U64_MAX
    {
      assert keys[i] in keys;
      assert ManifestFits(artifacts[keys[i]]);
    }
    assert (set k | k in keys) == pins;
  }

  lemma SubsetSize(a: set<ArtifactKey>, b: set<ArtifactKey>)
    requires a <= b
    ensures |a| <= |b|
  {
    var rest := b - a;
    assert b == a + rest;
  }

  lemma ArtifactsBack(r: Record, tail: Bytes8)
    requires ArtifactsFit(r.artifacts) && r.pins <= r.artifacts.Keys
    ensures TakeArtifacts(PutArtifacts(r, tail)) == Some(Parsed(Artifacts(r.artifacts, r.pins), tail))
  {
    hide PutU32, TakeU32, PutManifests, TakeManifests, PutKeys, TakeKeys, Collect, CollectPins, ManifestList,
      ManifestPairs, ArtifactsInOrderOf, ManifestFits, Entries;
    ManifestEntries(r.artifacts);
    PinsBack(r.pins, r.artifacts);
    var ms, keys := ManifestList(r.artifacts), ArtifactsInOrderOf(r.pins);
    var t3 := PutKeys(keys, tail);
    var t2 := PutU32(AsU32(|r.pins|), t3);
    U32Back(|r.artifacts|, PutManifests(ms, t2));
    ManifestsBack(ms, t2);
    CollectBack(ManifestPairs(ms), r.artifacts);
    U32Back(|r.pins|, t3);
    KeysBack(keys, tail);
  }

  ghost function PutRecord(r: Record, tail: Bytes8): (b: Bytes8)
  {
    PutSpec(r.spec, PutState(r.state, PutCounters(r, PutArtifacts(r, tail))))
  }

  function TakeRecord(h: Hashes, b: Bytes8): (p: Option<Parsed<Record>>)
  {
    var spec :- TakeSpec(h, b);
    var state :- TakeState(spec.rest);
    var counters :- TakeCounters(state.rest);
    var artifacts :- TakeArtifacts(counters.rest);
    var c := counters.value;
    if c.revision == 0 || c.nextGeneration == 0 || c.attempts > spec.value.maxAttempts then None
    else if state.value.Leased() && state.value.leaseEpoch != c.leaseEpoch then None
    else
      Some(Parsed(Record(spec.value, state.value, c.revision, c.leaseEpoch, c.attempts, c.nextGeneration,
                         artifacts.value.manifests, artifacts.value.pins, c.submittedAt, c.updatedAt), artifacts.rest))
  }

  lemma RecordBack(h: Hashes, r: Record, tail: Bytes8)
    requires RecordFits(h, r)
    ensures TakeRecord(h, PutRecord(r, tail)) == Some(Parsed(r, tail))
  {
    hide PutSpec, TakeSpec, PutState, TakeState, PutCounters, TakeCounters, PutArtifacts, TakeArtifacts, SpecSound,
      StateFits, ArtifactsFit;
    var t3 := PutArtifacts(r, tail);
    var t2 := PutCounters(r, t3);
    var t1 := PutState(r.state, t2);
    SpecBack(h, r.spec, t1);
    StateBack(r.state, t2);
    CountersBack(r, t3);
    ArtifactsBack(r, tail);
  }

  ghost function PutRecords(rs: seq<Record>, tail: Bytes8): (b: Bytes8)
  {
    if rs == [] then tail else PutRecord(rs[0], PutRecords(rs[1..], tail))
  }

  function TakeRecords(h: Hashes, b: Bytes8, count: nat): (p: Option<Parsed<seq<Record>>>)
    decreases count
  {
    if count == 0 then Some(Parsed([], b))
    else
      var first :- TakeRecord(h, b);
      var more :- TakeRecords(h, first.rest, count - 1);
      Some(Parsed([first.value] + more.value, more.rest))
  }

  lemma {:induction false} RecordsBack(h: Hashes, rs: seq<Record>, tail: Bytes8)
    requires forall i | 0 <= i < |rs| :: RecordFits(h, rs[i])
    ensures TakeRecords(h, PutRecords(rs, tail), |rs|) == Some(Parsed(rs, tail))
  {
    hide PutRecord, TakeRecord, RecordFits;
    if rs != [] {
      RecordBack(h, rs[0], PutRecords(rs[1..], tail));
      RecordsBack(h, rs[1..], tail);
      assert [rs[0]] + rs[1..] == rs;
    }
  }

  // ----- the snapshot

  const MAGIC: Bytes8 := [0x44, 0x54, 0x47, 0x4C]
  const VERSION: U32 := 1

  ghost function RecordList(records: Records): (rs: seq<Record>)
    ensures var order := InOrderOf(records.Keys);
      |rs| == |order| && forall i | 0 <= i < |rs| :: order[i] in records && rs[i] == records[order[i]]
  {
    var order := InOrderOf(records.Keys);
    assert forall i | 0 <= i < |order| :: order[i] in order;
    seq(|order|, i requires 0 <= i < |order| => records[order[i]])
  }

  function RecordPairs(rs: seq<Record>): (pairs: seq<Pair<U128, Record>>)
    ensures |pairs| == |rs| && forall i | 0 <= i < |pairs| :: pairs[i] == Pair(rs[i].spec.id, rs[i])
  {
    seq(|rs|, i requires 0 <= i < |rs| => Pair(rs[i].spec.id, rs[i]))
  }

  ghost function PutBody(duration: U64, records: Records): (b: Bytes8)
    ensures |b| >= 12
  {
    PutU64(duration, PutU32(AsU32(|records|), PutRecords(RecordList(records), [])))
  }

  ghost function EncodeSnapshot(h: Hashes, duration: U64, records: Records): (b: Bytes8)
  {
    var content := MAGIC + BigEndian(VERSION, 4) + PutBody(duration, records);
    content + (h.content)(content)
  }

  datatype Ledger = Ledger(duration: U64, records: Records)

  function DecodeSnapshot(h: Hashes, bytes: Bytes8): (r: Option<Ledger>)
  {
    if |bytes| < 4 + 4 + 8 + 4 + 32 || bytes[..4] != MAGIC then None
    else if FromBigEndian(bytes[4..8]) != VERSION then None
    else if (h.content)(bytes[..|bytes| - 32]) != bytes[|bytes| - 32..] then None
    else TakeBody(h, bytes[8..|bytes| - 32])
  }

  function TakeBody(h: Hashes, b: Bytes8): (r: Option<Ledger>)
  {
    var duration :- TakeU64(b);
    var count :- TakeU32(duration.rest);
    var rs :- TakeRecords(h, count.rest, count.value);
    var records :- Collect(RecordPairs(rs.value));
    if rs.rest != [] || duration.value == 0 then None else Some(Ledger(duration.value, records))
  }

  /** Every record fits, and is kept under its own identifier. */
  ghost predicate LedgerFits(h: Hashes, duration: U64, records: Records)
  {
    duration > 0 && |records| <= U32_MAX && forall j | j in records ::
        records[j].spec.id == j && RecordFits(h, records[j])
  }

  lemma RecordEntries(h: Hashes, duration: U64, records: Records)
    requires LedgerFits(h, duration, records)
    ensures Entries(RecordPairs(RecordList(records)), records)
    ensures |RecordList(records)| == |records| && forall i | 0 <= i < |records| :: RecordFits(h, RecordList(records)[i])
  {
    hide RecordFits, InOrderOf;
    var order := InOrderOf(records.Keys);
    OrderedSize(order, records.Keys);
    var pairs := RecordPairs(RecordList(records));
    forall k | k in records
      ensures exists i :: 0 <= i < |pairs| && pairs[i].key == k
    {
      assert k in order;
      var i :| 0 <= i < |order| && order[i] == k;
      assert pairs[i].key == k;
    }
  }

  lemma BodyBack(h: Hashes, duration: U64, records: Records)
    requires LedgerFits(h, duration, records)
    ensures TakeBody(h, PutBody(duration, records)) == Some(Ledger(duration, records))
  {
    hide PutU64, TakeU64, PutU32, TakeU32, PutRecords, TakeRecords, Collect, RecordList, RecordPairs, RecordFits,
      Entries;
    RecordEntries(h, duration, records);
    var rs := RecordList(records);
    U64Back(duration, PutU32(AsU32(|records|), PutRecords(rs, [])));
    U32Back(|records|, PutRecords(rs, []));
    RecordsBack(h, rs, []);
    CollectBack(RecordPairs(rs), records);
  }

  /** Decoding the snapshot of a fitting ledger gives the ledger. */
  lemma SnapshotRoundTrip(h: Hashes, duration: U64, records: Records)
    requires LedgerFits(h, duration, records)
    ensures DecodeSnapshot(h, EncodeSnapshot(h, duration, records)) == Some(Ledger(duration, records))
  {
    hide BigEndian, FromBigEndian, PutBody, TakeBody, LedgerFits;
    var body, version := PutBody(duration, records), BigEndian(VERSION, 4);
    var content := MAGIC + version + body;
    var bytes := EncodeSnapshot(h, duration, records);
    assert bytes[..4] == MAGIC;
    assert bytes[4..8] == version;
    assert bytes[..|bytes| - 32] == content && bytes[|bytes| - 32..] == (h.content)(content);
    assert bytes[8..|bytes| - 32] == body;
    Radixes();
    BigEndianRoundTrip(VERSION, 4);
    BodyBack(h, duration, records);
  }

  // ----- reachable ledgers

  /**
   * What callers of the ledger hand in: constructed specifications, manifests of real artifacts, failure codes that are
   * text.
   */
  ghost predicate OpSound(h: Hashes, op: Op)
  {
    && (op.Submit? ==> SpecSound(h, op.spec))
    && (op.Checkpoint? || op.Publish? ==> op.manifest.chunkCount != 0 && op.manifest.totalBytes != 0)
    && (op.Fail? ==> ValidUtf8(op.code))
  }

  /** What a record got from outside is sound. */
  ghost predicate OriginSound(h: Hashes, r: Record)
  {
    && SpecSound(h, r.spec)
    && (forall k | k in r.artifacts :: r.artifacts[k].chunkCount != 0 && r.artifacts[k].totalBytes != 0)
    && (r.state.Failed? ==> ValidUtf8(r.state.code))
  }

  lemma {:induction false} AsciiIsUtf8(s: Bytes8)
    requires forall i | 0 <= i < |s| :: s[i] < 128
    ensures ValidUtf8(s)
  {
    if s != [] {
      AsciiIsUtf8(s[1..]);
    }
  }

  lemma ExpiryCodeIsText()
    ensures ValidUtf8(LEASE_EXPIRED_CODE)
  {
    AsciiIsUtf8(LEASE_EXPIRED_CODE);
  }

  lemma RecordKeepsOrigin(h: Hashes, duration: U64, r: Record, op: Op)
    requires Single(op) && Early(duration, op).None? && OriginSound(h, r) && OpSound(h, op)
    ensures OriginSound(h, OnRecord(duration, r, op).record)
  {
    hide SpecSound, ValidUtf8, HighestCheckpoint;
  }

  lemma ExpiryKeepsOrigin(h: Hashes, r: Record, now: U64)
    requires OriginSound(h, r)
    ensures OriginSound(h, ExpireRecord(r, now))
  {
    hide SpecSound, ValidUtf8, LEASE_EXPIRED_CODE;
    ExpiryCodeIsText();
  }

  lemma {:induction false} RunsHaveOrigin(h: Hashes, duration: U64, ops: seq<Op>, j: U128)
    requires j in After(duration, ops) && forall i | 0 <= i < |ops| :: OpSound(h, ops[i])
    ensures After(duration, ops)[j].spec.id == j && OriginSound(h, After(duration, ops)[j])
    decreases |ops|
  {
    hide OriginSound, OnRecord, ExpireRecord;
    var front, op := ops[..|ops| - 1], ops[|ops| - 1];
    if j in After(duration, front) {
      var r := After(duration, front)[j];
      RunsHaveOrigin(h, duration, front, j);
      StepMoves(duration, After(duration, front), op, j);
      if op.Expire? {
        ExpiryKeepsOrigin(h, r, op.now);
      } else if Single(op) && Early(duration, op).None? && Target(op) == j {
        RecordKeepsOrigin(h, duration, r, op);
      }
    } else {
      NewHasOrigin(h, op.spec, op.at);
    }
  }

  lemma NewHasOrigin(h: Hashes, spec: Spec, at: U64)
    requires SpecSound(h, spec)
    ensures OriginSound(h, NewRecord(spec, at))
  {
  }

  lemma ReachableManifestFits(h: Hashes, r: Record, k: ArtifactKey)
    requires RecordSound(r) && OriginSound(h, r) && k in r.artifacts && r.leaseEpoch <= U64_MAX
    requires r.nextGeneration <= U64_MAX
    ensures KeyOf(r.artifacts[k]) == k && ManifestFits(r.artifacts[k])
  {
    assert ManifestSound(r, k, r.artifacts[k]);
    SpecNumbers(h, r.spec);
  }

  lemma ReachableRecordFits(h: Hashes, r: Record)
    requires RecordSound(r) && OriginSound(h, r) && r.revision <= U64_MAX && r.leaseEpoch <= U64_MAX
    requires r.nextGeneration <= U64_MAX && |r.artifacts| <= U32_MAX
    ensures RecordFits(h, r)
  {
    hide ManifestFits, SpecSound, ValidUtf8;
    forall k | k in r.artifacts
      ensures KeyOf(r.artifacts[k]) == k && ManifestFits(r.artifacts[k])
    {
      ReachableManifestFits(h, r, k);
    }
  }

  /**
   * Every ledger that operations can reach, with fewer than 2^32 jobs and artifacts, survives encoding and decoding
   * unchanged.
   */
  lemma ReachableRoundTrip(h: Hashes, duration: U64, ops: seq<Op>)
    requires duration > 0 && |ops| <= U64_MAX && forall i | 0 <= i < |ops| :: OpSound(h, ops[i])
    requires var records := After(duration, ops);
      |records| <= U32_MAX && forall j | j in records :: |records[j].artifacts| <= U32_MAX
    ensures DecodeSnapshot(h, EncodeSnapshot(h, duration, After(duration, ops)))
         == Some(Ledger(duration, After(duration, ops)))
  {
    hide RecordFits, RecordSound, OriginSound, DecodeSnapshot, EncodeSnapshot, After, OpSound;
    var records := After(duration, ops);
    forall j | j in records
      ensures records[j].spec.id == j && RecordFits(h, records[j])
    {
      RunsAreSound(duration, ops, j);
      RunsHaveOrigin(h, duration, ops, j);
      CountersBounded(duration, ops, j);
      ReachableRecordFits(h, records[j]);
    }
    SnapshotRoundTrip(h, duration, records);
  }
}

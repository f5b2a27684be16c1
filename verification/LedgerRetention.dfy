/** What the ledger keeps: checkpoints for the next attempt, results until they are released. */
module LedgerRetention {
  import opened Wrappers
  import opened Jobs
  import opened LedgerSteps
  import opened LedgerRuns

  // ----- checkpoints

  /** A job that can still run keeps its latest checkpoint pinned, and a running one runs from it. */
  ghost predicate CheckpointKept(r: Record)
  {
    var highest := HighestCheckpoint(r.artifacts.Keys);
    && (!r.state.Terminal() && highest.Some? ==> ArtifactKey(CheckpointArtifact, highest.value) in r.pins)
    && (r.state.Running? ==> r.state.checkpoint == highest)
  }

  /** The operation is a checkpoint whose new expiry could not be computed. */
  ghost predicate Overflows(duration: U64, ops: seq<Op>, i: nat)
  {
    i < |ops| && ops[i].Checkpoint? && ReplyAt(duration, ops, i) == Err(TimeOverflow)
  }

  /** The artifact just stored is the latest. */
  lemma StoredIsHighest(r: Record, manifest: Manifest)
    requires ArtifactsSound(r) && manifest.kind.CheckpointArtifact? && manifest.generation == r.nextGeneration
    ensures HighestCheckpoint(Store(r, manifest).artifacts.Keys) == Some(manifest.generation)
  {
    var keys := Store(r, manifest).artifacts.Keys;
    forall k | k in keys && k.kind.CheckpointArtifact?
      ensures k.generation <= manifest.generation
    {
      assert k in r.artifacts || k == ArtifactKey(CheckpointArtifact, manifest.generation);
    }
    HighestIs(keys, Some(manifest.generation));
  }

  /** A checkpoint that passes its checks leaves the record in order exactly when the new expiry does not overflow. */
  lemma CheckpointKeepsIff(duration: U64, r: Record, lease: Lease, manifest: Manifest, now: U64)
    requires RecordSound(r) && CheckpointKept(r)
    requires CheckActive(r, lease, now).None? && r.state.Running?
    requires CheckArtifact(r, lease, manifest, CheckpointArtifact).None?
    ensures CheckpointKept(CheckpointRecord(duration, r, lease, manifest, now).record) <==> now + duration <= U64_MAX
  {
    StoredIsHighest(r, manifest);
    HighestIsBelow(r);
  }

  lemma RecordKeepsCheckpoint(duration: U64, r: Record, op: Op)
    requires Single(op) && Early(duration, op).None? && RecordSound(r) && CheckpointKept(r)
    requires op.Checkpoint? ==> OnRecord(duration, r, op).reply != Err(TimeOverflow)
    ensures CheckpointKept(OnRecord(duration, r, op).record)
  {
    hide HighestCheckpoint, ArtifactsSound;
    var c := OnRecord(duration, r, op);
    if op.Checkpoint? {
      if c.record != r {
        CheckpointKeepsIff(duration, r, op.lease, op.manifest, op.now);
      }
    } else if op.Reclaim? {
      if c.record != r {
        ReclaimKeepsHighest(r, op.manifest);
      }
    }
  }

  /** Reclaiming spares what is pinned, so the pinned latest checkpoint stays the latest. */
  lemma ReclaimKeepsHighest(r: Record, manifest: Manifest)
    requires CheckpointKept(r) && ArtifactKey(manifest.kind, manifest.generation) !in r.pins
    ensures !r.state.Terminal() ==>
              HighestCheckpoint((r.artifacts - {ArtifactKey(manifest.kind, manifest.generation)}).Keys)
                  == HighestCheckpoint(r.artifacts.Keys)
  {
    var key := ArtifactKey(manifest.kind, manifest.generation);
    var keys := (r.artifacts - {key}).Keys;
    var highest := HighestCheckpoint(r.artifacts.Keys);
    if !r.state.Terminal() {
      assert keys <= r.artifacts.Keys;
      if highest.Some? {
        assert ArtifactKey(CheckpointArtifact, highest.value) in keys;
      }
      HighestIs(keys, highest);
    }
  }

  lemma ExpiryKeepsCheckpoint(r: Record, now: U64)
    requires CheckpointKept(r)
    ensures CheckpointKept(ExpireRecord(r, now))
  {
  }

  /** In every run without an overflowing checkpoint, every record keeps its checkpoint. */
  lemma {:induction false} CheckpointsAreKept(duration: U64, ops: seq<Op>, j: U128)
    requires j in After(duration, ops) && forall i | 0 <= i < |ops| :: !Overflows(duration, ops, i)
    ensures CheckpointKept(After(duration, ops)[j])
    decreases |ops|
  {
    hide RecordSound, OnRecord, ExpireRecord, CheckpointKept;
    var front, op := ops[..|ops| - 1], ops[|ops| - 1];
    if j in After(duration, front) {
      var r := After(duration, front)[j];
      forall i | 0 <= i < |front|
        ensures !Overflows(duration, front, i)
      {
        assert front[..i] == ops[..i] && !Overflows(duration, ops, i);
      }
      assert !Overflows(duration, ops, |ops| - 1);
      CheckpointsAreKept(duration, front, j);
      RunsAreSound(duration, front, j);
      if op.Expire? {
        ExpiryKeepsCheckpoint(r, op.now);
      } else if Single(op) && Early(duration, op).None? && Target(op) == j {
        RecordKeepsCheckpoint(duration, r, op);
      }
    } else {
      NewKeeps(op.spec, op.at);
    }
  }

  lemma OverflowIsLate(duration: U64, ops: seq<Op>, i: nat)
    ensures Overflows(duration, ops, i) ==> ops[i].Checkpoint? && ops[i].now + duration > U64_MAX
  {
    hide After;
  }

  /** So they do in every run whose checkpoints come early enough for their new expiry to fit. */
  lemma EarlyCheckpointsAreKept(duration: U64, ops: seq<Op>, j: U128)
    requires j in After(duration, ops)
    requires forall i | 0 <= i < |ops| && ops[i].Checkpoint? :: ops[i].now + duration <= U64_MAX
    ensures CheckpointKept(After(duration, ops)[j])
  {
    hide After, CheckpointKept, Overflows;
    forall i | 0 <= i < |ops| ensures !Overflows(duration, ops, i) { OverflowIsLate(duration, ops, i); }
    CheckpointsAreKept(duration, ops, j);
  }

  /** An overflowing checkpoint always spoils the record it was meant for. */
  lemma OverflowSpoils(duration: U64, ops: seq<Op>, i: nat)
    requires Overflows(duration, ops, i) && ops[i].lease.job in After(duration, ops[..i])
    requires CheckpointKept(After(duration, ops[..i])[ops[i].lease.job])
    ensures ops[i].lease.job in After(duration, ops[..i + 1])
    ensures !CheckpointKept(After(duration, ops[..i + 1])[ops[i].lease.job])
  {
    hide After, CheckpointKept, RecordSound;
    var op, j := ops[i], ops[i].lease.job;
    var r := After(duration, ops[..i])[j];
    AfterNext(duration, ops, i);
    RunsAreSound(duration, ops[..i], j);
    CheckpointKeepsIff(duration, r, op.lease, op.manifest, op.now);
  }

  lemma NewKeeps(spec: Spec, at: U64)
    ensures CheckpointKept(NewRecord(spec, at))
  {
  }

  // ----- the overflowing checkpoint

  const LATE: U64 := U64_MAX - 10

  function CheckpointOf(spec: Spec): Manifest
  {
    Manifest(spec.id, 1, 1, CheckpointArtifact, spec.checkpointSchema, spec.request.algorithm, spec.algorithmVersion,
             spec.snapshotDigest, spec.digest, spec.digest, 1, 1, spec.digest)
  }

  /** A job claimed near the end of time, whose first checkpoint comes when a full lease no longer fits. */
  function OverflowRun(spec: Spec): seq<Op>
  {
    [Submit(spec, LATE),
     Claim(spec.id, 7, LATE, Cas(QueuedKind, 1, 0)),
     Begin(Lease(spec.id, 7, 1, 2, U64_MAX), LATE),
     Checkpoint(Lease(spec.id, 7, 1, 3, U64_MAX), CheckpointOf(spec), LATE + 5)]
  }

  lemma OverflowPrefix(spec: Spec)
    requires spec.maxAttempts >= 1
    ensures var records := After(10, OverflowRun(spec)[..3]);
      spec.id in records && records[spec.id]
          == Record(spec, Running(7, 1, U64_MAX, None), 3, 1, 1, 1, map[], {}, LATE, LATE)
  {
    var ops := OverflowRun(spec);
    assert ops[..0] == [];
    AfterNext(10, ops, 0);
    AfterNext(10, ops, 1);
    AfterNext(10, ops, 2);
    var nothing: map<ArtifactKey, Manifest> := map[];
    assert nothing.Keys == {} && HighestCheckpoint(nothing.Keys) == None;
  }

  /** The checkpoint is refused, yet its artifact stays behind, pinned and unknown to the running state. */
  lemma OverflowLosesCheckpoint(spec: Spec)
    requires spec.maxAttempts >= 1
    ensures ReplyAt(10, OverflowRun(spec), 3) == Err(TimeOverflow)
    ensures var records := After(10, OverflowRun(spec)); spec.id in records && !CheckpointKept(records[spec.id])
  {
    var ops := OverflowRun(spec);
    OverflowPrefix(spec);
    AfterNext(10, ops, 3);
    assert ops[..4] == ops;
    var r := After(10, ops[..3])[spec.id];
    StoredIsHighest(r, CheckpointOf(spec));
  }

  // ----- results

  lemma PublishPins(duration: U64, r: Record, op: Op)
    requires op.Publish? && OnRecord(duration, r, op).reply.Ok?
    ensures var s, key := OnRecord(duration, r, op).record, ArtifactKey(ResultArtifact, op.manifest.generation);
      s.state == Succeeded(op.manifest.generation) && key in s.pins && key in s.artifacts
          && s.artifacts[key] == op.manifest
  {
  }

  /** A release: the owner gave the artifact up once its retention had passed. */
  ghost predicate Releases(duration: U64, ops: seq<Op>, m: nat, j: U128, key: ArtifactKey)
  {
    && m < |ops| && ops[m].Unpin? && ops[m].job == j && ops[m].key == key && ReplyAt(duration, ops, m).Ok?
    && j in After(duration, ops[..m]) && After(duration, ops[..m])[j].spec.retentionUntil <= ops[m].now
  }

  /** Only a release takes the pin of a finished job's artifact, and a pinned artifact keeps its content. */
  lemma RecordKeepsPin(duration: U64, r: Record, op: Op, key: ArtifactKey)
    requires Single(op) && Early(duration, op).None? && RecordSound(r) && r.state.Terminal() && key in r.pins
    ensures var c := OnRecord(duration, r, op);
      || (key in c.record.pins && key in c.record.artifacts && c.record.artifacts[key] == r.artifacts[key])
      || (op.Unpin? && op.key == key && c.reply.Ok? && r.spec.retentionUntil <= op.now)
  {
  }

  lemma ExpiryKeepsPin(r: Record, now: U64)
    requires r.state.Terminal()
    ensures ExpireRecord(r, now) == r
  {
  }

  /** From publication on, the result stays pinned and present until somebody releases it. */
  lemma {:induction false} ResultIsKept(duration: U64, ops: seq<Op>, i: nat, k: nat)
    requires i < k <= |ops| && ops[i].Publish? && ReplyAt(duration, ops, i).Ok?
    ensures var j, key := ops[i].lease.job, ArtifactKey(ResultArtifact, ops[i].manifest.generation);
      || PinnedAs(After(duration, ops[..k]), j, key, ops[i].manifest)
      || exists m :: i < m < k && Releases(duration, ops, m, j, key)
    decreases k - i
  {
    hide RecordSound, OnRecord, ExpireRecord, After, ReplyAt, Step, PinnedAs;
    var j, key := ops[i].lease.job, ArtifactKey(ResultArtifact, ops[i].manifest.generation);
    if k == i + 1 {
      SuccessMoves(duration, ops, i);
      PublishPins(duration, After(duration, ops[..i])[j], ops[i]);
      NowPinned(After(duration, ops[..k]), j, key, ops[i].manifest);
    } else {
      ResultIsKept(duration, ops, i, k - 1);
      if !(exists m :: i < m < k - 1 && Releases(duration, ops, m, j, key)) {
        SuccessMoves(duration, ops, i);
        PublishEnds(duration, After(duration, ops[..i])[j], ops[i]);
        RevisionsGrow(duration, ops, i + 1, k - 1, j);
        KeepsOrReleases(duration, ops, k - 1, j, key, ops[i].manifest);
      }
    }
  }

  ghost predicate PinnedAs(records: Records, j: U128, key: ArtifactKey, manifest: Manifest)
  {
    j in records && key in records[j].pins && key in records[j].artifacts && records[j].artifacts[key] == manifest
  }

  lemma NowPinned(records: Records, j: U128, key: ArtifactKey, manifest: Manifest)
    requires j in records && key in records[j].pins && key in records[j].artifacts
    requires records[j].artifacts[key] == manifest
    ensures PinnedAs(records, j, key, manifest)
  {
  }

  lemma KeepsOrReleases(duration: U64, ops: seq<Op>, m: nat, j: U128, key: ArtifactKey, manifest: Manifest)
    requires m < |ops| && PinnedAs(After(duration, ops[..m]), j, key, manifest)
    requires After(duration, ops[..m])[j].state.Terminal()
    ensures PinnedAs(After(duration, ops[..m + 1]), j, key, manifest) || Releases(duration, ops, m, j, key)
  {
    hide RecordSound, OnRecord, ExpireRecord, After;
    var r, op := After(duration, ops[..m])[j], ops[m];
    AfterNext(duration, ops, m);
    RunsAreSound(duration, ops[..m], j);
    if op.Expire? {
      ExpiryKeepsPin(r, op.now);
    } else if Single(op) && Early(duration, op).None? && Target(op) == j {
      RecordKeepsPin(duration, r, op, key);
    }
  }
}

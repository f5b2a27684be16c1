/** The job ledger as a state machine: what each operation does to the records. */
module LedgerSteps {
  import opened Wrappers
  import opened ByteStrings
  import opened Jobs
  import opened KeyOrder

  type Records = map<U128, Record>

  datatype Op =
    | Submit(spec: Spec, at: U64)
    | Claim(job: U128, worker: WorkerId, now: U64, expected: Cas)
    | Begin(lease: Lease, now: U64)
    | Renew(lease: Lease, now: U64)
    | Checkpoint(lease: Lease, manifest: Manifest, now: U64)
    | Publish(lease: Lease, manifest: Manifest, now: U64)
    | Fail(lease: Lease, retryable: bool, code: Bytes8, now: U64)
    | Cancel(job: U128, expected: Cas, now: U64)
    | Expire(now: U64, budget: nat, stopAfter: Option<nat>)
    | Pin(job: U128, key: ArtifactKey, expected: Cas, now: U64)
    | Unpin(job: U128, key: ArtifactKey, expected: Cas, now: U64)
    | Reclaim(job: U128, expected: Cas, manifest: Manifest, now: U64)
    | Tombstone(job: U128, expected: Cas, now: U64)

  type Reply = Result<Option<Lease>, JobError>
  datatype Change = Change(record: Record, reply: Reply)
  datatype Stepped = Stepped(records: Records, reply: Reply)

  // ----- checks

  function CheckCas(r: Record, expected: Cas): (error: Option<JobError>)
  {
    if r.revision != expected.revision then Some(StaleRevision)
    else if r.leaseEpoch != expected.leaseEpoch then Some(StaleLease)
    else if r.state.Kind() != expected.kind then Some(StaleState)
    else None
  }

  /** A lease is honoured while its epoch, worker and revision are current and it has not expired. */
  function CheckActive(r: Record, lease: Lease, now: U64): (error: Option<JobError>)
  {
    if !r.state.Leased() then Some(StaleLease)
    else if r.state.leaseEpoch != lease.leaseEpoch || r.state.worker != lease.worker then Some(StaleLease)
    else if r.revision != lease.revision then Some(StaleRevision)
    else if r.state.expiresAt <= now then Some(LeaseExpired)
    else None
  }

  function CheckArtifact(r: Record, lease: Lease, manifest: Manifest, kind: ArtifactKind): (error: Option<JobError>)
  {
    var schema := if kind.CheckpointArtifact? then r.spec.checkpointSchema else r.spec.resultSchema;
    if || manifest.jobId != r.spec.id || manifest.leaseEpoch != lease.leaseEpoch || manifest.kind != kind
       || manifest.schemaVersion != schema || manifest.algorithm != r.spec.request.algorithm
       || manifest.algorithmVersion != r.spec.algorithmVersion || manifest.snapshotDigest != r.spec.snapshotDigest
       || manifest.specDigest != r.spec.digest
    then Some(ArtifactMismatch)
    else if manifest.generation != r.nextGeneration then Some(StaleGeneration)
    else None
  }

  // ----- the highest checkpoint

  ghost predicate IsHighest(keys: set<ArtifactKey>, g: nat)
  {
    && ArtifactKey(CheckpointArtifact, g) in keys
    && forall k | k in keys && k.kind.CheckpointArtifact? :: k.generation <= g
  }

  ghost predicate HasCheckpoint(keys: set<ArtifactKey>)
  {
    exists k :: k in keys && k.kind.CheckpointArtifact?
  }

  /** Finds the last checkpoint key in key order. */
  method FindHighest(keys: set<ArtifactKey>) returns (g: Option<nat>)
    ensures g == HighestCheckpoint(keys)
  {
    g := None;
    var rest := keys;
    while rest != {}
      invariant rest <= keys
      invariant g.None? ==> !HasCheckpoint(keys - rest)
      invariant g.Some? ==> IsHighest(keys - rest, g.value)
    {
      var k :| k in rest;
      if k.kind.CheckpointArtifact? && (g.None? || k.generation > g.value) {
        g := Some(k.generation);
        assert k == ArtifactKey(CheckpointArtifact, k.generation);
      }
      rest := rest - {k};
    }
    assert keys - rest == keys;
    HighestIs(keys, g);
  }

  lemma {:induction false} HighestExists(keys: set<ArtifactKey>)
    requires HasCheckpoint(keys)
    ensures exists g :: IsHighest(keys, g)
    decreases |keys|
  {
    var k :| k in keys && k.kind.CheckpointArtifact?;
    var rest := keys - {k};
    assert k == ArtifactKey(CheckpointArtifact, k.generation);
    if HasCheckpoint(rest) {
      HighestExists(rest);
      var g: nat :| IsHighest(rest, g);
      var h := if g < k.generation then k.generation else g;
      forall x | x in keys && x.kind.CheckpointArtifact?
        ensures x.generation <= h
      {
        assert x != k ==> x in rest;
      }
      assert IsHighest(keys, h);
    } else {
      assert IsHighest(keys, k.generation);
    }
  }

  ghost function HighestCheckpoint(keys: set<ArtifactKey>): (g: Option<nat>)
    ensures g.None? <==> !HasCheckpoint(keys)
    ensures g.Some? ==> IsHighest(keys, g.value)
  {
    if HasCheckpoint(keys) then
      HighestExists(keys);
      var g :| IsHighest(keys, g);
      Some(g)
    else None
  }

  lemma HighestIs(keys: set<ArtifactKey>, g: Option<nat>)
    requires g.None? ==> !HasCheckpoint(keys)
    requires g.Some? ==> IsHighest(keys, g.value)
    ensures g == HighestCheckpoint(keys)
  {
  }

  // ----- operations on one record

  /** Moves on to a new revision. */
  function Touch(r: Record, state: JobState, now: U64): Record
  {
    r.(state := state, revision := r.revision + 1, updatedAt := now)
  }

  function LeaseOf(r: Record, lease: Lease, expiresAt: U64): Lease
  {
    Lease(lease.job, lease.worker, lease.leaseEpoch, r.revision, expiresAt)
  }

  function Refuse(r: Record, error: JobError): Change
  {
    Change(r, Err(error))
  }

  function ClaimRecord(duration: U64, r: Record, job: U128, worker: WorkerId, now: U64, expected: Cas): Change
    requires now + duration <= U64_MAX
  {
    var stale := CheckCas(r, expected);
    if stale.Some? then Refuse(r, stale.value)
    else if !r.state.Queued? || r.attempts >= r.spec.maxAttempts then Refuse(r, InvalidTransition)
    else
      var claimed := Touch(r, Claimed(worker, r.leaseEpoch + 1, now + duration), now)
        .(leaseEpoch := r.leaseEpoch + 1, attempts := r.attempts + 1);
      Change(claimed, Ok(Some(Lease(job, worker, claimed.leaseEpoch, claimed.revision, now + duration))))
  }

  ghost function BeginRecord(r: Record, lease: Lease, now: U64): Change
  {
    var stale := CheckActive(r, lease, now);
    if stale.Some? then Refuse(r, stale.value)
    else if !r.state.Claimed? then Refuse(r, StaleState)
    else
      var running := Touch(r, Running(lease.worker, lease.leaseEpoch, lease.expiresAt,
          HighestCheckpoint(r.artifacts.Keys)), now);
      Change(running, Ok(Some(LeaseOf(running, lease, lease.expiresAt))))
  }

  function RenewRecord(duration: U64, r: Record, lease: Lease, now: U64): Change
    requires now + duration <= U64_MAX
  {
    var stale := CheckActive(r, lease, now);
    if stale.Some? then Refuse(r, stale.value)
    else
      var renewed := Touch(r, r.state.(expiresAt := now + duration), now);
      Change(renewed, Ok(Some(LeaseOf(renewed, lease, now + duration))))
  }

  /** Stores an artifact under the next generation, pinned; the checkpoint it replaces loses its pin. */
  function Store(r: Record, manifest: Manifest): Record
  {
    var key := ArtifactKey(manifest.kind, manifest.generation);
    var kept := if r.state.Running? && r.state.checkpoint.Some? then
        r.pins - {ArtifactKey(CheckpointArtifact, r.state.checkpoint.value)} else r.pins;
    r.(artifacts := r.artifacts[key := manifest], pins := kept + {key}, nextGeneration := r.nextGeneration + 1)
  }

  /** The new expiry is computed last: when it overflows, the artifact is already stored. */
  function CheckpointRecord(duration: U64, r: Record, lease: Lease, manifest: Manifest, now: U64): Change
  {
    var stale := CheckActive(r, lease, now);
    if stale.Some? then Refuse(r, stale.value)
    else if !r.state.Running? then Refuse(r, StaleState)
    else
      var bad := CheckArtifact(r, lease, manifest, CheckpointArtifact);
      if bad.Some? then Refuse(r, bad.value)
      else if now + duration > U64_MAX then Change(Touch(Store(r, manifest), r.state, now), Err(TimeOverflow))
      else
        var stored := Touch(Store(r, manifest),
            Running(lease.worker, lease.leaseEpoch, now + duration, Some(manifest.generation)), now);
        Change(stored, Ok(Some(LeaseOf(stored, lease, now + duration))))
  }

  function PublishRecord(r: Record, lease: Lease, manifest: Manifest, now: U64): Change
  {
    var stale := CheckActive(r, lease, now);
    if stale.Some? then Refuse(r, stale.value)
    else if !r.state.Running? then Refuse(r, StaleState)
    else
      var bad := CheckArtifact(r, lease, manifest, ResultArtifact);
      if bad.Some? then Refuse(r, bad.value)
      else Change(Touch(Store(r, manifest), Succeeded(manifest.generation), now), Ok(None))
  }

  function FailRecord(r: Record, lease: Lease, retryable: bool, code: Bytes8, now: U64): Change
  {
    var stale := CheckActive(r, lease, now);
    if stale.Some? then Refuse(r, stale.value)
    else
      var again := retryable && r.attempts < r.spec.maxAttempts;
      Change(Touch(r, if again then Queued else Failed(again, code), now).(leaseEpoch := r.leaseEpoch + 1), Ok(None))
  }

  function CancelRecord(r: Record, expected: Cas, now: U64): Change
  {
    var stale := CheckCas(r, expected);
    if stale.Some? then Refuse(r, stale.value)
    else if r.state.Terminal() then Refuse(r, InvalidTransition)
    else Change(Touch(r, CancelledJob, now).(leaseEpoch := r.leaseEpoch + 1), Ok(None))
  }

  /** A lease that has run out sends the job back to the queue, or fails it after its last attempt. */
  function ExpireRecord(r: Record, now: U64): Record
  {
    if !r.state.Leased() || r.state.expiresAt > now then r
    else
      Touch(r, if r.attempts < r.spec.maxAttempts then Queued
          else Failed(false, LEASE_EXPIRED_CODE), now).(leaseEpoch := r.leaseEpoch + 1)
  }

  function PinRecord(r: Record, key: ArtifactKey, expected: Cas, now: U64): Change
  {
    var stale := CheckCas(r, expected);
    if stale.Some? then Refuse(r, stale.value)
    else if r.state.Tombstoned? then Refuse(r, InvalidTransition)
    else if key !in r.artifacts then Refuse(r, ArtifactMismatch)
    else Change(Touch(r, r.state, now).(pins := r.pins + {key}), Ok(None))
  }

  function UnpinRecord(r: Record, key: ArtifactKey, expected: Cas, now: U64): Change
  {
    var stale := CheckCas(r, expected);
    if stale.Some? then Refuse(r, stale.value)
    else if !r.state.Terminal() then Refuse(r, InvalidTransition)
    else if now < r.spec.retentionUntil then Refuse(r, RetentionActive)
    else if key !in r.pins then Refuse(r, ArtifactMismatch)
    else Change(Touch(r, r.state, now).(pins := r.pins - {key}), Ok(None))
  }

  function ReclaimRecord(r: Record, expected: Cas, manifest: Manifest, now: U64): Change
  {
    var key := ArtifactKey(manifest.kind, manifest.generation);
    var stale := CheckCas(r, expected);
    if stale.Some? then Refuse(r, stale.value)
    else if key in r.pins || key !in r.artifacts || r.artifacts[key] != manifest then Refuse(r, ArtifactMismatch)
    else Change(Touch(r, r.state, now).(artifacts := r.artifacts - {key}), Ok(None))
  }

  function TombstoneRecord(r: Record, expected: Cas, now: U64): Change
  {
    var stale := CheckCas(r, expected);
    if stale.Some? then Refuse(r, stale.value)
    else if now < r.spec.retentionUntil then Refuse(r, RetentionActive)
    else if r.pins != {} then Refuse(r, ArtifactPinned)
    else if !r.state.Terminal() || r.state.Tombstoned? then Refuse(r, InvalidTransition)
    else Change(Touch(r, Tombstoned, now), Ok(None))
  }

  // ----- operations on the ledger

  /** What is refused before any record is looked up. */
  function Early(duration: U64, op: Op): (error: Option<JobError>)
  {
    match op
    case Claim(_, _, now, _) => if now + duration > U64_MAX then Some(TimeOverflow) else None
    case Renew(_, now) => if now + duration > U64_MAX then Some(TimeOverflow) else None
    case Fail(_, _, code, _) => if code == [] || |code| > 256 then Some(InvalidSpec) else None
    case _ => None
  }

  predicate Single(op: Op)
  {
    !op.Submit? && !op.Expire?
  }

  function Target(op: Op): U128
    requires Single(op)
  {
    match op
    case Begin(lease, _) => lease.job
    case Renew(lease, _) => lease.job
    case Checkpoint(lease, _, _) => lease.job
    case Publish(lease, _, _) => lease.job
    case Fail(lease, _, _, _) => lease.job
    case Claim(job, _, _, _) => job
    case Cancel(job, _, _) => job
    case Pin(job, _, _, _) => job
    case Unpin(job, _, _, _) => job
    case Reclaim(job, _, _, _) => job
    case Tombstone(job, _, _) => job
  }

  ghost function OnRecord(duration: U64, r: Record, op: Op): Change
    requires Single(op) && Early(duration, op).None?
  {
    match op
    case Claim(job, worker, now, expected) => ClaimRecord(duration, r, job, worker, now, expected)
    case Begin(lease, now) => BeginRecord(r, lease, now)
    case Renew(lease, now) => RenewRecord(duration, r, lease, now)
    case Checkpoint(lease, manifest, now) => CheckpointRecord(duration, r, lease, manifest, now)
    case Publish(lease, manifest, now) => PublishRecord(r, lease, manifest, now)
    case Fail(lease, retryable, code, now) => FailRecord(r, lease, retryable, code, now)
    case Cancel(_, expected, now) => CancelRecord(r, expected, now)
    case Pin(_, key, expected, now) => PinRecord(r, key, expected, now)
    case Unpin(_, key, expected, now) => UnpinRecord(r, key, expected, now)
    case Reclaim(_, expected, manifest, now) => ReclaimRecord(r, expected, manifest, now)
    case Tombstone(_, expected, now) => TombstoneRecord(r, expected, now)
  }

  function NewRecord(spec: Spec, at: U64): Record
  {
    Record(spec, Queued, 1, 0, 0, 1, map[], {}, at, at)
  }

  /** The number of records an expiry pass visits before it ends or is stopped. */
  function Visits(budget: nat, stopAfter: Option<nat>, size: nat): nat
  {
    var all := if budget < size then budget else size;
    if stopAfter.Some? && stopAfter.value < all then stopAfter.value else all
  }

  ghost function ExpireRecords(records: Records, now: U64, visits: nat): Records
  {
    map k | k in records :: if Rank(records.Keys, k) < visits then ExpireRecord(records[k], now) else records[k]
  }

  ghost function Step(duration: U64, records: Records, op: Op): Stepped
  {
    if op.Submit? then
      if op.spec.id in records then
        Stepped(records, if records[op.spec.id].spec.digest == op.spec.digest then Ok(None) else Err(SpecConflict))
      else Stepped(records[op.spec.id := NewRecord(op.spec, op.at)], Ok(None))
    else if op.Expire? then
      if op.budget == 0 then Stepped(records, Err(BudgetExhausted))
      else
        var all := if op.budget < |records| then op.budget else |records|;
        var stopped := op.stopAfter == Some(0) || (op.stopAfter.Some? && op.stopAfter.value < all);
        Stepped(ExpireRecords(records, op.now, Visits(op.budget, op.stopAfter, |records|)),
            if stopped then Err(OperationCancelled) else Ok(None))
    else
      var early := Early(duration, op);
      if early.Some? then Stepped(records, Err(early.value))
      else if Target(op) !in records then Stepped(records, Err(JobNotFound))
      else
        var change := OnRecord(duration, records[Target(op)], op);
        Stepped(records[Target(op) := change.record], change.reply)
  }
}

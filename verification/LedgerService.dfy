/** The job ledger itself: records updated in place, each operation doing what its step says. */
module LedgerService {
  import opened Wrappers
  import opened ByteStrings
  import opened Jobs
  import opened LedgerSteps
  import opened LedgerRuns
  import opened KeyOrder
  import Ascending

  /** Something the garbage collector may take: the artifact and the record it was seen in. */
  datatype Candidate = Candidate(job: U128, expected: Cas, manifest: Manifest)

  /** A finished job past its retention holds this artifact unpinned. */
  ghost predicate Collectable(records: Records, now: U64, c: Candidate)
  {
    && c.job in records
    && var r, key := records[c.job], ArtifactKey(c.manifest.kind, c.manifest.generation);
       r.Token() == c.expected && r.state.Terminal() && r.spec.retentionUntil <= now
       && key in r.artifacts && r.artifacts[key] == c.manifest && key !in r.pins
  }

  /** No collectable artifact comes before this one in key order. */
  ghost predicate FirstCollectable(records: Records, now: U64, c: Candidate)
  {
    forall d | Collectable(records, now, d) :: c.job < d.job || (c.job == d.job && !Earlier(KeyOf(d), KeyOf(c)))
  }

  function KeyOf(c: Candidate): ArtifactKey
  {
    ArtifactKey(c.manifest.kind, c.manifest.generation)
  }

  ghost predicate Earlier(a: ArtifactKey, b: ArtifactKey)
  {
    Ascending.Less(OrderKey(a), OrderKey(b))
  }

  datatype Scan = Found(manifest: Manifest) | OutOfBudget | AllPinned

  /** Looks for the first unpinned artifact of a record within the scan budget. */
  method ScanArtifacts(r: Record, scanned0: nat, scanBudget: nat) returns (result: Result<Scan, JobError>, scanned: nat)
    ensures result.Ok? && result.value.Found? ==>
      exists k :: k in r.artifacts && k !in r.pins && r.artifacts[k] == result.value.manifest
          && forall x | x in r.artifacts && Earlier(x, k) :: x in r.pins
    ensures result.Ok? && result.value.AllPinned? ==> r.artifacts.Keys <= r.pins
  {
    scanned := scanned0;
    var order := OrderedArtifacts(r.artifacts.Keys);
    var i := 0;
    while i < |order|
      invariant 0 <= i <= |order| && forall m | 0 <= m < i :: order[m] in r.pins
    {
      var stopped: bool := *;
      if stopped {
        return Err(OperationCancelled), scanned;
      }
      if scanned == scanBudget {
        return Ok(OutOfBudget), scanned;
      }
      scanned := scanned + 1;
      assert order[i] in order;
      if order[i] !in r.pins {
        PinnedBefore(r, order, i);
        return Ok(Found(r.artifacts[order[i]])), scanned;
      }
      i := i + 1;
    }
    return Ok(AllPinned), scanned;
  }

  lemma PinnedBefore(r: Record, order: seq<ArtifactKey>, i: nat)
    requires ArtifactsInOrder(order, r.artifacts.Keys) && i < |order| && forall m | 0 <= m < i :: order[m] in r.pins
    ensures forall x | x in r.artifacts && Earlier(x, order[i]) :: x in r.pins
  {
    forall x | x in r.artifacts && Earlier(x, order[i]) ensures x in r.pins {
      assert x in order;
      var m :| 0 <= m < |order| && order[m] == x;
      Ascending.LessIsTotal(OrderKey(x), OrderKey(order[i]));
    }
  }

  class AnalyticsLedger {
    const leaseDuration: U64
    var records: Records
    /** The operations since the ledger was empty. */
    ghost var history: seq<Op>

    /** The records are those of the run that led here, so whatever holds of every run holds of this ledger. */
    ghost predicate Valid()
      reads this
    {
      records == After(leaseDuration, history)
    }

    constructor (leaseDuration: U64)
      requires leaseDuration > 0
      ensures Valid() && this.leaseDuration == leaseDuration && history == []
    {
      this.leaseDuration, records, history := leaseDuration, map[], [];
    }

    method SubmitJob(spec: Spec, at: U64) returns (reply: Reply)
      requires Valid()
      modifies this
      ensures Stepped(records, reply) == Step(leaseDuration, old(records), Submit(spec, at))
      ensures Valid() && history == old(history) + [Submit(spec, at)]
    {
      hide After;
      AfterOne(leaseDuration, history, Submit(spec, at));
      history := history + [Submit(spec, at)];
      if spec.id in records {
        return if records[spec.id].spec.digest == spec.digest then Ok(None) else Err(SpecConflict);
      }
      records := records[spec.id := NewRecord(spec, at)];
      return Ok(None);
    }

    method ClaimJob(job: U128, worker: WorkerId, now: U64, expected: Cas) returns (reply: Reply)
      requires Valid()
      modifies this
      ensures Stepped(records, reply) == Step(leaseDuration, old(records), Claim(job, worker, now, expected))
      ensures Valid() && history == old(history) + [Claim(job, worker, now, expected)]
    {
      hide After;
      AfterOne(leaseDuration, history, Claim(job, worker, now, expected));
      history := history + [Claim(job, worker, now, expected)];
      if now + leaseDuration > U64_MAX {
        return Err(TimeOverflow);
      }
      if job !in records {
        return Err(JobNotFound);
      }
      var record := records[job];
      var stale := CheckCas(record, expected);
      if stale.Some? {
        return Err(stale.value);
      }
      if !record.state.Queued? || record.attempts >= record.spec.maxAttempts {
        return Err(InvalidTransition);
      }
      record := record.(leaseEpoch := record.leaseEpoch + 1);
      record := record.(attempts := record.attempts + 1);
      record := record.(revision := record.revision + 1);
      record := record.(updatedAt := now);
      record := record.(state := Claimed(worker, record.leaseEpoch, now + leaseDuration));
      records := records[job := record];
      return Ok(Some(Lease(job, worker, record.leaseEpoch, record.revision, now + leaseDuration)));
    }

    /** The record a lease gives access to. */
    method ActiveRecord(lease: Lease, now: U64) returns (r: Result<Record, JobError>)
      ensures r.Ok? ==> lease.job in records && r.value == records[lease.job] && CheckActive(r.value, lease, now).None?
      ensures r.Err? ==>
                if lease.job in records then CheckActive(records[lease.job], lease, now) == Some(r.error)
                else r.error == JobNotFound
    {
      if lease.job !in records {
        return Err(JobNotFound);
      }
      var record := records[lease.job];
      if !record.state.Leased() {
        return Err(StaleLease);
      }
      if record.state.leaseEpoch != lease.leaseEpoch || record.state.worker != lease.worker {
        return Err(StaleLease);
      }
      if record.revision != lease.revision {
        return Err(StaleRevision);
      }
      if record.state.expiresAt <= now {
        return Err(LeaseExpired);
      }
      return Ok(record);
    }

    method BeginJob(lease: Lease, now: U64) returns (reply: Reply)
      requires Valid()
      modifies this
      ensures Stepped(records, reply) == Step(leaseDuration, old(records), Begin(lease, now))
      ensures Valid() && history == old(history) + [Begin(lease, now)]
    {
      hide After;
      AfterOne(leaseDuration, history, Begin(lease, now));
      history := history + [Begin(lease, now)];
      var record :- ActiveRecord(lease, now);
      if !record.state.Claimed? {
        return Err(StaleState);
      }
      var checkpoint := FindHighest(record.artifacts.Keys);
      record := record.(revision := record.revision + 1);
      record := record.(updatedAt := now);
      record := record.(state := Running(lease.worker, lease.leaseEpoch, lease.expiresAt, checkpoint));
      records := records[lease.job := record];
      return Ok(Some(Lease(lease.job, lease.worker, lease.leaseEpoch, record.revision, lease.expiresAt)));
    }

    method RenewLease(lease: Lease, now: U64) returns (reply: Reply)
      requires Valid()
      modifies this
      ensures Stepped(records, reply) == Step(leaseDuration, old(records), Renew(lease, now))
      ensures Valid() && history == old(history) + [Renew(lease, now)]
    {
      hide After;
      AfterOne(leaseDuration, history, Renew(lease, now));
      history := history + [Renew(lease, now)];
      if now + leaseDuration > U64_MAX {
        return Err(TimeOverflow);
      }
      var record :- ActiveRecord(lease, now);
      record := record.(state := record.state.(expiresAt := now + leaseDuration));
      record := record.(revision := record.revision + 1);
      record := record.(updatedAt := now);
      records := records[lease.job := record];
      return Ok(Some(Lease(lease.job, lease.worker, lease.leaseEpoch, record.revision, now + leaseDuration)));
    }

    method StoreCheckpoint(lease: Lease, manifest: Manifest, now: U64) returns (reply: Reply)
      requires Valid()
      modifies this
      ensures Stepped(records, reply) == Step(leaseDuration, old(records), Checkpoint(lease, manifest, now))
      ensures Valid() && history == old(history) + [Checkpoint(lease, manifest, now)]
    {
      hide After;
      AfterOne(leaseDuration, history, Checkpoint(lease, manifest, now));
      history := history + [Checkpoint(lease, manifest, now)];
      var record :- ActiveRecord(lease, now);
      if !record.state.Running? {
        return Err(StaleState);
      }
      var bad := CheckArtifact(record, lease, manifest, CheckpointArtifact);
      if bad.Some? {
        return Err(bad.value);
      }
      if record.state.checkpoint.Some? {
        record := record.(pins := record.pins - {ArtifactKey(CheckpointArtifact, record.state.checkpoint.value)});
      }
      var generation := manifest.generation;
      record := record.(artifacts := record.artifacts[ArtifactKey(CheckpointArtifact, generation) := manifest]);
      record := record.(pins := record.pins + {ArtifactKey(CheckpointArtifact, generation)});
      record := record.(nextGeneration := record.nextGeneration + 1);
      record := record.(revision := record.revision + 1);
      record := record.(updatedAt := now);
      records := records[lease.job := record];
      if now + leaseDuration > U64_MAX {
        return Err(TimeOverflow);
      }
      record := record.(state := Running(lease.worker, lease.leaseEpoch, now + leaseDuration, Some(generation)));
      records := records[lease.job := record];
      return Ok(Some(Lease(lease.job, lease.worker, lease.leaseEpoch, record.revision, now + leaseDuration)));
    }

    method PublishResult(lease: Lease, manifest: Manifest, now: U64) returns (reply: Reply)
      requires Valid()
      modifies this
      ensures Stepped(records, reply) == Step(leaseDuration, old(records), Publish(lease, manifest, now))
      ensures Valid() && history == old(history) + [Publish(lease, manifest, now)]
    {
      hide After;
      AfterOne(leaseDuration, history, Publish(lease, manifest, now));
      history := history + [Publish(lease, manifest, now)];
      var record :- ActiveRecord(lease, now);
      if !record.state.Running? {
        return Err(StaleState);
      }
      var bad := CheckArtifact(record, lease, manifest, ResultArtifact);
      if bad.Some? {
        return Err(bad.value);
      }
      if record.state.checkpoint.Some? {
        record := record.(pins := record.pins - {ArtifactKey(CheckpointArtifact, record.state.checkpoint.value)});
      }
      var generation := manifest.generation;
      record := record.(artifacts := record.artifacts[ArtifactKey(ResultArtifact, generation) := manifest]);
      record := record.(pins := record.pins + {ArtifactKey(ResultArtifact, generation)});
      record := record.(nextGeneration := record.nextGeneration + 1);
      record := record.(revision := record.revision + 1);
      record := record.(updatedAt := now);
      record := record.(state := Succeeded(generation));
      records := records[lease.job := record];
      return Ok(None);
    }

    method FailJob(lease: Lease, retryable: bool, code: Bytes8, now: U64) returns (reply: Reply)
      requires Valid()
      modifies this
      ensures Stepped(records, reply) == Step(leaseDuration, old(records), Op.Fail(lease, retryable, code, now))
      ensures Valid() && history == old(history) + [Op.Fail(lease, retryable, code, now)]
    {
      hide After;
      AfterOne(leaseDuration, history, Op.Fail(lease, retryable, code, now));
      history := history + [Op.Fail(lease, retryable, code, now)];
      if code == [] || |code| > 256 {
        return Err(InvalidSpec);
      }
      var record :- ActiveRecord(lease, now);
      record := record.(leaseEpoch := record.leaseEpoch + 1);
      record := record.(revision := record.revision + 1);
      record := record.(updatedAt := now);
      if retryable && record.attempts < record.spec.maxAttempts {
        record := record.(state := Queued);
      } else {
        record := record.(state := Failed(retryable && record.attempts < record.spec.maxAttempts, code));
      }
      records := records[lease.job := record];
      return Ok(None);
    }

    method CancelJob(job: U128, expected: Cas, now: U64) returns (reply: Reply)
      requires Valid()
      modifies this
      ensures Stepped(records, reply) == Step(leaseDuration, old(records), Cancel(job, expected, now))
      ensures Valid() && history == old(history) + [Cancel(job, expected, now)]
    {
      hide After;
      AfterOne(leaseDuration, history, Cancel(job, expected, now));
      history := history + [Cancel(job, expected, now)];
      if job !in records {
        return Err(JobNotFound);
      }
      var record := records[job];
      var stale := CheckCas(record, expected);
      if stale.Some? {
        return Err(stale.value);
      }
      if !(record.state.Queued? || record.state.Claimed? || record.state.Running?) {
        return Err(InvalidTransition);
      }
      record := record.(leaseEpoch := record.leaseEpoch + 1);
      record := record.(revision := record.revision + 1);
      record := record.(updatedAt := now);
      record := record.(state := CancelledJob);
      records := records[job := record];
      return Ok(None);
    }

    /** Visits the first `budget` jobs in key order; the caller may stop it between two of them. */
    method ExpireLeases(now: U64, budget: nat, stopAfter: Option<nat>) returns (reply: Reply, expired: nat)
      requires Valid()
      modifies this
      ensures Stepped(records, reply) == Step(leaseDuration, old(records), Expire(now, budget, stopAfter))
      ensures Valid() && history == old(history) + [Expire(now, budget, stopAfter)]
      ensures expired == |Changed(old(records), records)|
    {
      hide ExpireRecord, ExpireRecords, Rank, After;
      AfterOne(leaseDuration, history, Expire(now, budget, stopAfter));
      history := history + [Expire(now, budget, stopAfter)];
      ghost var before := records;
      NoneExpired(before, now);
      NoneChanged(before);
      expired := 0;
      if budget == 0 {
        return Err(BudgetExhausted), expired;
      }
      if stopAfter == Some(0) {
        return Err(OperationCancelled), expired;
      }
      var order := OrderedKeys(records.Keys);
      OrderedSize(order, records.Keys);
      var i := 0;
      while i < |order| && i < budget
        invariant 0 <= i <= |order| && i <= budget
        invariant stopAfter.Some? ==> i <= stopAfter.value
        invariant history == old(history) + [Expire(now, budget, stopAfter)]
        invariant records == ExpireRecords(before, now, i) && expired == |Changed(before, records)|
      {
        if stopAfter == Some(i) {
          return Err(OperationCancelled), expired;
        }
        ExpireNext(before, now, order, i);
        var record := records[order[i]];
        OneMoreChanged(before, records, order[i], now);
        if record.state.Leased() && record.state.expiresAt <= now {
          records := records[order[i] := ExpireRecord(record, now)];
          expired := expired + 1;
        } else {
          assert records[order[i] := record] == records;
        }
        i := i + 1;
      }
      return Ok(None), expired;
    }

    method PinArtifact(job: U128, key: ArtifactKey, expected: Cas, now: U64) returns (reply: Reply)
      requires Valid()
      modifies this
      ensures Stepped(records, reply) == Step(leaseDuration, old(records), Pin(job, key, expected, now))
      ensures Valid() && history == old(history) + [Pin(job, key, expected, now)]
    {
      hide After;
      AfterOne(leaseDuration, history, Pin(job, key, expected, now));
      history := history + [Pin(job, key, expected, now)];
      if job !in records {
        return Err(JobNotFound);
      }
      var record := records[job];
      var stale := CheckCas(record, expected);
      if stale.Some? {
        return Err(stale.value);
      }
      if record.state.Tombstoned? {
        return Err(InvalidTransition);
      }
      if key !in record.artifacts {
        return Err(ArtifactMismatch);
      }
      record := record.(pins := record.pins + {key});
      record := record.(revision := record.revision + 1);
      record := record.(updatedAt := now);
      records := records[job := record];
      return Ok(None);
    }

    method UnpinArtifact(job: U128, key: ArtifactKey, expected: Cas, now: U64) returns (reply: Reply)
      requires Valid()
      modifies this
      ensures Stepped(records, reply) == Step(leaseDuration, old(records), Unpin(job, key, expected, now))
      ensures Valid() && history == old(history) + [Unpin(job, key, expected, now)]
    {
      hide After;
      AfterOne(leaseDuration, history, Unpin(job, key, expected, now));
      history := history + [Unpin(job, key, expected, now)];
      if job !in records {
        return Err(JobNotFound);
      }
      var record := records[job];
      var stale := CheckCas(record, expected);
      if stale.Some? {
        return Err(stale.value);
      }
      if !record.state.Terminal() {
        return Err(InvalidTransition);
      }
      if now < record.spec.retentionUntil {
        return Err(RetentionActive);
      }
      if key !in record.pins {
        return Err(ArtifactMismatch);
      }
      record := record.(pins := record.pins - {key});
      record := record.(revision := record.revision + 1);
      record := record.(updatedAt := now);
      records := records[job := record];
      return Ok(None);
    }

    method AcknowledgeReclaimed(candidate: Candidate, now: U64) returns (reply: Reply)
      requires Valid()
      modifies this
      ensures Stepped(records, reply)
           == Step(leaseDuration, old(records), Reclaim(candidate.job, candidate.expected, candidate.manifest, now))
      ensures Valid() && history == old(history) + [Reclaim(candidate.job, candidate.expected, candidate.manifest, now)]
    {
      hide After;
      AfterOne(leaseDuration, history, Reclaim(candidate.job, candidate.expected, candidate.manifest, now));
      history := history + [Reclaim(candidate.job, candidate.expected, candidate.manifest, now)];
      if candidate.job !in records {
        return Err(JobNotFound);
      }
      var record := records[candidate.job];
      var stale := CheckCas(record, candidate.expected);
      if stale.Some? {
        return Err(stale.value);
      }
      var key := ArtifactKey(candidate.manifest.kind, candidate.manifest.generation);
      if key in record.pins || key !in record.artifacts || record.artifacts[key] != candidate.manifest {
        return Err(ArtifactMismatch);
      }
      record := record.(artifacts := record.artifacts - {key});
      record := record.(revision := record.revision + 1);
      record := record.(updatedAt := now);
      records := records[candidate.job := record];
      return Ok(None);
    }

    /** The first collectable artifact in key order, as far as the scan budget reaches. */
    method NextGcCandidate(now: U64, scanBudget: nat) returns (r: Result<Option<Candidate>, JobError>)
      requires Valid()
      ensures r.Ok? && r.value.Some? ==>
                Collectable(records, now, r.value.value) && FirstCollectable(records, now, r.value.value)
    {
      hide RecordSound, After, FirstCollectable, Earlier;
      RecordsAreSound(leaseDuration, history);
      if scanBudget == 0 {
        return Err(BudgetExhausted);
      }
      var order := OrderedKeys(records.Keys);
      var scanned, i := 0, 0;
      while i < |order|
        invariant 0 <= i <= |order| && forall m, d | 0 <= m < i && Collectable(records, now, d) :: d.job != order[m]
      {
        var stopped: bool := *;
        if stopped {
          return Err(OperationCancelled);
        }
        if scanned == scanBudget {
          return Ok(None);
        }
        scanned := scanned + 1;
        assert order[i] in order;
        var record := records[order[i]];
        if record.spec.retentionUntil <= now && record.state.Terminal() {
          var result, more := ScanArtifacts(record, scanned, scanBudget);
          scanned := more;
          var scan :- result;
          if scan.OutOfBudget? {
            return Ok(None);
          }
          if scan.Found? {
            FoundIsCollectable(records, now, order[i], scan.manifest);
            FoundIsFirst(records, now, order, i, scan.manifest);
            return Ok(Some(Candidate(order[i], record.Token(), scan.manifest)));
          }
        }
        i := i + 1;
      }
      return Ok(None);
    }

    /** Reclaims up to `budget` artifacts; what it does is a run of successful reclaim operations. */
    method GarbageCollect(now: U64, budget: nat) returns (r: Result<seq<Manifest>, JobError>)
      requires Valid()
      modifies this
      ensures Valid() && old(history) <= history
      ensures forall i | |old(history)| <= i < |history| :: ReclaimsAt(leaseDuration, history, i, now)
      ensures r.Ok? ==> |r.value| == |history| - |old(history)| <= budget
      ensures r.Ok? ==>
                forall i | |old(history)| <= i < |history| ::
                    history[i].Reclaim? && history[i].manifest == r.value[i - |old(history)|]
    {
      hide Collectable, Step, ReclaimsAt, After;
      if budget == 0 {
        return Err(BudgetExhausted);
      }
      var stopped: bool := *;
      if stopped {
        return Err(OperationCancelled);
      }
      ghost var start := |history|;
      var reclaimed: seq<Manifest> := [];
      var scanBudget := if budget * 64 < 2 then 2 else budget * 64;
      while |reclaimed| < budget
        invariant Valid() && old(history) <= history && |reclaimed| == |history| - start <= budget
        invariant forall i | start <= i < |history| :: ReclaimsAt(leaseDuration, history, i, now)
        invariant forall i | start <= i < |history| ::
            history[i].Reclaim? && history[i].manifest == reclaimed[i - start]
      {
        var next := NextGcCandidate(now, scanBudget);
        if next.Err? {
          return Err(next.error);
        }
        if next.value.None? {
          break;
        }
        var candidate := next.value.value;
        ghost var before := history;
        ghost var op := Reclaim(candidate.job, candidate.expected, candidate.manifest, now);
        CollectableReclaims(leaseDuration, records, now, candidate);
        var reply := AcknowledgeReclaimed(candidate, now);
        ReclaimsNext(leaseDuration, before, op, now, candidate);
        forall i | start <= i < |before| ensures ReclaimsAt(leaseDuration, history, i, now) {
          ReclaimsStill(leaseDuration, before, op, i, now);
        }
        reclaimed := reclaimed + [candidate.manifest];
      }
      return Ok(reclaimed);
    }

    method TombstoneJob(job: U128, expected: Cas, now: U64) returns (reply: Reply)
      requires Valid()
      modifies this
      ensures Stepped(records, reply) == Step(leaseDuration, old(records), Tombstone(job, expected, now))
      ensures Valid() && history == old(history) + [Tombstone(job, expected, now)]
    {
      hide After;
      AfterOne(leaseDuration, history, Tombstone(job, expected, now));
      history := history + [Tombstone(job, expected, now)];
      if job !in records {
        return Err(JobNotFound);
      }
      var record := records[job];
      var stale := CheckCas(record, expected);
      if stale.Some? {
        return Err(stale.value);
      }
      if now < record.spec.retentionUntil {
        return Err(RetentionActive);
      }
      if record.pins != {} {
        return Err(ArtifactPinned);
      }
      if !(record.state.Succeeded? || record.state.Failed? || record.state.CancelledJob?) {
        return Err(InvalidTransition);
      }
      record := record.(revision := record.revision + 1);
      record := record.(updatedAt := now);
      record := record.(state := Tombstoned);
      records := records[job := record];
      return Ok(None);
    }
  }

  lemma ExpireNext(before: Records, now: U64, order: seq<nat>, i: nat)
    requires InOrder(order, before.Keys) && i < |order|
    ensures order[i] in before && order[i] in ExpireRecords(before, now, i)
    ensures ExpireRecords(before, now, i)[order[i]] == before[order[i]]
    ensures ExpireRecords(before, now, i)[order[i] := ExpireRecord(before[order[i]], now)]
         == ExpireRecords(before, now, i + 1)
  {
    hide ExpireRecord, Rank, InOrder;
    Present(order, before.Keys, i);
    RankIsIndex(order, before.Keys, i);
    forall k | k in before && k != order[i]
      ensures Rank(before.Keys, k) != i
    {
      OtherRank(order, before.Keys, i, k);
    }
  }

  lemma Present(order: seq<nat>, keys: set<nat>, i: nat)
    requires InOrder(order, keys) && i < |order|
    ensures order[i] in keys
  {
    assert order[i] in order;
  }

  lemma OtherRank(order: seq<nat>, keys: set<nat>, i: nat, k: nat)
    requires InOrder(order, keys) && i < |order| && k in keys && k != order[i]
    ensures Rank(keys, k) != i
  {
    hide Rank;
    assert k in order;
    var m :| 0 <= m < |order| && order[m] == k;
    RankIsIndex(order, keys, m);
  }

  /** The jobs whose records differ. */
  ghost function Changed(before: Records, records: Records): set<U128>
  {
    set j | j in before && j in records && records[j] != before[j]
  }

  lemma NoneChanged(before: Records)
    ensures Changed(before, before) == {}
  {
  }

  /** Exactly a lease that has run out changes its record. */
  lemma OneMoreChanged(before: Records, records: Records, j: U128, now: U64)
    requires j in before && j in records && records[j] == before[j]
    ensures ExpireRecord(before[j], now) != before[j] <==> before[j].state.Leased() && before[j].state.expiresAt <= now
    ensures ExpireRecord(before[j], now) != before[j] ==>
              |Changed(before, records[j := ExpireRecord(before[j], now)])| == |Changed(before, records)| + 1
  {
    if ExpireRecord(before[j], now) != before[j] {
      assert Changed(before, records[j := ExpireRecord(before[j], now)]) == Changed(before, records) + {j};
    }
  }

  lemma NoneExpired(before: Records, now: U64)
    ensures ExpireRecords(before, now, 0) == before
  {
  }

  lemma FoundIsFirst(records: Records, now: U64, order: seq<nat>, i: nat, manifest: Manifest)
    requires InOrder(order, records.Keys) && i < |order| && order[i] in records && RecordSound(records[order[i]])
    requires forall m, d | 0 <= m < i && Collectable(records, now, d) :: d.job != order[m]
    requires var r := records[order[i]];
      exists k :: k in r.artifacts && k !in r.pins && r.artifacts[k] == manifest && forall x | x in r.artifacts
          && Earlier(x, k) :: x in r.pins
    ensures FirstCollectable(records, now, Candidate(order[i], records[order[i]].Token(), manifest))
  {
    hide Earlier;
    var j := order[i];
    var k :| k in records[j].artifacts && k !in records[j].pins && records[j].artifacts[k] == manifest
             && forall x | x in records[j].artifacts && Earlier(x, k) :: x in records[j].pins;
    assert ManifestSound(records[j], k, manifest);
    forall d | Collectable(records, now, d)
      ensures j < d.job || (j == d.job && !Earlier(KeyOf(d), k))
    {
      assert d.job in order;
      var m :| 0 <= m < |order| && order[m] == d.job;
    }
  }

  lemma FoundIsCollectable(records: Records, now: U64, j: U128, manifest: Manifest)
    requires j in records && RecordSound(records[j]) && records[j].state.Terminal()
    requires records[j].spec.retentionUntil <= now
    requires exists k :: k in records[j].artifacts && k !in records[j].pins && records[j].artifacts[k] == manifest
    ensures Collectable(records, now, Candidate(j, records[j].Token(), manifest))
  {
    var k :| k in records[j].artifacts && k !in records[j].pins && records[j].artifacts[k] == manifest;
    assert ManifestSound(records[j], k, manifest);
  }

  /** Operation `i` takes an artifact that was collectable when it ran, and succeeds. */
  ghost predicate ReclaimsAt(duration: U64, ops: seq<Op>, i: nat, now: U64)
  {
    && i < |ops| && ops[i].Reclaim? && ops[i].now == now
    && Collectable(After(duration, ops[..i]), now, Candidate(ops[i].job, ops[i].expected, ops[i].manifest))
    && ReplyAt(duration, ops, i).Ok?
  }

  lemma CollectableReclaims(duration: U64, records: Records, now: U64, c: Candidate)
    requires Collectable(records, now, c)
    ensures Step(duration, records, Reclaim(c.job, c.expected, c.manifest, now)).reply.Ok?
  {
  }

  lemma ReclaimsNext(duration: U64, ops: seq<Op>, op: Op, now: U64, c: Candidate)
    requires op == Reclaim(c.job, c.expected, c.manifest, now) && Collectable(After(duration, ops), now, c)
    requires Step(duration, After(duration, ops), op).reply.Ok?
    ensures ReclaimsAt(duration, ops + [op], |ops|, now)
  {
    assert (ops + [op])[..|ops|] == ops;
  }

  lemma ReclaimsStill(duration: U64, ops: seq<Op>, op: Op, i: nat, now: U64)
    requires ReclaimsAt(duration, ops, i, now)
    ensures ReclaimsAt(duration, ops + [op], i, now)
  {
    assert (ops + [op])[..i] == ops[..i];
  }

  lemma RecordsAreSound(duration: U64, ops: seq<Op>)
    ensures forall j | j in After(duration, ops) :: RecordSound(After(duration, ops)[j])
  {
    hide RecordSound, After;
    forall j | j in After(duration, ops) ensures RecordSound(After(duration, ops)[j]) { RunsAreSound(duration, ops,
        j); }
  }

  lemma AfterOne(duration: U64, ops: seq<Op>, op: Op)
    ensures After(duration, ops + [op]) == Step(duration, After(duration, ops), op).records
  {
    assert (ops + [op])[..|ops|] == ops;
  }
}

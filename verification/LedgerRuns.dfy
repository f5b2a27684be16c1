/** What every run of ledger operations keeps: fencing, attempts, retention. */
module LedgerRuns {
  import opened Wrappers
  import opened Jobs
  import opened LedgerSteps

  // ----- one step

  /** How a record may change: not at all, or into its next revision. */
  ghost predicate Moves(r: Record, s: Record)
  {
    || s == r
    || (&& s.revision == r.revision + 1 && s.spec == r.spec
        && r.leaseEpoch <= s.leaseEpoch <= r.leaseEpoch + 1
        && r.nextGeneration <= s.nextGeneration <= r.nextGeneration + 1
        && (r.state.Terminal() ==> s.state.Terminal()))
  }

  lemma RecordMoves(duration: U64, r: Record, op: Op)
    requires Single(op) && Early(duration, op).None?
    ensures Moves(r, OnRecord(duration, r, op).record)
    ensures OnRecord(duration, r, op).reply.Ok? ==> OnRecord(duration, r, op).record.revision == r.revision + 1
  {
  }

  lemma ExpiryMoves(r: Record, now: U64)
    ensures Moves(r, ExpireRecord(r, now))
  {
  }

  lemma StepMoves(duration: U64, records: Records, op: Op, j: U128)
    requires j in records
    ensures j in Step(duration, records, op).records
    ensures Moves(records[j], Step(duration, records, op).records[j])
  {
    hide OnRecord, ExpireRecord, Moves;
    StaysPut(records[j]);
    if op.Expire? {
      ExpiryMoves(records[j], op.now);
    } else if Single(op) && Early(duration, op).None? && Target(op) in records {
      RecordMoves(duration, records[Target(op)], op);
    }
  }

  lemma StaysPut(r: Record)
    ensures Moves(r, r)
  {
  }

  // ----- runs

  /** The records after a run that starts from an empty ledger. */
  ghost function After(duration: U64, ops: seq<Op>): Records
  {
    if ops == [] then map[] else Step(duration, After(duration, ops[..|ops| - 1]), ops[|ops| - 1]).records
  }

  /** How the ledger answered the operation at `i`. */
  ghost function ReplyAt(duration: U64, ops: seq<Op>, i: nat): Reply
    requires i < |ops|
  {
    Step(duration, After(duration, ops[..i]), ops[i]).reply
  }

  lemma AfterNext(duration: U64, ops: seq<Op>, i: nat)
    requires i < |ops|
    ensures After(duration, ops[..i + 1]) == Step(duration, After(duration, ops[..i]), ops[i]).records
  {
    assert ops[..i + 1][..i] == ops[..i];
  }

  /** Revisions and epochs only grow, and a revision names one content of the record. */
  lemma {:induction false} RevisionsGrow(duration: U64, ops: seq<Op>, i: nat, k: nat, j: U128)
    requires i <= k <= |ops| && j in After(duration, ops[..i])
    ensures j in After(duration, ops[..k])
    ensures var r, s := After(duration, ops[..i])[j], After(duration, ops[..k])[j];
      && r.revision <= s.revision && r.leaseEpoch <= s.leaseEpoch && r.spec == s.spec
      && (r.revision == s.revision ==> r == s)
      && (r.state.Terminal() ==> s.state.Terminal())
    decreases k - i
  {
    hide Step, After;
    if i < k {
      RevisionsGrow(duration, ops, i, k - 1, j);
      AfterNext(duration, ops, k - 1);
      StepMoves(duration, After(duration, ops[..k - 1]), ops[k - 1], j);
    }
  }

  /** A successful operation on one job moves its record to the next revision. */
  lemma SuccessMoves(duration: U64, ops: seq<Op>, i: nat)
    requires i < |ops| && Single(ops[i]) && ReplyAt(duration, ops, i).Ok?
    ensures Early(duration, ops[i]).None? && Target(ops[i]) in After(duration, ops[..i])
    ensures Target(ops[i]) in After(duration, ops[..i + 1])
    ensures var j := Target(ops[i]);
      After(duration, ops[..i + 1])[j].revision == After(duration, ops[..i])[j].revision + 1
    ensures var j := Target(ops[i]);
      After(duration, ops[..i + 1])[j] == OnRecord(duration, After(duration, ops[..i])[j], ops[i]).record
    ensures var j := Target(ops[i]); OnRecord(duration, After(duration, ops[..i])[j], ops[i]).reply.Ok?
  {
    hide OnRecord, After;
    AfterNext(duration, ops, i);
    var before := After(duration, ops[..i]);
    RecordMoves(duration, before[Target(ops[i])], ops[i]);
  }

  // ----- tokens are good once

  predicate UsesLease(op: Op)
  {
    op.Begin? || op.Renew? || op.Checkpoint? || op.Publish? || op.Fail?
  }

  predicate UsesCas(op: Op)
  {
    op.Claim? || op.Cancel? || op.Pin? || op.Unpin? || op.Reclaim? || op.Tombstone?
  }

  lemma LeaseMatches(duration: U64, r: Record, op: Op)
    requires UsesLease(op) && Early(duration, op).None? && OnRecord(duration, r, op).reply.Ok?
    ensures r.state.Leased() && r.revision == op.lease.revision && r.state.leaseEpoch == op.lease.leaseEpoch
  {
  }

  lemma CasMatches(duration: U64, r: Record, op: Op)
    requires UsesCas(op) && Early(duration, op).None? && OnRecord(duration, r, op).reply.Ok?
    ensures r.Token() == op.expected
  {
  }

  /**
   * A lease that has authorised one operation authorises no other, in any interleaving; nor does one that only shares
   * its revision.
   */
  lemma LeaseAuthorisesOnce(duration: U64, ops: seq<Op>, i: nat, k: nat)
    requires i < k < |ops| && UsesLease(ops[i]) && UsesLease(ops[k])
    requires ops[i].lease.job == ops[k].lease.job && ops[i].lease.revision == ops[k].lease.revision
    requires ReplyAt(duration, ops, i).Ok?
    ensures ReplyAt(duration, ops, k).Err?
  {
    hide OnRecord, After, ReplyAt;
    var j := Target(ops[i]);
    SuccessMoves(duration, ops, i);
    LeaseMatches(duration, After(duration, ops[..i])[j], ops[i]);
    RevisionsGrow(duration, ops, i + 1, k, j);
    if ReplyAt(duration, ops, k).Ok? {
      SuccessMoves(duration, ops, k);
      LeaseMatches(duration, After(duration, ops[..k])[j], ops[k]);
    }
  }

  /** So does a compare-and-set token. */
  lemma CasAuthorisesOnce(duration: U64, ops: seq<Op>, i: nat, k: nat)
    requires i < k < |ops| && UsesCas(ops[i]) && UsesCas(ops[k]) && ops[i].job == ops[k].job
    requires ops[i].expected == ops[k].expected
    requires ReplyAt(duration, ops, i).Ok?
    ensures ReplyAt(duration, ops, k).Err?
  {
    hide OnRecord, After, ReplyAt;
    var j := Target(ops[i]);
    SuccessMoves(duration, ops, i);
    CasMatches(duration, After(duration, ops[..i])[j], ops[i]);
    RevisionsGrow(duration, ops, i + 1, k, j);
    if ReplyAt(duration, ops, k).Ok? {
      SuccessMoves(duration, ops, k);
      CasMatches(duration, After(duration, ops[..k])[j], ops[k]);
    }
  }

  // ----- what every reachable record satisfies

  ghost predicate ArtifactsSound(r: Record)
  {
    && r.pins <= r.artifacts.Keys
    && (forall key | key in r.artifacts :: 1 <= key.generation < r.nextGeneration)
    && (forall key | key in r.artifacts :: ManifestSound(r, key, r.artifacts[key]))
  }

  ghost predicate ManifestSound(r: Record, key: ArtifactKey, m: Manifest)
  {
    && m.kind == key.kind && m.generation == key.generation && m.jobId == r.spec.id
    && 1 <= m.leaseEpoch <= r.leaseEpoch
    && m.schemaVersion == (if key.kind.CheckpointArtifact? then r.spec.checkpointSchema else r.spec.resultSchema)
    && m.algorithm == r.spec.request.algorithm && m.algorithmVersion == r.spec.algorithmVersion
    && m.snapshotDigest == r.spec.snapshotDigest && m.specDigest == r.spec.digest
  }

  ghost predicate StateSound(r: Record)
  {
    && (r.state.Leased() ==> r.state.leaseEpoch == r.leaseEpoch >= 1)
    && (r.state.Running? && r.state.checkpoint.Some? ==> 1 <= r.state.checkpoint.value < r.nextGeneration)
    && (r.state.Succeeded? ==> 1 <= r.state.resultGeneration < r.nextGeneration)
    && (r.state.Failed? ==> |r.state.code| <= 256)
  }

  ghost predicate RecordSound(r: Record)
  {
    r.revision >= 1 && r.nextGeneration >= 1 && r.attempts <= r.spec.maxAttempts && ArtifactsSound(r) && StateSound(r)
  }

  lemma NewIsSound(spec: Spec, at: U64)
    ensures RecordSound(NewRecord(spec, at))
  {
  }

  lemma StoreKeepsArtifacts(r: Record, lease: Lease, manifest: Manifest, kind: ArtifactKind, state: JobState, now: U64)
    requires RecordSound(r) && CheckArtifact(r, lease, manifest, kind).None? && lease.leaseEpoch == r.leaseEpoch >= 1
    ensures ArtifactsSound(Touch(Store(r, manifest), state, now))
  {
    var s := Touch(Store(r, manifest), state, now);
    forall key | key in s.artifacts
      ensures 1 <= key.generation < s.nextGeneration && ManifestSound(s, key, s.artifacts[key])
    {
      if key in r.artifacts && r.artifacts[key] == s.artifacts[key] {
        assert ManifestSound(r, key, r.artifacts[key]);
      }
    }
  }

  lemma PlainKeepsArtifacts(r: Record, s: Record)
    requires ArtifactsSound(r) && s.spec == r.spec && r.leaseEpoch <= s.leaseEpoch
    requires s.nextGeneration == r.nextGeneration
    requires s.pins <= s.artifacts.Keys && s.artifacts.Keys <= r.artifacts.Keys
    requires forall key | key in s.artifacts :: s.artifacts[key] == r.artifacts[key]
    ensures ArtifactsSound(s)
  {
    forall key | key in s.artifacts
      ensures ManifestSound(s, key, s.artifacts[key])
    {
      assert ManifestSound(r, key, r.artifacts[key]);
    }
  }

  lemma RecordKeepsSound(duration: U64, r: Record, op: Op)
    requires Single(op) && Early(duration, op).None? && RecordSound(r)
    ensures RecordSound(OnRecord(duration, r, op).record)
  {
    hide ArtifactsSound, HighestCheckpoint;
    var s := OnRecord(duration, r, op).record;
    if s != r {
      if op.Checkpoint? {
        StoreKeepsArtifacts(r, op.lease, op.manifest, CheckpointArtifact, s.state, op.now);
      } else if op.Publish? {
        StoreKeepsArtifacts(r, op.lease, op.manifest, ResultArtifact, s.state, op.now);
      } else {
        PlainChange(duration, r, op);
      }
      HighestIsBelow(r);
    }
  }

  lemma PlainChange(duration: U64, r: Record, op: Op)
    requires Single(op) && Early(duration, op).None? && RecordSound(r) && !op.Checkpoint? && !op.Publish?
    ensures ArtifactsSound(OnRecord(duration, r, op).record)
  {
    hide ManifestSound, HighestCheckpoint;
    var s := OnRecord(duration, r, op).record;
    PlainKeepsArtifacts(r, s);
  }

  lemma HighestIsBelow(r: Record)
    requires ArtifactsSound(r)
    ensures var g := HighestCheckpoint(r.artifacts.Keys); g.Some? ==> 1 <= g.value < r.nextGeneration
  {
    var g := HighestCheckpoint(r.artifacts.Keys);
    if g.Some? {
      assert ArtifactKey(CheckpointArtifact, g.value) in r.artifacts;
    }
  }

  lemma ExpiryKeepsSound(r: Record, now: U64)
    requires RecordSound(r)
    ensures RecordSound(ExpireRecord(r, now))
  {
    hide ManifestSound;
    PlainKeepsArtifacts(r, ExpireRecord(r, now));
  }

  /** Every record of every run is sound. */
  lemma {:induction false} RunsAreSound(duration: U64, ops: seq<Op>, j: U128)
    requires j in After(duration, ops)
    ensures RecordSound(After(duration, ops)[j])
    decreases |ops|
  {
    hide RecordSound, OnRecord, ExpireRecord;
    var front, op := ops[..|ops| - 1], ops[|ops| - 1];
    if j in After(duration, front) {
      var r := After(duration, front)[j];
      RunsAreSound(duration, front, j);
      if op.Expire? {
        ExpiryKeepsSound(r, op.now);
      } else if Single(op) && Early(duration, op).None? && Target(op) == j {
        RecordKeepsSound(duration, r, op);
      }
    } else {
      NewIsSound(op.spec, op.at);
    }
  }

  // ----- fencing by epoch

  /** Once a job's epoch has passed a lease, that lease never succeeds again. */
  lemma SupersededNeverSucceeds(duration: U64, ops: seq<Op>, i: nat, k: nat)
    requires i <= k < |ops| && UsesLease(ops[k]) && ops[k].lease.job in After(duration, ops[..i])
    requires After(duration, ops[..i])[ops[k].lease.job].leaseEpoch > ops[k].lease.leaseEpoch
    ensures ReplyAt(duration, ops, k).Err?
  {
    hide OnRecord, After, ReplyAt, ArtifactsSound;
    var j := ops[k].lease.job;
    RevisionsGrow(duration, ops, i, k, j);
    if ReplyAt(duration, ops, k).Ok? {
      SuccessMoves(duration, ops, k);
      LeaseMatches(duration, After(duration, ops[..k])[j], ops[k]);
      RunsAreSound(duration, ops[..k], j);
    }
  }

  /** Losing a lease, by failing, cancelling or expiry, supersedes its epoch. */
  lemma LosingSupersedes(duration: U64, r: Record, op: Op)
    requires Single(op) && Early(duration, op).None? && r.state.Leased() && RecordSound(r)
    ensures var s := OnRecord(duration, r, op).record;
      !s.state.Leased() && !s.state.Succeeded? ==> s.leaseEpoch == r.leaseEpoch + 1
  {
  }

  lemma ExpirySupersedes(r: Record, now: U64)
    requires r.state.Leased() && !ExpireRecord(r, now).state.Leased()
    ensures ExpireRecord(r, now).leaseEpoch == r.leaseEpoch + 1
  {
  }

  // ----- attempts

  /** The number of successful claims of a job in a run. */
  ghost function Claims(duration: U64, ops: seq<Op>, j: U128): nat
  {
    if ops == [] then 0
    else
      Claims(duration, ops[..|ops| - 1], j)
      + if ops[|ops| - 1].Claim? && ops[|ops| - 1].job == j && ReplyAt(duration, ops, |ops| - 1).Ok? then 1 else 0
  }

  lemma AttemptsMove(duration: U64, r: Record, op: Op)
    requires Single(op) && Early(duration, op).None?
    ensures var c := OnRecord(duration, r, op);
      c.record.attempts == r.attempts + if op.Claim? && c.reply.Ok? then 1 else 0
  {
  }

  /** Attempts count the successful claims, and stay within the limit of the job. */
  lemma {:induction false} AttemptsAreClaims(duration: U64, ops: seq<Op>, j: U128)
    ensures j in After(duration, ops) ==>
              After(duration, ops)[j].attempts == Claims(duration, ops, j) <= After(duration, ops)[j].spec.maxAttempts
    ensures j !in After(duration, ops) ==> Claims(duration, ops, j) == 0
    decreases |ops|
  {
    hide RecordSound, OnRecord, ExpireRecord;
    if ops != [] {
      var front, op := ops[..|ops| - 1], ops[|ops| - 1];
      AttemptsAreClaims(duration, front, j);
      assert ops[..|ops| - 1] == front;
      if j in After(duration, front) {
        var r := After(duration, front)[j];
        if op.Expire? {
          ExpiryKeepsAttempts(r, op.now);
        } else if Single(op) && Early(duration, op).None? && Target(op) == j {
          AttemptsMove(duration, r, op);
        }
      }
      if j in After(duration, ops) {
        RunsAreSound(duration, ops, j);
        AttemptsBounded(After(duration, ops)[j]);
      }
    }
  }

  lemma ExpiryKeepsAttempts(r: Record, now: U64)
    ensures ExpireRecord(r, now).attempts == r.attempts
  {
  }

  lemma AttemptsBounded(r: Record)
    requires RecordSound(r)
    ensures r.attempts <= r.spec.maxAttempts
  {
  }

  // ----- one result

  lemma PublishEnds(duration: U64, r: Record, op: Op)
    requires op.Publish? && OnRecord(duration, r, op).reply.Ok?
    ensures r.state.Running? && OnRecord(duration, r, op).record.state.Succeeded?
  {
  }

  /** A job publishes its result at most once. */
  lemma PublishedOnce(duration: U64, ops: seq<Op>, i: nat, k: nat)
    requires i < k < |ops| && ops[i].Publish? && ops[k].Publish? && ops[i].lease.job == ops[k].lease.job
    requires ReplyAt(duration, ops, i).Ok?
    ensures ReplyAt(duration, ops, k).Err?
  {
    hide OnRecord, After, ReplyAt;
    var j := ops[i].lease.job;
    SuccessMoves(duration, ops, i);
    PublishEnds(duration, After(duration, ops[..i])[j], ops[i]);
    RevisionsGrow(duration, ops, i + 1, k, j);
    if ReplyAt(duration, ops, k).Ok? {
      SuccessMoves(duration, ops, k);
      PublishEnds(duration, After(duration, ops[..k])[j], ops[k]);
    }
  }

  // ----- counters

  /** Counters grow by at most one in each operation, so runs shorter than 2^64 never overflow them. */
  lemma {:induction false} CountersBounded(duration: U64, ops: seq<Op>, j: U128)
    requires j in After(duration, ops)
    ensures var r := After(duration, ops)[j]; r.revision <= |ops| && r.leaseEpoch <= |ops| && r.nextGeneration <= |ops|
    decreases |ops|
  {
    hide OnRecord, ExpireRecord;
    var front, op := ops[..|ops| - 1], ops[|ops| - 1];
    if j in After(duration, front) {
      CountersBounded(duration, front, j);
      StepMoves(duration, After(duration, front), op, j);
    }
  }
}

/** How jobs end, wait and are handed on, told from the operations of a run and the replies to them. */
module LedgerOutcomes {
  import opened Wrappers
  import opened Jobs
  import FiniteSets
  import opened KeyOrder
  import opened LedgerSteps
  import opened LedgerRuns
  import opened LedgerRetention

  // ----- submission

  ghost predicate Submits(ops: seq<Op>, i: nat, j: U128)
  {
    i < |ops| && ops[i].Submit? && ops[i].spec.id == j
  }

  ghost predicate FirstSubmits(ops: seq<Op>, i: nat, j: U128)
  {
    Submits(ops, i, j) && forall h: nat | h < i :: !Submits(ops, h, j)
  }

  lemma RecordKeepsOrigin(duration: U64, r: Record, op: Op)
    requires Single(op) && Early(duration, op).None?
    ensures var s := OnRecord(duration, r, op).record; s.spec == r.spec && s.submittedAt == r.submittedAt
  {
  }

  lemma StepKeepsOrigin(duration: U64, records: Records, op: Op, j: U128)
    requires j in records
    ensures var after := Step(duration, records, op).records;
      j in after && after[j].spec == records[j].spec && after[j].submittedAt == records[j].submittedAt
  {
    hide OnRecord;
    if Single(op) && Early(duration, op).None? && Target(op) == j {
      RecordKeepsOrigin(duration, records[j], op);
    }
  }

  lemma StepAdds(duration: U64, records: Records, op: Op, j: U128)
    requires j !in records
    ensures j in Step(duration, records, op).records <==> op.Submit? && op.spec.id == j
    ensures op.Submit? && op.spec.id == j ==> Step(duration, records, op).records[j] == NewRecord(op.spec, op.at)
  {
    hide OnRecord;
  }

  /** A job is on record once it was submitted, with the specification and the time of its first submission. */
  lemma {:induction false} RecordedAsSubmitted(duration: U64, ops: seq<Op>, j: U128)
    ensures j in After(duration, ops) <==> exists i: nat :: FirstSubmits(ops, i, j)
    ensures forall i: nat | FirstSubmits(ops, i, j) && j in After(duration, ops) ::
              After(duration, ops)[j].spec == ops[i].spec && After(duration, ops)[j].submittedAt == ops[i].at
    decreases |ops|
  {
    hide Step;
    if ops != [] {
      var front, op := ops[..|ops| - 1], ops[|ops| - 1];
      RecordedAsSubmitted(duration, front, j);
      forall i: nat | i < |front| ensures FirstSubmits(front, i, j) <==> FirstSubmits(ops, i, j) {
        assert forall h: nat | h <= i :: Submits(front, h, j) <==> Submits(ops, h, j);
      }
      if j in After(duration, front) {
        var i: nat :| FirstSubmits(front, i, j);
        assert FirstSubmits(ops, i, j);
        OneFirst(ops, i, j);
        StepKeepsOrigin(duration, After(duration, front), op, j);
      } else {
        StepAdds(duration, After(duration, front), op, j);
        NoneSubmits(front, j);
        assert forall h: nat | h < |front| :: Submits(front, h, j) <==> Submits(ops, h, j);
        assert op.Submit? && op.spec.id == j ==> FirstSubmits(ops, |front|, j);
      }
    }
  }

  lemma OneFirst(ops: seq<Op>, i: nat, j: U128)
    requires FirstSubmits(ops, i, j)
    ensures forall k: nat | FirstSubmits(ops, k, j) :: k == i
  {
  }

  lemma {:induction false} NoneSubmits(ops: seq<Op>, j: U128)
    requires !exists i: nat :: FirstSubmits(ops, i, j)
    ensures forall i: nat :: !Submits(ops, i, j)
  {
    var n := 0;
    while n < |ops|
      invariant n <= |ops| && forall h: nat | h < n :: !Submits(ops, h, j)
    {
      assert !FirstSubmits(ops, n, j);
      n := n + 1;
    }
  }

  /** Submitting a job again changes nothing, and is refused when its specification is another one. */
  lemma SubmittedAgain(duration: U64, ops: seq<Op>, i: nat, k: nat)
    requires i < k < |ops| && ops[k].Submit? && FirstSubmits(ops, i, ops[k].spec.id)
    ensures ReplyAt(duration, ops, k)
         == if ops[k].spec.digest == ops[i].spec.digest then Ok(None) else Err(SpecConflict)
    ensures After(duration, ops[..k + 1]) == After(duration, ops[..k])
  {
    hide After, OnRecord;
    var j := ops[k].spec.id;
    assert forall h: nat | h <= i :: Submits(ops[..k], h, j) <==> Submits(ops, h, j);
    assert FirstSubmits(ops[..k], i, j);
    RecordedAsSubmitted(duration, ops[..k], j);
    AfterNext(duration, ops, k);
  }

  // ----- endings

  lemma EndedRefuses(duration: U64, r: Record, op: Op)
    requires Single(op) && Early(duration, op).None? && r.state.Terminal()
    requires op.Claim? || op.Cancel? || UsesLease(op)
    ensures OnRecord(duration, r, op).reply.Err?
  {
  }

  /** A job that has ended stays ended: it is never claimed, worked on or cancelled again. */
  lemma EndedForGood(duration: U64, ops: seq<Op>, i: nat, k: nat, j: U128)
    requires i <= k < |ops| && j in After(duration, ops[..i]) && After(duration, ops[..i])[j].state.Terminal()
    ensures j in After(duration, ops[..k]) && After(duration, ops[..k])[j].state.Terminal()
    ensures Single(ops[k]) && Target(ops[k]) == j && (ops[k].Claim? || ops[k].Cancel? || UsesLease(ops[k])) ==>
              ReplyAt(duration, ops, k).Err?
  {
    hide After, OnRecord;
    RevisionsGrow(duration, ops, i, k, j);
    if Single(ops[k]) && Target(ops[k]) == j && (ops[k].Claim? || ops[k].Cancel? || UsesLease(ops[k])) {
      if Early(duration, ops[k]).None? {
        EndedRefuses(duration, After(duration, ops[..k])[j], ops[k]);
      }
    }
  }

  /** From operation `i` on, the job has ended, and every later claim of it is refused. */
  ghost predicate EndsAt(duration: U64, ops: seq<Op>, i: nat, j: U128)
  {
    && (forall k: nat | i < k <= |ops| :: Ended(After(duration, ops[..k]), j))
    && (forall k: nat | i < k < |ops| && ops[k].Claim? && ops[k].job == j :: ReplyAt(duration, ops, k).Err?)
  }

  ghost predicate Ended(records: Records, j: U128)
  {
    j in records && records[j].state.Terminal()
  }

  lemma EndsOnce(duration: U64, ops: seq<Op>, i: nat, j: U128)
    requires i < |ops| && Ended(After(duration, ops[..i + 1]), j)
    ensures EndsAt(duration, ops, i, j)
  {
    hide After, ReplyAt;
    forall k: nat | i < k <= |ops| ensures Ended(After(duration, ops[..k]), j) {
      RevisionsGrow(duration, ops, i + 1, k, j);
    }
    forall k: nat | i < k < |ops| && ops[k].Claim? && ops[k].job == j ensures ReplyAt(duration, ops, k).Err? {
      EndedForGood(duration, ops, i + 1, k, j);
    }
  }

  /** The next claim made with the job's current token is accepted. */
  ghost predicate NextClaimAccepted(duration: U64, ops: seq<Op>, j: U128)
  {
    j in After(duration, ops) && forall worker: WorkerId, now: U64 | now + duration <= U64_MAX ::
      ReplyAt(duration, ops + [Claim(j, worker, now, After(duration, ops)[j].Token())], |ops|).Ok?
  }

  lemma Appended(duration: U64, ops: seq<Op>, op: Op)
    ensures ReplyAt(duration, ops + [op], |ops|) == Step(duration, After(duration, ops), op).reply
  {
    hide Step;
    assert (ops + [op])[..|ops|] == ops;
  }

  lemma WaitingIsClaimed(duration: U64, ops: seq<Op>, j: U128)
    requires j in After(duration, ops) && After(duration, ops)[j].state.Queued?
    requires Claims(duration, ops, j) < After(duration, ops)[j].spec.maxAttempts
    ensures NextClaimAccepted(duration, ops, j)
  {
    hide After, ReplyAt, Claims;
    AttemptsAreClaims(duration, ops, j);
    var token := After(duration, ops)[j].Token();
    forall worker: WorkerId, now: U64 | now + duration <= U64_MAX
      ensures ReplyAt(duration, ops + [Claim(j, worker, now, token)], |ops|).Ok?
    {
      Appended(duration, ops, Claim(j, worker, now, token));
    }
  }

  lemma OtherKeepsClaims(duration: U64, ops: seq<Op>, i: nat, j: U128)
    requires i < |ops| && !ops[i].Claim?
    ensures Claims(duration, ops[..i + 1], j) == Claims(duration, ops[..i], j)
  {
    hide ReplyAt;
    assert ops[..i + 1][..i] == ops[..i];
  }

  /** The attempts a job is allowed, as submitted. */
  ghost function Limit(ops: seq<Op>, j: U128): nat
    requires exists i: nat :: FirstSubmits(ops, i, j)
  {
    var i: nat :| FirstSubmits(ops, i, j);
    ops[i].spec.maxAttempts
  }

  lemma LimitIs(duration: U64, ops: seq<Op>, j: U128)
    requires j in After(duration, ops)
    ensures exists i: nat :: FirstSubmits(ops, i, j)
    ensures After(duration, ops)[j].spec.maxAttempts == Limit(ops, j)
  {
    hide After;
    RecordedAsSubmitted(duration, ops, j);
    var i: nat :| FirstSubmits(ops, i, j);
    OneFirst(ops, i, j);
  }

  /**
   * A failure ends its job when it is not retryable or the claims have reached the limit: the job shows the code, has
   * ended for good and is never claimed again. Any other failure leaves the job ready for the next claim.
   */
  lemma FailureDecides(duration: U64, ops: seq<Op>, i: nat)
    requires i < |ops| && ops[i].Fail? && ReplyAt(duration, ops, i).Ok?
    ensures var j := ops[i].lease.job; j in After(duration, ops[..i]) && j in After(duration, ops[..i + 1])
    ensures exists h: nat :: FirstSubmits(ops[..i], h, ops[i].lease.job)
    ensures var j := ops[i].lease.job;
      var state := After(duration, ops[..i + 1])[j].state;
      if ops[i].retryable && Claims(duration, ops[..i], j) < Limit(ops[..i], j) then
        state == Queued && NextClaimAccepted(duration, ops[..i + 1], j)
      else
        state == Failed(false, ops[i].code) && EndsAt(duration, ops, i, j)
  {
    hide After, ReplyAt, Claims, EndsAt, NextClaimAccepted, Limit;
    var j := ops[i].lease.job;
    SuccessMoves(duration, ops, i);
    LimitIs(duration, ops[..i], j);
    AttemptsAreClaims(duration, ops[..i], j);
    OtherKeepsClaims(duration, ops, i, j);
    if ops[i].retryable && Claims(duration, ops[..i], j) < Limit(ops[..i], j) {
      WaitingIsClaimed(duration, ops[..i + 1], j);
    } else {
      EndsOnce(duration, ops, i, j);
    }
  }

  /** An expiry pass reaches a job when few enough jobs have smaller numbers. */
  ghost predicate Reaches(records: Records, op: Op, j: U128)
    requires op.Expire?
  {
    var ahead := |set k | k in records.Keys && k < j|;
    ahead < op.budget && (op.stopAfter.Some? ==> ahead < op.stopAfter.value)
  }

  lemma ExpiryReaches(duration: U64, records: Records, op: Op, j: U128)
    requires op.Expire? && j in records
    ensures var after := Step(duration, records, op).records;
      j in after && after[j] == if Reaches(records, op, j) then ExpireRecord(records[j], op.now) else records[j]
  {
    hide ExpireRecord;
    var below := Below(records.Keys, j);
    assert below == set k | k in records.Keys && k < j;
    assert j in records.Keys && j !in below && below + {j} <= records.Keys;
    FiniteSets.CardinalityGrows(below + {j}, records.Keys);
  }

  /**
   * A lease that an expiry pass finds run out goes the same two ways: back to the queue, open to the next claim, or
   * to an ended job once the claims have reached the limit. Every other job is left as it was.
   */
  lemma ExpiryDecides(duration: U64, ops: seq<Op>, i: nat, j: U128)
    requires i < |ops| && ops[i].Expire? && j in After(duration, ops[..i])
    ensures j in After(duration, ops[..i + 1]) && exists h: nat :: FirstSubmits(ops[..i], h, j)
    ensures var before, after := After(duration, ops[..i]), After(duration, ops[..i + 1])[j];
      if !Reaches(before, ops[i], j) || !before[j].state.Leased() || before[j].state.expiresAt > ops[i].now then
        after == before[j]
      else if Claims(duration, ops[..i], j) < Limit(ops[..i], j) then
        after.state == Queued && NextClaimAccepted(duration, ops[..i + 1], j)
      else
        after.state == Failed(false, LEASE_EXPIRED_CODE) && EndsAt(duration, ops, i, j)
  {
    hide After, ReplyAt, Claims, EndsAt, NextClaimAccepted, Limit, Step, Reaches;
    AfterNext(duration, ops, i);
    LimitIs(duration, ops[..i], j);
    AttemptsAreClaims(duration, ops[..i], j);
    OtherKeepsClaims(duration, ops, i, j);
    var before := After(duration, ops[..i]);
    ExpiryReaches(duration, before, ops[i], j);
    if Reaches(before, ops[i], j) && before[j].state.Leased() && before[j].state.expiresAt <= ops[i].now {
      if Claims(duration, ops[..i], j) < Limit(ops[..i], j) {
        WaitingIsClaimed(duration, ops[..i + 1], j);
      } else {
        EndsOnce(duration, ops, i, j);
      }
    }
  }

  /** The job waits for a claim that no token gets. */
  ghost predicate WaitsInVain(r: Record)
  {
    r.state.Queued? && r.attempts >= r.spec.maxAttempts
  }

  lemma RecordKeepsWaiting(duration: U64, r: Record, op: Op)
    requires Single(op) && Early(duration, op).None? && !WaitsInVain(r)
    ensures !WaitsInVain(OnRecord(duration, r, op).record)
  {
  }

  /** In every run, a job that waits can be claimed. */
  lemma {:induction false} WaitingHasAttempts(duration: U64, ops: seq<Op>, j: U128)
    requires j in After(duration, ops) && After(duration, ops)[j].spec.maxAttempts >= 1
    ensures !WaitsInVain(After(duration, ops)[j])
    decreases |ops|
  {
    hide OnRecord;
    var front, op := ops[..|ops| - 1], ops[|ops| - 1];
    if j in After(duration, front) {
      StepKeepsOrigin(duration, After(duration, front), op, j);
      WaitingHasAttempts(duration, front, j);
      if Single(op) && Early(duration, op).None? && Target(op) == j {
        RecordKeepsWaiting(duration, After(duration, front)[j], op);
      }
    }
  }

  lemma WaitingIsClaimable(duration: U64, ops: seq<Op>, j: U128)
    requires j in After(duration, ops) && After(duration, ops)[j].state.Queued?
    requires After(duration, ops)[j].spec.maxAttempts >= 1
    ensures NextClaimAccepted(duration, ops, j)
  {
    hide After, ReplyAt, Claims, NextClaimAccepted;
    WaitingHasAttempts(duration, ops, j);
    AttemptsAreClaims(duration, ops, j);
    WaitingIsClaimed(duration, ops, j);
  }

  /** A cancelled job has ended; any job that has not ended can be cancelled with its current token. */
  lemma CancellationEnds(duration: U64, ops: seq<Op>, i: nat)
    requires i < |ops| && ops[i].Cancel? && ReplyAt(duration, ops, i).Ok?
    ensures ops[i].job in After(duration, ops[..i + 1])
    ensures After(duration, ops[..i + 1])[ops[i].job].state == CancelledJob && EndsAt(duration, ops, i, ops[i].job)
  {
    hide After, ReplyAt, EndsAt;
    SuccessMoves(duration, ops, i);
    EndsOnce(duration, ops, i, ops[i].job);
  }

  lemma CancellationAccepted(duration: U64, ops: seq<Op>, j: U128, now: U64)
    requires j in After(duration, ops)
    ensures var r := After(duration, ops)[j];
      ReplyAt(duration, ops + [Cancel(j, r.Token(), now)], |ops|)
          == if r.state.Terminal() then Err(InvalidTransition) else Ok(None)
  {
    hide After, ReplyAt;
    Appended(duration, ops, Cancel(j, After(duration, ops)[j].Token(), now));
  }

  // ----- leases

  /** The reply to operation `i` is a lease of job `j`. */
  ghost predicate Grants(duration: U64, ops: seq<Op>, i: nat, j: U128)
  {
    i < |ops| && var reply := ReplyAt(duration, ops, i); reply.Ok? && reply.value.Some? && reply.value.value.job == j
  }

  ghost function Granted(duration: U64, ops: seq<Op>, i: nat, j: U128): Lease
    requires Grants(duration, ops, i, j)
  {
    ReplyAt(duration, ops, i).value.value
  }

  ghost predicate GrantsLast(duration: U64, ops: seq<Op>, i: nat, j: U128)
  {
    Grants(duration, ops, i, j) && forall h: nat | i < h :: !Grants(duration, ops, h, j)
  }

  /** The record is held under the lease. */
  ghost predicate HeldUnder(r: Record, lease: Lease)
  {
    && r.state.Leased() && r.state.worker == lease.worker && r.state.leaseEpoch == lease.leaseEpoch
    && r.state.expiresAt == lease.expiresAt
  }

  lemma GrantHolds(duration: U64, r: Record, op: Op)
    requires Single(op) && Early(duration, op).None?
    ensures var c := OnRecord(duration, r, op);
      c.reply.Ok? && c.reply.value.Some? ==>
        var lease := c.reply.value.value;
        && (op.Claim? || op.Begin? || op.Renew? || op.Checkpoint?)
        && lease.job == Target(op) && HeldUnder(c.record, lease) && lease.revision == c.record.revision
        && lease.worker == (if op.Claim? then op.worker else op.lease.worker)
        && lease.leaseEpoch == (if op.Claim? then r.leaseEpoch + 1 else op.lease.leaseEpoch)
        && lease.expiresAt == (if op.Begin? then op.lease.expiresAt else op.now + duration)
  {
  }

  /** What a granted lease says is what the record then holds: who, until when, and at which revision. */
  lemma GrantSays(duration: U64, ops: seq<Op>, i: nat, j: U128)
    requires Grants(duration, ops, i, j)
    ensures ops[i].Claim? || ops[i].Begin? || ops[i].Renew? || ops[i].Checkpoint?
    ensures var op, lease := ops[i], Granted(duration, ops, i, j);
      && Target(op) == j && j in After(duration, ops[..i]) && j in After(duration, ops[..i + 1])
      && HeldUnder(After(duration, ops[..i + 1])[j], lease)
      && lease.revision == After(duration, ops[..i + 1])[j].revision
      && lease.worker == (if op.Claim? then op.worker else op.lease.worker)
      && lease.leaseEpoch == (if op.Claim? then After(duration, ops[..i])[j].leaseEpoch + 1 else op.lease.leaseEpoch)
      && lease.expiresAt == (if op.Begin? then op.lease.expiresAt else op.now + duration)
  {
    hide After, OnRecord, HeldUnder;
    GrantIsSingle(duration, ops, i, j);
    SuccessMoves(duration, ops, i);
    GrantHolds(duration, After(duration, ops[..i])[Target(ops[i])], ops[i]);
  }

  lemma GrantIsSingle(duration: U64, ops: seq<Op>, i: nat, j: U128)
    requires Grants(duration, ops, i, j)
    ensures Single(ops[i])
  {
    hide After, OnRecord, ExpireRecords;
  }

  lemma LeasedWithoutGrant(duration: U64, r: Record, op: Op)
    requires Single(op) && Early(duration, op).None?
    ensures var c := OnRecord(duration, r, op);
      c.record.state.Leased() && !(c.reply.Ok? && c.reply.value.Some?) ==>
        c.record.state == r.state && r.revision <= c.record.revision
  {
  }

  lemma ExpiryLeased(r: Record, now: U64)
    ensures ExpireRecord(r, now).state.Leased() ==> ExpireRecord(r, now) == r
  {
  }

  /** Every leased job is held under the last lease granted for it. */
  lemma {:induction false} HeldAsGranted(duration: U64, ops: seq<Op>, j: U128)
    requires j in After(duration, ops) && After(duration, ops)[j].state.Leased()
    ensures exists i: nat :: GrantsLast(duration, ops, i, j)
    ensures forall i: nat | GrantsLast(duration, ops, i, j) ::
      && HeldUnder(After(duration, ops)[j], Granted(duration, ops, i, j))
      && Granted(duration, ops, i, j).revision <= After(duration, ops)[j].revision
    decreases |ops|
  {
    hide OnRecord, ExpireRecord, Step, HeldUnder;
    var n := |ops| - 1;
    var front := ops[..n];
    assert ops[..n + 1] == ops;
    if Grants(duration, ops, n, j) {
      GrantSays(duration, ops, n, j);
      assert GrantsLast(duration, ops, n, j);
    } else {
      StateWithoutGrant(duration, ops, n, j);
      HeldAsGranted(duration, front, j);
      forall i: nat ensures GrantsLast(duration, front, i, j) <==> GrantsLast(duration, ops, i, j)
                    ensures GrantsLast(duration, front, i, j) ==>
                      Granted(duration, front, i, j) == Granted(duration, ops, i, j) {
        SameGrants(duration, ops, n, i, j);
      }
      var i: nat :| GrantsLast(duration, front, i, j);
      HeldStill(After(duration, front)[j], After(duration, ops)[j], Granted(duration, ops, i, j));
    }
  }

  lemma HeldStill(r: Record, s: Record, lease: Lease)
    requires HeldUnder(r, lease) && s.state == r.state
    ensures HeldUnder(s, lease)
  {
  }

  lemma SameGrants(duration: U64, ops: seq<Op>, n: nat, i: nat, j: U128)
    requires n < |ops| && |ops| == n + 1 && !Grants(duration, ops, n, j)
    ensures GrantsLast(duration, ops[..n], i, j) <==> GrantsLast(duration, ops, i, j)
    ensures GrantsLast(duration, ops, i, j) ==> Granted(duration, ops[..n], i, j) == Granted(duration, ops, i, j)
  {
    hide After, Step;
    forall h: nat ensures Grants(duration, ops[..n], h, j) <==> Grants(duration, ops, h, j) {
      if h < n {
        assert ops[..n][..h] == ops[..h];
      }
    }
    if i < n {
      assert ops[..n][..i] == ops[..i];
    }
  }

  lemma StateWithoutGrant(duration: U64, ops: seq<Op>, n: nat, j: U128)
    requires n < |ops| && !Grants(duration, ops, n, j)
    requires j in After(duration, ops[..n + 1]) && After(duration, ops[..n + 1])[j].state.Leased()
    ensures j in After(duration, ops[..n])
    ensures After(duration, ops[..n + 1])[j].state == After(duration, ops[..n])[j].state
    ensures After(duration, ops[..n])[j].revision <= After(duration, ops[..n + 1])[j].revision
  {
    hide After, OnRecord, ExpireRecord;
    AfterNext(duration, ops, n);
    var before, op := After(duration, ops[..n]), ops[n];
    if j in before {
      if op.Expire? {
        ExpiryLeased(before[j], op.now);
      } else if Single(op) && Early(duration, op).None? && Target(op) == j {
        LeasedWithoutGrant(duration, before[j], op);
        GrantHolds(duration, before[j], op);
      }
    }
  }

  /**
   * Only the holder works on a job: a lease operation succeeds only for the worker and epoch of the last lease granted,
   * and before that lease runs out.
   */
  lemma OnlyHolderSucceeds(duration: U64, ops: seq<Op>, k: nat)
    requires k < |ops| && UsesLease(ops[k]) && ReplyAt(duration, ops, k).Ok?
    ensures exists i: nat :: GrantsLast(duration, ops[..k], i, ops[k].lease.job)
    ensures forall i: nat | GrantsLast(duration, ops[..k], i, ops[k].lease.job) ::
      var lease := Granted(duration, ops[..k], i, ops[k].lease.job);
      && lease.worker == ops[k].lease.worker && lease.leaseEpoch == ops[k].lease.leaseEpoch
      && lease.revision <= ops[k].lease.revision && ops[k].now < lease.expiresAt
  {
    hide After, ReplyAt, OnRecord;
    var j := ops[k].lease.job;
    SuccessMoves(duration, ops, k);
    LeaseInTime(duration, After(duration, ops[..k])[j], ops[k]);
    HeldAsGranted(duration, ops[..k], j);
  }

  lemma LeaseInTime(duration: U64, r: Record, op: Op)
    requires UsesLease(op) && Early(duration, op).None? && OnRecord(duration, r, op).reply.Ok?
    ensures r.state.Leased() && r.revision == op.lease.revision
    ensures r.state.leaseEpoch == op.lease.leaseEpoch && r.state.worker == op.lease.worker
    ensures op.now < r.state.expiresAt
  {
  }

  /** The manifest describes an artifact of this job, made under this lease, with this generation. */
  ghost predicate Describes(spec: Spec, lease: Lease, generation: nat, kind: ArtifactKind, m: Manifest)
  {
    var schema := if kind.CheckpointArtifact? then spec.checkpointSchema else spec.resultSchema;
    m == Manifest(spec.id, lease.leaseEpoch, generation, kind, schema, spec.request.algorithm, spec.algorithmVersion,
                  spec.snapshotDigest, spec.digest, m.payloadDigest, m.chunkCount, m.totalBytes, m.contentDigest)
  }

  /** The holder asks before its lease runs out, and for what the job's state allows. */
  ghost predicate InTimeAndOrder(duration: U64, r: Record, op: Op)
    requires UsesLease(op)
  {
    op.now < op.lease.expiresAt &&
    match op
    case Begin(_, _) => r.state.Claimed?
    case Checkpoint(lease, manifest, now) =>
      && r.state.Running? && now + duration <= U64_MAX
      && Describes(r.spec, lease, r.nextGeneration, CheckpointArtifact, manifest)
    case Publish(lease, manifest, _) =>
      r.state.Running? && Describes(r.spec, lease, r.nextGeneration, ResultArtifact, manifest)
    case Renew(_, _) => true
    case Fail(_, _, _, _) => true
  }

  lemma HolderIsHeard(duration: U64, r: Record, op: Op)
    requires UsesLease(op) && Early(duration, op).None?
    requires HeldUnder(r, op.lease) && r.revision == op.lease.revision
    ensures OnRecord(duration, r, op).reply.Ok? <==> InTimeAndOrder(duration, r, op)
  {
    hide HighestCheckpoint;
  }

  /**
   * A granted lease is honoured until it runs out, as long as the job's record has not moved on: renewing and failing
   * always, starting while the job is only claimed, and storing what describes the job's next artifact while it runs.
   */
  lemma LeaseIsHonoured(duration: U64, ops: seq<Op>, i: nat, k: nat, j: U128)
    requires i < k < |ops| && Grants(duration, ops, i, j) && UsesLease(ops[k]) && Early(duration, ops[k]).None?
    requires ops[k].lease == Granted(duration, ops, i, j)
    requires j in After(duration, ops[..k]) && After(duration, ops[..k])[j].revision == ops[k].lease.revision
    ensures ReplyAt(duration, ops, k).Ok? <==> InTimeAndOrder(duration, After(duration, ops[..k])[j], ops[k])
  {
    hide After, OnRecord, HeldUnder, InTimeAndOrder;
    GrantSays(duration, ops, i, j);
    RevisionsGrow(duration, ops, i + 1, k, j);
    HolderIsHeard(duration, After(duration, ops[..k])[j], ops[k]);
  }

  // ----- one worker at a time

  /** The holder gave the job up, or its lease had run out when an expiry pass came by. */
  ghost predicate LetsGo(duration: U64, ops: seq<Op>, m: nat, j: U128)
  {
    && m < |ops| && j in After(duration, ops[..m]) && After(duration, ops[..m])[j].state.Leased()
    && (|| (ops[m].Fail? && ops[m].lease.job == j && ReplyAt(duration, ops, m).Ok?)
        || (ops[m].Expire? && After(duration, ops[..m])[j].state.expiresAt <= ops[m].now))
  }

  lemma RecordStaysLeased(duration: U64, r: Record, op: Op)
    requires Single(op) && Early(duration, op).None? && r.state.Leased()
    ensures var c := OnRecord(duration, r, op);
      c.record.state.Leased() || c.record.state.Terminal() || (op.Fail? && c.reply.Ok?)
  {
  }

  lemma StepStaysLeased(duration: U64, ops: seq<Op>, m: nat, j: U128)
    requires m < |ops| && j in After(duration, ops[..m]) && After(duration, ops[..m])[j].state.Leased()
    requires !LetsGo(duration, ops, m, j)
    ensures j in After(duration, ops[..m + 1])
    ensures var state := After(duration, ops[..m + 1])[j].state; state.Leased() || state.Terminal()
  {
    hide After, OnRecord;
    AfterNext(duration, ops, m);
    var r, op := After(duration, ops[..m])[j], ops[m];
    if Single(op) && Early(duration, op).None? && Target(op) == j {
      RecordStaysLeased(duration, r, op);
    }
  }

  lemma {:induction false} LeasedUntilLetGo(duration: U64, ops: seq<Op>, i: nat, k: nat, j: U128)
    requires i <= k <= |ops| && j in After(duration, ops[..i]) && After(duration, ops[..i])[j].state.Leased()
    requires forall m: nat | i <= m < k :: !LetsGo(duration, ops, m, j)
    ensures j in After(duration, ops[..k])
    ensures var state := After(duration, ops[..k])[j].state; state.Leased() || state.Terminal()
    decreases k - i
  {
    hide After, LetsGo;
    if i < k {
      LeasedUntilLetGo(duration, ops, i, k - 1, j);
      if After(duration, ops[..k - 1])[j].state.Leased() {
        StepStaysLeased(duration, ops, k - 1, j);
      } else {
        RevisionsGrow(duration, ops, k - 1, k, j);
      }
    }
  }

  lemma ClaimTakes(duration: U64, r: Record, op: Op)
    requires op.Claim? && Early(duration, op).None? && OnRecord(duration, r, op).reply.Ok?
    ensures r.state.Queued? && OnRecord(duration, r, op).record.state.Claimed?
    ensures OnRecord(duration, r, op).reply.value.Some?
  {
  }

  /** A job is claimed a second time only after its holder let go, and under a later epoch. */
  lemma ClaimedAgain(duration: U64, ops: seq<Op>, i: nat, k: nat)
    requires i < k < |ops| && ops[i].Claim? && ops[k].Claim? && ops[i].job == ops[k].job
    requires ReplyAt(duration, ops, i).Ok? && ReplyAt(duration, ops, k).Ok?
    ensures exists m: nat | i < m < k :: LetsGo(duration, ops, m, ops[i].job)
    ensures Grants(duration, ops, i, ops[i].job) && Grants(duration, ops, k, ops[i].job)
    ensures Granted(duration, ops, i, ops[i].job).leaseEpoch < Granted(duration, ops, k, ops[i].job).leaseEpoch
  {
    hide After, OnRecord, LetsGo;
    var j := ops[i].job;
    ClaimGrants(duration, ops, i);
    ClaimGrants(duration, ops, k);
    RevisionsGrow(duration, ops, i + 1, k, j);
    RunsAreSound(duration, ops[..i + 1], j);
    if !exists m: nat | i < m < k :: LetsGo(duration, ops, m, j) {
      LeasedUntilLetGo(duration, ops, i + 1, k, j);
    }
  }

  lemma ClaimGrants(duration: U64, ops: seq<Op>, i: nat)
    requires i < |ops| && ops[i].Claim? && ReplyAt(duration, ops, i).Ok?
    ensures var j := ops[i].job;
      && j in After(duration, ops[..i]) && After(duration, ops[..i])[j].state.Queued?
      && j in After(duration, ops[..i + 1]) && After(duration, ops[..i + 1])[j].state.Claimed?
      && Grants(duration, ops, i, j)
      && Granted(duration, ops, i, j).leaseEpoch == After(duration, ops[..i])[j].leaseEpoch + 1
      && Granted(duration, ops, i, j).leaseEpoch == After(duration, ops[..i + 1])[j].state.leaseEpoch
  {
    hide After, OnRecord;
    SuccessMoves(duration, ops, i);
    ClaimTakes(duration, After(duration, ops[..i])[ops[i].job], ops[i]);
    GrantHolds(duration, After(duration, ops[..i])[ops[i].job], ops[i]);
    AfterNext(duration, ops, i);
    GrantSays(duration, ops, i, ops[i].job);
  }

  // ----- retention

  /** With the job's current token: an artifact is released, and a job buried, exactly when retention allows it. */
  lemma RetentionAllows(duration: U64, ops: seq<Op>, j: U128, key: ArtifactKey, now: U64)
    requires j in After(duration, ops)
    ensures var r := After(duration, ops)[j];
      && (ReplyAt(duration, ops + [Unpin(j, key, r.Token(), now)], |ops|).Ok?
          <==> r.state.Terminal() && r.spec.retentionUntil <= now && key in r.pins)
      && (ReplyAt(duration, ops + [Tombstone(j, r.Token(), now)], |ops|).Ok?
          <==> r.state.Terminal() && !r.state.Tombstoned? && r.spec.retentionUntil <= now && r.pins == {})
      && (ReplyAt(duration, ops + [Pin(j, key, r.Token(), now)], |ops|).Ok?
          <==> !r.state.Tombstoned? && key in r.artifacts)
  {
    hide After, ReplyAt;
    var token := After(duration, ops)[j].Token();
    Appended(duration, ops, Unpin(j, key, token, now));
    Appended(duration, ops, Tombstone(j, token, now));
    Appended(duration, ops, Pin(j, key, token, now));
  }

  lemma TombstoneFinds(duration: U64, r: Record, op: Op)
    requires op.Tombstone? && OnRecord(duration, r, op).reply.Ok?
    ensures r.pins == {} && r.spec.retentionUntil <= op.now && OnRecord(duration, r, op).record.state == Tombstoned
  {
  }

  /** A job with a result is buried only after somebody released the result and its retention had passed. */
  lemma ReleasedBeforeBurial(duration: U64, ops: seq<Op>, i: nat, k: nat)
    requires i < k < |ops| && ops[i].Publish? && ops[k].Tombstone? && ops[i].lease.job == ops[k].job
    requires ReplyAt(duration, ops, i).Ok? && ReplyAt(duration, ops, k).Ok?
    ensures exists m | i < m < k ::
      Releases(duration, ops, m, ops[k].job, ArtifactKey(ResultArtifact, ops[i].manifest.generation))
    ensures ops[k].job in After(duration, ops[..k])
    ensures After(duration, ops[..k])[ops[k].job].spec.retentionUntil <= ops[k].now
  {
    hide After, ReplyAt, OnRecord, Releases;
    SuccessMoves(duration, ops, k);
    TombstoneFinds(duration, After(duration, ops[..k])[ops[k].job], ops[k]);
    ResultIsKept(duration, ops, i, k);
  }

  lemma BuriedRefuses(duration: U64, r: Record, op: Op)
    requires Single(op) && Early(duration, op).None? && r.state.Tombstoned?
    ensures OnRecord(duration, r, op).record.state.Tombstoned?
    ensures OnRecord(duration, r, op).reply.Ok? ==> op.Unpin? || op.Reclaim?
  {
  }

  /** A buried job stays buried, and nothing but its leftovers can be cleared away. */
  lemma {:induction false} BuriedForGood(duration: U64, ops: seq<Op>, i: nat, k: nat)
    requires i < k <= |ops| && ops[i].Tombstone? && ReplyAt(duration, ops, i).Ok?
    ensures ops[i].job in After(duration, ops[..k]) && After(duration, ops[..k])[ops[i].job].state.Tombstoned?
    ensures k < |ops| && Single(ops[k]) && Target(ops[k]) == ops[i].job && ReplyAt(duration, ops, k).Ok? ==>
              ops[k].Unpin? || ops[k].Reclaim?
    decreases k
  {
    hide After, ReplyAt, OnRecord;
    var j := ops[i].job;
    if k == i + 1 {
      SuccessMoves(duration, ops, i);
      TombstoneFinds(duration, After(duration, ops[..i])[j], ops[i]);
    } else {
      BuriedForGood(duration, ops, i, k - 1);
      AfterNext(duration, ops, k - 1);
      if Single(ops[k - 1]) && Early(duration, ops[k - 1]).None? && Target(ops[k - 1]) == j {
        BuriedRefuses(duration, After(duration, ops[..k - 1])[j], ops[k - 1]);
      }
    }
    if k < |ops| && Single(ops[k]) && Target(ops[k]) == j && ReplyAt(duration, ops, k).Ok? {
      SuccessMoves(duration, ops, k);
      BuriedRefuses(duration, After(duration, ops[..k])[j], ops[k]);
    }
  }

  /** Operation `m` reclaims the artifact, which nobody pins. */
  ghost predicate Reclaims(duration: U64, ops: seq<Op>, m: nat, j: U128, key: ArtifactKey)
  {
    && m < |ops| && ops[m].Reclaim? && ops[m].job == j && ReplyAt(duration, ops, m).Ok?
    && ArtifactKey(ops[m].manifest.kind, ops[m].manifest.generation) == key
    && j in After(duration, ops[..m]) && key !in After(duration, ops[..m])[j].pins
  }

  ghost predicate Stored(records: Records, j: U128, key: ArtifactKey, manifest: Manifest)
  {
    j in records && key in records[j].artifacts && records[j].artifacts[key] == manifest
  }

  lemma RecordKeepsStored(duration: U64, r: Record, op: Op, key: ArtifactKey)
    requires Single(op) && Early(duration, op).None? && RecordSound(r) && key in r.artifacts
    ensures var c := OnRecord(duration, r, op);
      || (key in c.record.artifacts && c.record.artifacts[key] == r.artifacts[key])
      || (op.Reclaim? && c.reply.Ok? && key !in r.pins
          && ArtifactKey(op.manifest.kind, op.manifest.generation) == key && key !in c.record.artifacts)
  {
    hide ManifestSound;
  }

  lemma StepKeepsStored(duration: U64, ops: seq<Op>, m: nat, j: U128, key: ArtifactKey, manifest: Manifest)
    requires m < |ops| && Stored(After(duration, ops[..m]), j, key, manifest)
    ensures Stored(After(duration, ops[..m + 1]), j, key, manifest) || Reclaims(duration, ops, m, j, key)
  {
    hide After, OnRecord, RecordSound;
    AfterNext(duration, ops, m);
    RunsAreSound(duration, ops[..m], j);
    if Single(ops[m]) && Early(duration, ops[m]).None? && Target(ops[m]) == j {
      RecordKeepsStored(duration, After(duration, ops[..m])[j], ops[m], key);
    }
  }

  /** A stored artifact keeps its content until it is reclaimed, and only unpinned artifacts are. */
  lemma {:induction false} StoredUntilReclaimed(duration: U64, ops: seq<Op>, i: nat, k: nat, j: U128,
                                                key: ArtifactKey, manifest: Manifest)
    requires i <= k <= |ops| && Stored(After(duration, ops[..i]), j, key, manifest)
    ensures || Stored(After(duration, ops[..k]), j, key, manifest)
            || exists m: nat | i <= m < k :: Reclaims(duration, ops, m, j, key)
    decreases k - i
  {
    hide After, Stored, Reclaims;
    if i < k {
      StoredUntilReclaimed(duration, ops, i, k - 1, j, key, manifest);
      if Stored(After(duration, ops[..k - 1]), j, key, manifest) {
        StepKeepsStored(duration, ops, k - 1, j, key, manifest);
      }
    }
  }

  lemma RecordStoresNew(duration: U64, r: Record, op: Op, key: ArtifactKey)
    requires Single(op) && Early(duration, op).None? && key !in r.artifacts && key.generation < r.nextGeneration
    ensures key !in OnRecord(duration, r, op).record.artifacts
  {
  }

  /** What is reclaimed is gone, and no later artifact takes its place. */
  lemma {:induction false} ReclaimedForGood(duration: U64, ops: seq<Op>, i: nat, k: nat, j: U128, key: ArtifactKey)
    requires i < k <= |ops| && Reclaims(duration, ops, i, j, key)
    ensures j in After(duration, ops[..k]) && key !in After(duration, ops[..k])[j].artifacts
    ensures key.generation < After(duration, ops[..k])[j].nextGeneration
    decreases k
  {
    hide After, ReplyAt, OnRecord, RecordSound;
    if k == i + 1 {
      SuccessMoves(duration, ops, i);
      RunsAreSound(duration, ops[..i], j);
      ReclaimTakes(duration, After(duration, ops[..i])[j], ops[i]);
    } else {
      ReclaimedForGood(duration, ops, i, k - 1, j, key);
      AfterNext(duration, ops, k - 1);
      StepMoves(duration, After(duration, ops[..k - 1]), ops[k - 1], j);
      if Single(ops[k - 1]) && Early(duration, ops[k - 1]).None? && Target(ops[k - 1]) == j {
        RecordStoresNew(duration, After(duration, ops[..k - 1])[j], ops[k - 1], key);
      }
    }
  }

  lemma ReclaimTakes(duration: U64, r: Record, op: Op)
    requires op.Reclaim? && RecordSound(r) && OnRecord(duration, r, op).reply.Ok?
    ensures var key, s := ArtifactKey(op.manifest.kind, op.manifest.generation), OnRecord(duration, r, op).record;
      key !in s.artifacts && key.generation < s.nextGeneration
  {
    hide ManifestSound;
  }

  /** With the job's current token, an artifact is reclaimed exactly when it is stored as described and not pinned. */
  lemma ReclaimAllowed(duration: U64, ops: seq<Op>, j: U128, manifest: Manifest, now: U64)
    requires j in After(duration, ops)
    ensures var r, key := After(duration, ops)[j], ArtifactKey(manifest.kind, manifest.generation);
      (ReplyAt(duration, ops + [Reclaim(j, r.Token(), manifest, now)], |ops|).Ok?
       <==> Stored(After(duration, ops), j, key, manifest) && key !in r.pins)
  {
    hide After, ReplyAt;
    Appended(duration, ops, Reclaim(j, After(duration, ops)[j].Token(), manifest, now));
  }

  /** Only the latest checkpoint is pinned, and none once there is a result. */
  ghost predicate LatestPinned(r: Record)
  {
    && (forall key | key in r.pins && key.kind.CheckpointArtifact? ::
          HighestCheckpoint(r.artifacts.Keys) == Some(key.generation))
    && (r.state.Succeeded? ==> forall key | key in r.pins :: key.kind.ResultArtifact?)
  }

  lemma RecordKeepsLatest(duration: U64, r: Record, op: Op)
    requires Single(op) && Early(duration, op).None? && RecordSound(r) && CheckpointKept(r) && LatestPinned(r)
    requires !op.Pin? && (op.Checkpoint? ==> OnRecord(duration, r, op).reply != Err(TimeOverflow))
    ensures LatestPinned(OnRecord(duration, r, op).record)
  {
    hide HighestCheckpoint, ArtifactsSound;
    var s := OnRecord(duration, r, op).record;
    if s != r {
      if op.Checkpoint? {
        StoredIsHighest(r, op.manifest);
      } else if op.Publish? {
        ResultKeepsHighest(r, op.manifest);
      } else if op.Reclaim? {
        ReclaimKeepsLatest(r, op.manifest);
      }
    }
  }

  lemma ResultKeepsHighest(r: Record, manifest: Manifest)
    requires manifest.kind.ResultArtifact?
    ensures HighestCheckpoint(Store(r, manifest).artifacts.Keys) == HighestCheckpoint(r.artifacts.Keys)
  {
    var keys := Store(r, manifest).artifacts.Keys;
    assert keys == r.artifacts.Keys + {ArtifactKey(ResultArtifact, manifest.generation)};
    HighestIs(keys, HighestCheckpoint(r.artifacts.Keys));
  }

  lemma ReclaimKeepsLatest(r: Record, manifest: Manifest)
    requires LatestPinned(r) && ArtifactsSound(r)
    requires ArtifactKey(manifest.kind, manifest.generation) !in r.pins
    ensures forall key | key in r.pins && key.kind.CheckpointArtifact? ::
      HighestCheckpoint((r.artifacts - {ArtifactKey(manifest.kind, manifest.generation)}).Keys) == Some(key.generation)
  {
    var keys := (r.artifacts - {ArtifactKey(manifest.kind, manifest.generation)}).Keys;
    forall key | key in r.pins && key.kind.CheckpointArtifact?
      ensures HighestCheckpoint(keys) == Some(key.generation)
    {
      assert key == ArtifactKey(CheckpointArtifact, key.generation) && key in keys && keys <= r.artifacts.Keys;
      HighestIs(keys, Some(key.generation));
    }
  }

  /** Unless somebody pins more or a checkpoint overflows, a superseded checkpoint is free to be reclaimed. */
  lemma {:induction false} OnlyLatestPinned(duration: U64, ops: seq<Op>, j: U128)
    requires j in After(duration, ops) && forall i | 0 <= i < |ops| :: !ops[i].Pin? && !Overflows(duration, ops, i)
    ensures LatestPinned(After(duration, ops)[j])
    decreases |ops|
  {
    hide RecordSound, OnRecord, CheckpointKept, LatestPinned;
    var front, op := ops[..|ops| - 1], ops[|ops| - 1];
    if j in After(duration, front) {
      var r := After(duration, front)[j];
      forall i | 0 <= i < |front| ensures !front[i].Pin? && !Overflows(duration, front, i) {
        assert front[..i] == ops[..i] && !Overflows(duration, ops, i);
      }
      assert !Overflows(duration, ops, |ops| - 1);
      OnlyLatestPinned(duration, front, j);
      CheckpointsAreKept(duration, front, j);
      RunsAreSound(duration, front, j);
      ExpiryKeepsLatest(r, if op.Expire? then op.now else 0);
      if Single(op) && Early(duration, op).None? && Target(op) == j {
        RecordKeepsLatest(duration, r, op);
      }
    } else {
      NewPinsNone(op.spec, op.at);
    }
  }

  lemma ExpiryKeepsLatest(r: Record, now: U64)
    requires LatestPinned(r)
    ensures LatestPinned(ExpireRecord(r, now))
  {
  }

  lemma NewPinsNone(spec: Spec, at: U64)
    ensures LatestPinned(NewRecord(spec, at))
  {
  }
}

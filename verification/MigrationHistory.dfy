/** What a migration holds and does next, told from the requests of its run and which of them were accepted. */
module MigrationHistory {
  import opened Wrappers
  import opened ByteStrings
  import opened MigrationSteps
  import opened MigrationRuns

  ghost predicate Accepted(m: Migration, requests: seq<Request>, i: nat)
  {
    i < |requests| && Step(After(m, requests[..i]), requests[i]).reply.Ok?
  }

  lemma AcceptedBefore(m: Migration, requests: seq<Request>, n: nat, i: nat)
    requires n <= |requests|
    ensures Accepted(m, requests[..n], i) <==> i < n && Accepted(m, requests, i)
  {
    hide Step, After;
    if i < n {
      assert requests[..n][..i] == requests[..i];
    }
  }

  lemma AfterNext(m: Migration, requests: seq<Request>, i: nat)
    requires i < |requests|
    ensures After(m, requests[..i + 1]) == Step(After(m, requests[..i]), requests[i]).migration
  {
    hide Step;
    assert requests[..i + 1][..i] == requests[..i];
  }

  // ----- owners

  /** The replica's namespaces are known under these owners. */
  ghost predicate Owns(m: Migration, v: U64, source: Digest, target: Digest)
  {
    v in m.sourceOwners && m.sourceOwners[v] == source && v in m.targetOwners && m.targetOwners[v] == target
  }

  ghost predicate ClaimsAs(m: Migration, requests: seq<Request>, i: nat, v: U64, source: Digest, target: Digest)
  {
    && Accepted(m, requests, i) && requests[i].ClaimNamespace? && requests[i].replica == v
    && requests[i].sourceOwner == source && requests[i].targetOwner == target
  }

  ghost predicate OwnersPaired(m: Migration)
  {
    m.sourceOwners.Keys == m.targetOwners.Keys <= m.voters
  }

  lemma StepOwns(m: Migration, request: Request, v: U64, source: Digest, target: Digest)
    requires OwnersPaired(m)
    ensures OwnersPaired(Step(m, request).migration)
    ensures Owns(Step(m, request).migration, v, source, target) <==>
              || Owns(m, v, source, target)
              || (Step(m, request).reply.Ok? && request.ClaimNamespace? && request.replica == v
                  && request.sourceOwner == source && request.targetOwner == target)
  {
    hide EqualVoterProof, FirstOwner, AllCleanedUp;
  }

  lemma ClaimsNext(m: Migration, requests: seq<Request>, front: seq<Request>, v: U64, source: Digest, target: Digest)
    requires requests != [] && front == requests[..|requests| - 1]
    ensures (exists i: nat :: ClaimsAs(m, requests, i, v, source, target)) <==>
              || (exists i: nat :: ClaimsAs(m, front, i, v, source, target))
              || ClaimsAs(m, requests, |requests| - 1, v, source, target)
  {
    hide Step, After;
    var n := |requests| - 1;
    forall i: nat ensures ClaimsAs(m, requests[..n], i, v, source, target)
                     <==> i < n && ClaimsAs(m, requests, i, v, source, target) {
      AcceptedBefore(m, requests, n, i);
    }
  }

  /** A replica's owners are those of a claim that was accepted; there is never a second pair. */
  lemma {:induction false} OwnersAreClaimed(m: Migration, requests: seq<Request>, v: U64, source: Digest,
                                            target: Digest)
    requires Fresh(m)
    ensures OwnersPaired(After(m, requests))
    ensures Owns(After(m, requests), v, source, target) <==>
              exists i: nat :: ClaimsAs(m, requests, i, v, source, target)
    decreases |requests|
  {
    hide Step, Owns, OwnersPaired;
    if requests == [] {
      FreshOwns(m, v, source, target);
    } else {
      var front := requests[..|requests| - 1];
      OwnersAreClaimed(m, front, v, source, target);
      StepOwns(After(m, front), requests[|requests| - 1], v, source, target);
      ClaimsNext(m, requests, front, v, source, target);
    }
  }

  lemma FreshOwns(m: Migration, v: U64, source: Digest, target: Digest)
    requires Fresh(m)
    ensures OwnersPaired(m) && !Owns(m, v, source, target)
  {
  }

  // ----- receipts

  ghost predicate Holds(m: Migration, r: Receipt)
  {
    var key := ReceiptKey(r.kind, r.replica);
    key in m.receipts && m.receipts[key] == r
  }

  /** The request hands in the receipt. */
  predicate HandsIn(request: Request, r: Receipt)
  {
    (request.RecordReceipt? || request.RecordReverse?) && request.receipt == r
  }

  ghost predicate Gives(m: Migration, requests: seq<Request>, i: nat, r: Receipt)
  {
    Accepted(m, requests, i) && HandsIn(requests[i], r)
  }

  lemma StepHolds(m: Migration, request: Request, r: Receipt)
    requires !r.kind.CleanedUp?
    ensures Holds(Step(m, request).migration, r) <==>
              Holds(m, r) || (Step(m, request).reply.Ok? && HandsIn(request, r))
  {
    hide EqualVoterProof, FirstOwner, AllCleanedUp;
  }

  lemma GivesNext(m: Migration, requests: seq<Request>, front: seq<Request>, r: Receipt)
    requires requests != [] && front == requests[..|requests| - 1]
    ensures (exists i: nat :: Gives(m, requests, i, r)) <==>
              (exists i: nat :: Gives(m, front, i, r)) || Gives(m, requests, |requests| - 1, r)
  {
    hide Step, After;
    var n := |requests| - 1;
    forall i: nat ensures Gives(m, requests[..n], i, r) <==> i < n && Gives(m, requests, i, r) {
      AcceptedBefore(m, requests, n, i);
    }
  }

  /** The receipts on file are the ones that were handed in and accepted. */
  lemma {:induction false} ReceiptsAreGiven(m: Migration, requests: seq<Request>, r: Receipt)
    requires Fresh(m) && !r.kind.CleanedUp?
    ensures Holds(After(m, requests), r) <==> exists i: nat :: Gives(m, requests, i, r)
    decreases |requests|
  {
    hide Step, Holds;
    if requests == [] {
      FreshHolds(m, r);
    } else {
      var front := requests[..|requests| - 1];
      ReceiptsAreGiven(m, front, r);
      StepHolds(After(m, front), requests[|requests| - 1], r);
      GivesNext(m, requests, front, r);
    }
  }

  lemma FreshHolds(m: Migration, r: Receipt)
    requires Fresh(m)
    ensures !Holds(m, r)
  {
  }

  /** An accepted receipt in which the replica reports this index and digest. */
  ghost predicate Reports(m: Migration, requests: seq<Request>, i: nat, kind: ReceiptKind, v: U64, proof: Proof)
  {
    && Accepted(m, requests, i) && (requests[i].RecordReceipt? || requests[i].RecordReverse?)
    && requests[i].receipt.kind == kind && requests[i].receipt.replica == v
    && requests[i].receipt.appliedIndex == proof.index && requests[i].receipt.logicalDigest == proof.digest
  }

  /** Every voter has reported the same. */
  ghost predicate AllReported(m: Migration, requests: seq<Request>, kind: ReceiptKind, proof: Proof)
  {
    forall v | v in m.voters :: exists i: nat :: Reports(m, requests, i, kind, v, proof)
  }

  lemma ReportIsFiled(m: Migration, requests: seq<Request>, kind: ReceiptKind, v: U64, proof: Proof)
    requires Fresh(m) && !kind.CleanedUp?
    ensures (exists i: nat :: Reports(m, requests, i, kind, v, proof)) <==>
              Agrees(v, After(m, requests).receipts, kind, proof)
  {
    hide Step, After;
    var n := After(m, requests);
    if i: nat :| Reports(m, requests, i, kind, v, proof) {
      ReceiptsAreGiven(m, requests, requests[i].receipt);
      assert Gives(m, requests, i, requests[i].receipt);
    }
    if Agrees(v, n.receipts, kind, proof) {
      var r := n.receipts[ReceiptKey(kind, v)];
      FiledAsKeyed(m, requests, ReceiptKey(kind, v));
      ReceiptsAreGiven(m, requests, r);
      var i: nat :| Gives(m, requests, i, r);
      assert Reports(m, requests, i, kind, v, proof);
    }
  }

  lemma FiledAsKeyed(m: Migration, requests: seq<Request>, k: ReceiptKey)
    requires Fresh(m) && k in After(m, requests).receipts
    ensures After(m, requests).receipts[k].kind == k.kind && After(m, requests).receipts[k].replica == k.replica
  {
    hide Step, After, PairSound, ProofSound;
    RunsKeepInvariant(m, requests);
    assert Filed(After(m, requests), k, SnapshotOf(m, requests));
  }

  lemma SameVoters(m: Migration, requests: seq<Request>)
    requires Fresh(m)
    ensures var n := After(m, requests);
      && n.voters == m.voters && n.id == m.id && n.catalogVersion == m.catalogVersion
      && n.sourceEpoch == m.sourceEpoch && n.sourceGeneration == m.sourceGeneration
      && n.targetGeneration == m.targetGeneration && n.targetClass == m.targetClass
  {
    hide Step, After;
    RunsAdvance(m, requests, 0, |requests|);
    assert requests[..0] == [] && requests[..|requests|] == requests;
    AfterNothing(m);
  }

  /** The proof of a kind is found exactly when every voter reported it. */
  lemma ReportsAreProof(m: Migration, requests: seq<Request>, kind: ReceiptKind, proof: Proof)
    requires Fresh(m) && !kind.CleanedUp?
    ensures AllReported(m, requests, kind, proof) <==> EqualVoterProof(After(m, requests), kind) == Ok(proof)
    ensures AllReported(m, requests, kind, proof) <==> Unanimous(After(m, requests), kind, proof)
  {
    hide Step, After, Reports, EqualVoterProof;
    SameVoters(m, requests);
    ProofIsUnanimous(After(m, requests), kind, proof);
    forall v | v in m.voters
      ensures (exists i: nat :: Reports(m, requests, i, kind, v, proof)) <==>
                Agrees(v, After(m, requests).receipts, kind, proof)
    {
      ReportIsFiled(m, requests, kind, v, proof);
    }
  }

  // ----- receipts in order

  ghost predicate Checked(m: Migration)
  {
    forall k | k in m.receipts :: CheckReceipt(m, m.receipts[k]).None?
  }

  lemma StepChecks(m: Migration, request: Request)
    requires PairSound(m) && Checked(m)
    ensures Checked(Step(m, request).migration)
  {
    hide EqualVoterProof, FirstOwner, AllCleanedUp;
  }

  /** Every receipt on file belongs to this migration and comes from a voter. */
  lemma {:induction false} RunsAreChecked(m: Migration, requests: seq<Request>)
    requires Fresh(m)
    ensures Checked(After(m, requests))
    decreases |requests|
  {
    hide Step, Checked, PairSound, ProofSound, ReceiptsSound;
    if requests == [] {
      FreshIsChecked(m);
    } else {
      var front := requests[..|requests| - 1];
      RunsAreChecked(m, front);
      RunsKeepInvariant(m, front);
      StepChecks(After(m, front), requests[|requests| - 1]);
    }
  }

  lemma FreshIsChecked(m: Migration)
    requires Fresh(m)
    ensures Checked(m)
  {
  }

  // ----- cleanup

  ghost predicate Cleans(m: Migration, requests: seq<Request>, i: nat, v: U64)
  {
    Accepted(m, requests, i) && requests[i].Cleanup? && requests[i].replica == v
  }

  /** The replica's source namespace was claimed for this owner. */
  ghost predicate Claimed(m: Migration, requests: seq<Request>, v: U64, owner: Digest)
  {
    exists i: nat, target: Digest :: ClaimsAs(m, requests, i, v, owner, target)
  }

  lemma ClaimedIsOwner(m: Migration, requests: seq<Request>, v: U64, owner: Digest)
    requires Fresh(m)
    ensures Claimed(m, requests, v, owner) <==>
              v in After(m, requests).sourceOwners && After(m, requests).sourceOwners[v] == owner
    ensures Claimed(m, requests, v, owner) ==> v in m.voters
  {
    hide Step, After, ClaimsAs;
    var n := After(m, requests);
    SameVoters(m, requests);
    if Claimed(m, requests, v, owner) {
      var i: nat, target :| ClaimsAs(m, requests, i, v, owner, target);
      OwnersAreClaimed(m, requests, v, owner, target);
    }
    OwnersAreClaimed(m, requests, v, owner, ZERO);
    if v in n.sourceOwners && n.sourceOwners[v] == owner {
      assert v in n.targetOwners.Keys;
      OwnersAreClaimed(m, requests, v, owner, n.targetOwners[v]);
    }
  }

  lemma CleanupWhen(m: Migration, replica: U64, owner: Digest, pinsReleased: bool)
    ensures CleanupStep(m, replica, owner, pinsReleased).reply.Ok? <==>
              && (m.state.Grace? || m.state.Completed?) && pinsReleased
              && replica in m.sourceOwners && m.sourceOwners[replica] == owner
              && EqualVoterProof(m, ReverseMirrored).Ok?
              && InsertReceipt(m, CleanupReceipt(m, replica, EqualVoterProof(m, ReverseMirrored).value, owner)).Ok?
  {
    hide EqualVoterProof, InsertReceipt, AllCleanedUp;
  }

  /** A replica that cleans up again leaves the very receipt it left before. */
  lemma NoConflict(m: Migration, snapshot: nat, replica: U64, owner: Digest, proof: Proof)
    requires Invariant(m, snapshot) && Checked(m) && replica in m.voters
    requires replica in m.sourceOwners && m.sourceOwners[replica] == owner && Unanimous(m, ReverseMirrored, proof)
    ensures InsertReceipt(m, CleanupReceipt(m, replica, proof, owner)).Ok?
  {
    var k := ReceiptKey(CleanedUp, replica);
    if k in m.receipts {
      assert Filed(m, k, snapshot) && CheckReceipt(m, m.receipts[k]).None?;
      var v :| v in m.voters;
      assert m.receipts[k] == CleanupReceipt(m, replica, proof, owner);
    }
  }

  /**
   * In every run a cleanup is accepted exactly when the pins are released, the replica claimed its source namespace for
   * this owner, the migration is in grace or complete, and every voter reported the same reverse mirror.
   */
  lemma CleanupAcceptedIff(m: Migration, requests: seq<Request>, i: nat)
    requires Fresh(m) && i < |requests| && requests[i].Cleanup?
    ensures Accepted(m, requests, i) <==>
              && requests[i].pinsReleased && Claimed(m, requests[..i], requests[i].replica, requests[i].owner)
              && (After(m, requests[..i]).state.Grace? || After(m, requests[..i]).state.Completed?)
              && exists proof :: AllReported(m, requests[..i], ReverseMirrored, proof)
  {
    hide After, Claimed, AllReported, EqualVoterProof, InsertReceipt, Checked, Invariant, Unanimous, CleanupStep;
    var n, c := After(m, requests[..i]), requests[i];
    CleanupWhen(n, c.replica, c.owner, c.pinsReleased);
    ClaimedIsOwner(m, requests[..i], c.replica, c.owner);
    SameVoters(m, requests[..i]);
    RunsKeepInvariant(m, requests[..i]);
    RunsAreChecked(m, requests[..i]);
    if EqualVoterProof(n, ReverseMirrored).Ok? {
      var proof := EqualVoterProof(n, ReverseMirrored).value;
      ReportsAreProof(m, requests[..i], ReverseMirrored, proof);
      if Claimed(m, requests[..i], c.replica, c.owner) {
        NoConflict(n, SnapshotOf(m, requests[..i]), c.replica, c.owner, proof);
      }
    } else {
      forall proof ensures !AllReported(m, requests[..i], ReverseMirrored, proof) {
        ReportsAreProof(m, requests[..i], ReverseMirrored, proof);
      }
    }
  }

  // ----- completion

  lemma StepCleans(m: Migration, request: Request, v: U64)
    ensures ReceiptKey(CleanedUp, v) in Step(m, request).migration.receipts <==>
              || ReceiptKey(CleanedUp, v) in m.receipts
              || (Step(m, request).reply.Ok? && request.Cleanup? && request.replica == v)
  {
    hide EqualVoterProof, FirstOwner, AllCleanedUp;
  }

  lemma CleansNext(m: Migration, requests: seq<Request>, front: seq<Request>, v: U64)
    requires requests != [] && front == requests[..|requests| - 1]
    ensures (exists i: nat :: Cleans(m, requests, i, v)) <==>
              (exists i: nat :: Cleans(m, front, i, v)) || Cleans(m, requests, |requests| - 1, v)
  {
    hide Step, After;
    var n := |requests| - 1;
    forall i: nat ensures Cleans(m, front, i, v) <==> i < n && Cleans(m, requests, i, v) {
      AcceptedBefore(m, requests, n, i);
    }
  }

  lemma {:induction false} CleanedIsRequested(m: Migration, requests: seq<Request>, v: U64)
    requires Fresh(m)
    ensures ReceiptKey(CleanedUp, v) in After(m, requests).receipts <==> exists i: nat :: Cleans(m, requests, i, v)
    decreases |requests|
  {
    hide Step;
    if requests != [] {
      var front := requests[..|requests| - 1];
      CleanedIsRequested(m, front, v);
      StepCleans(After(m, front), requests[|requests| - 1], v);
      CleansNext(m, requests, front, v);
    }
  }

  lemma StepCompletes(m: Migration, request: Request)
    requires m.voters != {} && PairSound(m) && (AllCleanedUp(m) <==> m.state.Completed?)
    ensures var n := Step(m, request).migration; AllCleanedUp(n) <==> n.state.Completed?
  {
    hide EqualVoterProof, FirstOwner;
    var n := Step(m, request).migration;
    forall v ensures ReceiptKey(CleanedUp, v) in n.receipts <==>
                       || ReceiptKey(CleanedUp, v) in m.receipts
                       || (Step(m, request).reply.Ok? && request.Cleanup? && request.replica == v) {
      StepCleans(m, request, v);
    }
    StepAdvances(m, request);
  }

  lemma {:induction false} CompletedIsCleaned(m: Migration, requests: seq<Request>)
    requires Fresh(m)
    ensures After(m, requests).state.Completed? <==> AllCleanedUp(After(m, requests))
    decreases |requests|
  {
    hide Step, PairSound, ProofSound, ReceiptsSound, AllCleanedUp;
    if requests == [] {
      FreshIsUncleaned(m);
    } else {
      var front := requests[..|requests| - 1];
      CompletedIsCleaned(m, front);
      RunsKeepInvariant(m, front);
      SameVoters(m, front);
      StepCompletes(After(m, front), requests[|requests| - 1]);
    }
  }

  lemma FreshIsUncleaned(m: Migration)
    requires Fresh(m)
    ensures !AllCleanedUp(m)
  {
    var v :| v in m.voters;
  }

  /** A migration is complete exactly when the cleanup of every voter was accepted. */
  lemma CompletedIff(m: Migration, requests: seq<Request>)
    requires Fresh(m)
    ensures After(m, requests).state.Completed? <==>
              forall v | v in m.voters :: exists i: nat :: Cleans(m, requests, i, v)
  {
    hide Step, After, Cleans;
    CompletedIsCleaned(m, requests);
    SameVoters(m, requests);
    forall v ensures ReceiptKey(CleanedUp, v) in After(m, requests).receipts <==>
                       exists i: nat :: Cleans(m, requests, i, v) {
      CleanedIsRequested(m, requests, v);
    }
  }

  /** So each voter of a complete migration has cleaned up, its pins released, as the owner it had claimed to be. */
  lemma CompletedHasCleanups(m: Migration, requests: seq<Request>, v: U64) returns (i: nat, owner: Digest)
    requires Fresh(m) && After(m, requests).state.Completed? && v in m.voters
    ensures Accepted(m, requests, i) && requests[i] == Cleanup(v, owner, true)
    ensures Claimed(m, requests[..i], v, owner)
    ensures exists proof :: AllReported(m, requests[..i], ReverseMirrored, proof)
  {
    hide Step, After, Claimed, AllReported;
    CompletedIff(m, requests);
    i :| Cleans(m, requests, i, v);
    owner := requests[i].owner;
    CleanupAcceptedIff(m, requests, i);
  }

  // ----- the other requests

  /** A migration can be aborted, under its own catalog version, exactly until the cutover. */
  lemma AbortAcceptedIff(m: Migration, requests: seq<Request>, i: nat)
    requires Fresh(m) && i < |requests| && requests[i].Abort?
    ensures Accepted(m, requests, i) <==>
              requests[i].catalogVersion == m.catalogVersion && BeforeCutover(After(m, requests[..i]).state)
    ensures Accepted(m, requests, i) ==> After(m, requests[..i + 1]).state.Aborted?
  {
    hide After;
    SameVoters(m, requests[..i]);
    AfterNext(m, requests, i);
  }

  /** A receipt of this kind and replica that says something else was accepted before. */
  ghost predicate Contradicted(m: Migration, requests: seq<Request>, r: Receipt)
  {
    exists i: nat, s :: Gives(m, requests, i, s) && s.kind == r.kind && s.replica == r.replica && s != r
  }

  lemma ContradictedIsConflict(m: Migration, requests: seq<Request>, r: Receipt)
    requires Fresh(m) && !r.kind.CleanedUp?
    ensures var key, n := ReceiptKey(r.kind, r.replica), After(m, requests);
      Contradicted(m, requests, r) <==> key in n.receipts && n.receipts[key] != r
  {
    hide Step, After, Gives;
    var key, n := ReceiptKey(r.kind, r.replica), After(m, requests);
    if Contradicted(m, requests, r) {
      var i: nat, s :| Gives(m, requests, i, s) && s.kind == r.kind && s.replica == r.replica && s != r;
      ReceiptsAreGiven(m, requests, s);
    }
    if key in n.receipts && n.receipts[key] != r {
      FiledAsKeyed(m, requests, key);
      ReceiptsAreGiven(m, requests, n.receipts[key]);
      var i: nat :| Gives(m, requests, i, n.receipts[key]);
    }
  }

  /** The receipt is about this migration and from one of its voters. */
  ghost predicate Concerns(m: Migration, r: Receipt)
  {
    && r.migrationId == m.id && r.catalogVersion == m.catalogVersion && r.targetClass == m.targetClass
    && r.sourceGeneration == m.sourceGeneration && r.targetGeneration == m.targetGeneration && r.replica in m.voters
  }

  lemma InsertWhen(m: Migration, r: Receipt)
    ensures InsertReceipt(m, r).Ok? <==>
              && Concerns(m, r)
              && !(ReceiptKey(r.kind, r.replica) in m.receipts && m.receipts[ReceiptKey(r.kind, r.replica)] != r)
  {
  }

  /**
   * A forward receipt is accepted exactly while mirroring, from the snapshot on, and unless the replica has said
   * something else; a reverse receipt exactly in grace, under the same conditions.
   */
  lemma ReceiptAcceptedIff(m: Migration, requests: seq<Request>, i: nat)
    requires Fresh(m) && i < |requests| && (requests[i].RecordReceipt? || requests[i].RecordReverse?)
    ensures var r, state := requests[i].receipt, After(m, requests[..i]).state;
      Accepted(m, requests, i) <==>
        && Concerns(m, r) && !Contradicted(m, requests[..i], r)
        && (if requests[i].RecordReverse? then state.Grace? && r.kind.ReverseMirrored?
            else state.Mirroring? && (r.kind.Verified? || r.kind.ForwardMirrored?)
                 && r.appliedIndex >= SnapshotOf(m, requests[..i]))
  {
    hide After, Contradicted, InsertReceipt, SnapshotOf, PairSound, ProofSound, EqualVoterProof;
    var n, r := After(m, requests[..i]), requests[i].receipt;
    SameVoters(m, requests[..i]);
    RunsKeepInvariant(m, requests[..i]);
    InsertWhen(n, r);
    if !r.kind.CleanedUp? {
      ContradictedIsConflict(m, requests[..i], r);
    }
  }

  lemma StepMovesPair(m: Migration, request: Request)
    requires PairSound(m)
    ensures var n, ok := Step(m, request).migration, Step(m, request).reply.Ok?;
      if ok && request.Activate? then
        request.nextEpoch == m.sourceEpoch + 1 && n.Accepts(request.nextEpoch, m.targetGeneration)
      else if ok && request.Rollback? then
        && n.Accepts(request.nextEpoch, request.generation)
        && (n == m || (m.state.Grace? && m.Accepts(request.nextEpoch - 1, request.generation - 1)))
      else
        n.Accepts(m.activeEpoch, m.activeGeneration)
  {
    hide EqualVoterProof, FirstOwner, AllCleanedUp;
  }

  /** The pair that is served changes only with an accepted cutover or rollback, and then to the pair it names. */
  lemma PairFollowsRequests(m: Migration, requests: seq<Request>, i: nat)
    requires Fresh(m) && i < |requests|
    ensures var n, p, request := After(m, requests[..i]), After(m, requests[..i + 1]), requests[i];
      if Accepted(m, requests, i) && request.Activate? then
        request.nextEpoch == m.sourceEpoch + 1 && p.Accepts(request.nextEpoch, m.targetGeneration)
      else if Accepted(m, requests, i) && request.Rollback? then
        && p.Accepts(request.nextEpoch, request.generation)
        && (p == n || (n.state.Grace? && n.Accepts(request.nextEpoch - 1, request.generation - 1)))
      else
        p.Accepts(n.activeEpoch, n.activeGeneration)
  {
    hide After, Step, PairSound, ProofSound, ReceiptsSound;
    SameVoters(m, requests[..i]);
    RunsKeepInvariant(m, requests[..i]);
    AfterNext(m, requests, i);
    StepMovesPair(After(m, requests[..i]), requests[i]);
  }

  /** Preparing is accepted exactly once prepared, or when every voter has reported the same forward mirror. */
  lemma PrepareAcceptedIff(m: Migration, requests: seq<Request>, i: nat)
    requires Fresh(m) && i < |requests| && requests[i].Prepare?
    ensures Accepted(m, requests, i) <==>
              || After(m, requests[..i]).state.Prepared?
              || (&& After(m, requests[..i]).state.Mirroring?
                  && exists proof :: AllReported(m, requests[..i], ForwardMirrored, proof))
  {
    hide After, AllReported, EqualVoterProof;
    var n := After(m, requests[..i]);
    if EqualVoterProof(n, ForwardMirrored).Ok? {
      ReportsAreProof(m, requests[..i], ForwardMirrored, EqualVoterProof(n, ForwardMirrored).value);
    } else {
      forall proof ensures !AllReported(m, requests[..i], ForwardMirrored, proof) {
        ReportsAreProof(m, requests[..i], ForwardMirrored, proof);
      }
    }
  }

  /** A rollback is accepted exactly from grace, to the next pair, or as an echo of the activation under way. */
  lemma RollbackAcceptedIff(m: Migration, requests: seq<Request>, i: nat)
    requires Fresh(m) && i < |requests| && requests[i].Rollback?
    ensures var n, epoch, generation := After(m, requests[..i]), requests[i].nextEpoch, requests[i].generation;
      Accepted(m, requests, i) <==>
        || (n.state.Grace? && n.Accepts(epoch - 1, generation - 1))
        || (n.state == Activating(epoch) && n.Accepts(epoch, generation))
  {
    hide After, FirstOwner;
  }

  /** No claim of this replica that was accepted named other owners. */
  ghost predicate Unclaimed(m: Migration, requests: seq<Request>, v: U64, source: Digest, target: Digest)
  {
    forall i: nat, s, t | ClaimsAs(m, requests, i, v, s, t) :: s == source && t == target
  }

  lemma UnclaimedIs(m: Migration, requests: seq<Request>, v: U64, source: Digest, target: Digest)
    requires Fresh(m)
    ensures var n := After(m, requests);
      Unclaimed(m, requests, v, source, target) <==>
        && (v in n.sourceOwners ==> n.sourceOwners[v] == source)
        && (v in n.targetOwners ==> n.targetOwners[v] == target)
  {
    hide Step, After, ClaimsAs;
    var n := After(m, requests);
    forall i: nat, s, t | ClaimsAs(m, requests, i, v, s, t) ensures Owns(n, v, s, t) {
      OwnersAreClaimed(m, requests, v, s, t);
    }
    OwnersAreClaimed(m, requests, v, source, target);
    if v in n.sourceOwners.Keys {
      assert v in n.targetOwners.Keys;
      OwnersAreClaimed(m, requests, v, n.sourceOwners[v], n.targetOwners[v]);
      var i: nat :| ClaimsAs(m, requests, i, v, n.sourceOwners[v], n.targetOwners[v]);
    }
  }

  /** A claim is accepted exactly while allocating, from a voter, with real owners, and unless another was seen. */
  lemma ClaimAcceptedIff(m: Migration, requests: seq<Request>, i: nat)
    requires Fresh(m) && i < |requests| && requests[i].ClaimNamespace?
    ensures var c := requests[i];
      Accepted(m, requests, i) <==>
        && After(m, requests[..i]).state.Allocating? && c.replica in m.voters
        && c.sourceOwner != ZERO && c.targetOwner != ZERO && (c.observed.None? || c.observed.value == c.targetOwner)
        && Unclaimed(m, requests[..i], c.replica, c.sourceOwner, c.targetOwner)
  {
    hide After, Unclaimed;
    SameVoters(m, requests[..i]);
    UnclaimedIs(m, requests[..i], requests[i].replica, requests[i].sourceOwner, requests[i].targetOwner);
  }
}

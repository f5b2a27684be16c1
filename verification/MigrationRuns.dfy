/** What every run of a migration keeps, rollbacks included. */
module MigrationRuns {
  import opened Wrappers
  import opened ByteStrings
  import opened KeyOrder
  import opened MigrationSteps

  // ----- unanimous proofs

  /** Every voter gave a receipt of this kind, and all of them say the same. */
  ghost predicate Unanimous(m: Migration, kind: ReceiptKind, proof: Proof)
  {
    forall v | v in m.voters ::
      ReceiptKey(kind, v) in m.receipts
      && m.receipts[ReceiptKey(kind, v)].appliedIndex == proof.index
      && m.receipts[ReceiptKey(kind, v)].logicalDigest == proof.digest
  }

  ghost predicate Agrees(v: nat, receipts: map<ReceiptKey, Receipt>, kind: ReceiptKind, proof: Proof)
  {
    && v <= U64_MAX && ReceiptKey(kind, v) in receipts
    && receipts[ReceiptKey(kind, v)].appliedIndex == proof.index
    && receipts[ReceiptKey(kind, v)].logicalDigest == proof.digest
  }

  lemma {:induction false} WalkAgrees(order: seq<nat>, receipts: map<ReceiptKey, Receipt>, kind: ReceiptKind,
                                      start: Option<Proof>, proof: Proof)
    ensures Walk(order, receipts, kind, start) == Ok(proof)
      <==> (order != [] || start.Some?) && (start.Some? ==> start.value == proof) && forall i | 0 <= i < |order| ::
          Agrees(order[i], receipts, kind, proof)
    decreases |order|
  {
    if order != [] && order[0] <= U64_MAX && ReceiptKey(kind, order[0]) in receipts {
      var r := receipts[ReceiptKey(kind, order[0])];
      var mine := Proof(r.appliedIndex, r.logicalDigest);
      WalkAgrees(order[1..], receipts, kind, Some(mine), proof);
      assert forall i | 1 <= i < |order| :: order[i] == order[1..][i - 1];
      assert (forall i | 0 <= i < |order| :: Agrees(order[i], receipts, kind, proof))
        <==> Agrees(order[0], receipts, kind, proof) && forall i | 0 <= i < |order[1..]| ::
            Agrees(order[1..][i], receipts, kind, proof);
    }
  }

  /** The voters' proof is found exactly when they are unanimous. */
  lemma ProofIsUnanimous(m: Migration, kind: ReceiptKind, proof: Proof)
    requires m.voters != {}
    ensures EqualVoterProof(m, kind) == Ok(proof) <==> Unanimous(m, kind, proof)
  {
    hide Walk, InOrderOf;
    var order := InOrderOf(m.voters);
    WalkAgrees(order, m.receipts, kind, None, proof);
    var v :| v in m.voters;
    assert v in order;
    if forall i | 0 <= i < |order| :: Agrees(order[i], m.receipts, kind, proof) {
      forall w | w in m.voters
        ensures Agrees(w, m.receipts, kind, proof)
      {
        assert w in order;
        var i :| 0 <= i < |order| && order[i] == w;
      }
    }
    if Unanimous(m, kind, proof) {
      forall i | 0 <= i < |order|
        ensures Agrees(order[i], m.receipts, kind, proof)
      {
        assert order[i] in order;
      }
    }
  }

  // ----- steps

  predicate BeforeCutover(s: MigrationState)
  {
    s.Allocating? || s.Backfilling? || s.Mirroring? || s.Prepared? || s.Aborted?
  }

  /** Fixed parts stay, receipts stay, and the active pair only moves up, both parts together. */
  ghost predicate Advances(m: Migration, n: Migration)
  {
    && n.id == m.id && n.voters == m.voters && n.catalogVersion == m.catalogVersion
    && n.sourceEpoch == m.sourceEpoch && n.sourceGeneration == m.sourceGeneration
    && n.targetGeneration == m.targetGeneration && n.targetClass == m.targetClass
    && (forall k | k in m.receipts :: k in n.receipts && n.receipts[k] == m.receipts[k])
    && m.activeEpoch <= n.activeEpoch
    && n.activeEpoch - m.activeEpoch == n.activeGeneration - m.activeGeneration
    && (forall v | v in m.sourceOwners :: v in n.sourceOwners && n.sourceOwners[v] == m.sourceOwners[v])
    && (m.state.Completed? ==> n.state.Completed?)
    && (m.state.Aborted? ==> n.state.Aborted?)
    && (!BeforeCutover(m.state) ==> !BeforeCutover(n.state))
  }

  /**
   * Receipts are filed under their kind and replica; forward ones reach the snapshot; cleanup ones name the claimed
   * owner.
   */
  ghost predicate Filed(m: Migration, k: ReceiptKey, snapshot: nat)
  {
    && k in m.receipts
    && m.receipts[k].kind == k.kind && m.receipts[k].replica == k.replica
    && (k.kind.ForwardMirrored? ==> m.receipts[k].appliedIndex >= snapshot)
    && (k.kind.CleanedUp? ==> CleanedByOwner(m, k.replica))
  }

  /**
   * The cleanup receipt of a replica names the owner it claimed, the released pins, and the unanimous reverse proof.
   */
  ghost predicate CleanedByOwner(m: Migration, v: U64)
  {
    var key := ReceiptKey(CleanedUp, v);
    && key in m.receipts && v in m.sourceOwners
    && m.receipts[key].owner == Some(m.sourceOwners[v]) && m.receipts[key].pinsReleased
    && Unanimous(m, ReverseMirrored, Proof(m.receipts[key].appliedIndex, m.receipts[key].logicalDigest))
  }

  /** Epoch and generation move together, and nothing moves before the cutover. */
  ghost predicate PairSound(m: Migration)
  {
    && m.voters != {} && m.targetGeneration == m.sourceGeneration + 1
    && m.activeEpoch - m.sourceEpoch == m.activeGeneration - m.sourceGeneration
    && (BeforeCutover(m.state) ==> m.Accepts(m.sourceEpoch, m.sourceGeneration))
    && (m.state.Activating? ==> m.state.nextEpoch == m.activeEpoch)
  }

  /** What the states after mirroring rest on. */
  ghost predicate ProofSound(m: Migration)
  {
    && (m.state.Prepared? ==> Unanimous(m, ForwardMirrored, Proof(m.state.verifiedIndex, m.state.digest)))
    && (!BeforeCutover(m.state) ==> exists proof :: Unanimous(m, ForwardMirrored, proof))
    && (m.state.Completed? ==> AllCleanedUp(m))
  }

  ghost predicate ReceiptsSound(m: Migration, snapshot: nat)
  {
    && (m.state.Allocating? || m.state.Backfilling? ==> m.receipts == map[])
    && (m.state.Backfilling? || m.state.Mirroring? ==> m.state.snapshotIndex == snapshot)
    && (forall k | k in m.receipts :: Filed(m, k, snapshot))
  }

  ghost predicate Invariant(m: Migration, snapshot: nat)
  {
    PairSound(m) && ProofSound(m) && ReceiptsSound(m, snapshot)
  }

  ghost predicate StateAdvances(s: MigrationState, t: MigrationState)
  {
    (s.Completed? ==> t.Completed?) && (s.Aborted? ==> t.Aborted?) && (!BeforeCutover(s) ==> !BeforeCutover(t))
  }

  lemma ChangeAdvances(m: Migration, state: MigrationState, epoch: Positive, generation: Positive)
    requires StateAdvances(m.state, state) && m.activeEpoch <= epoch
    requires epoch - m.activeEpoch == generation - m.activeGeneration
    ensures Advances(m, m.(state := state, activeEpoch := epoch, activeGeneration := generation))
  {
  }

  lemma InsertAdvances(m: Migration, r: Receipt, state: MigrationState)
    requires InsertReceipt(m, r).Ok? && StateAdvances(m.state, state)
    ensures Advances(m, InsertReceipt(m, r).value.(state := state))
  {
  }

  lemma ClaimAdvances(m: Migration, replica: U64, sourceOwner: Digest, targetOwner: Digest, observed: Option<Digest>)
    ensures Advances(m, ClaimStep(m, replica, sourceOwner, targetOwner, observed).migration)
  {
  }

  lemma StepAdvances(m: Migration, request: Request)
    requires PairSound(m)
    ensures Advances(m, Step(m, request).migration)
  {
    hide EqualVoterProof, AllCleanedUp, Advances, ClaimStep, InsertReceipt, ActivateStep, RollbackStep, ReceiptStep,
      ReverseStep, CleanupStep;
    var n := Step(m, request).migration;
    match request
    case ClaimNamespace(replica, sourceOwner, targetOwner, observed) =>
        ClaimAdvances(m, replica, sourceOwner, targetOwner, observed);
    case RecordReceipt(receipt) => ReceiptAdvances(m, receipt);
    case RecordReverse(receipt) => ReverseAdvances(m, receipt);
    case Cleanup(replica, owner, pinsReleased) => CleanupAdvances(m, replica, owner, pinsReleased);
    case Activate(nextEpoch) => ActivateAdvances(m, nextEpoch);
    case Rollback(nextEpoch, generation) => RollbackAdvances(m, nextEpoch, generation);
    case _ => ChangeAdvances(m, n.state, m.activeEpoch, m.activeGeneration);
  }

  lemma ActivateAdvances(m: Migration, nextEpoch: Positive)
    requires PairSound(m)
    ensures Advances(m, ActivateStep(m, nextEpoch).migration)
  {
    hide Advances;
    var n := ActivateStep(m, nextEpoch).migration;
    ChangeAdvances(m, n.state, n.activeEpoch, n.activeGeneration);
  }

  lemma RollbackAdvances(m: Migration, nextEpoch: Positive, generation: Positive)
    requires PairSound(m)
    ensures Advances(m, RollbackStep(m, nextEpoch, generation).migration)
  {
    hide Advances, FirstOwner;
    var n := RollbackStep(m, nextEpoch, generation).migration;
    ChangeAdvances(m, n.state, n.activeEpoch, n.activeGeneration);
  }

  lemma ReceiptAdvances(m: Migration, receipt: Receipt)
    ensures Advances(m, ReceiptStep(m, receipt).migration)
  {
    hide Advances, InsertReceipt;
    ChangeAdvances(m, m.state, m.activeEpoch, m.activeGeneration);
    if InsertReceipt(m, receipt).Ok? {
      InsertAdvances(m, receipt, m.state);
      InsertKeepsState(m, receipt);
    }
  }

  lemma InsertKeepsState(m: Migration, r: Receipt)
    requires InsertReceipt(m, r).Ok?
    ensures InsertReceipt(m, r).value == InsertReceipt(m, r).value.(state := m.state)
  {
  }

  lemma ReverseAdvances(m: Migration, receipt: Receipt)
    ensures Advances(m, ReverseStep(m, receipt).migration)
  {
    hide Advances, InsertReceipt;
    ChangeAdvances(m, m.state, m.activeEpoch, m.activeGeneration);
    if InsertReceipt(m, receipt).Ok? {
      InsertAdvances(m, receipt, m.state);
      InsertKeepsState(m, receipt);
    }
  }

  lemma CleanupAdvances(m: Migration, replica: U64, owner: Digest, pinsReleased: bool)
    ensures Advances(m, CleanupStep(m, replica, owner, pinsReleased).migration)
  {
    hide Advances, InsertReceipt, EqualVoterProof, AllCleanedUp;
    ChangeAdvances(m, m.state, m.activeEpoch, m.activeGeneration);
    var proof := EqualVoterProof(m, ReverseMirrored);
    if (m.state.Grace? || m.state.Completed?) && proof.Ok? {
      var receipt := CleanupReceipt(m, replica, proof.value, owner);
      if InsertReceipt(m, receipt).Ok? {
        InsertAdvances(m, receipt, m.state);
        InsertAdvances(m, receipt, Completed);
        InsertKeepsState(m, receipt);
      }
    }
  }

  lemma UnanimousStays(m: Migration, n: Migration, kind: ReceiptKind, proof: Proof)
    requires Advances(m, n) && Unanimous(m, kind, proof)
    ensures Unanimous(n, kind, proof)
  {
  }

  lemma FiledStays(m: Migration, n: Migration, k: ReceiptKey, snapshot: nat)
    requires Advances(m, n) && Filed(m, k, snapshot)
    ensures Filed(n, k, snapshot)
  {
    if k.kind.CleanedUp? {
      var r := m.receipts[k];
      UnanimousStays(m, n, ReverseMirrored, Proof(r.appliedIndex, r.logicalDigest));
    }
  }

  lemma StepKeepsPair(m: Migration, request: Request)
    requires PairSound(m)
    ensures PairSound(Step(m, request).migration)
  {
    hide EqualVoterProof, FirstOwner, AllCleanedUp;
  }

  lemma StepKeepsProof(m: Migration, request: Request)
    requires PairSound(m) && ProofSound(m)
    ensures ProofSound(Step(m, request).migration)
  {
    hide EqualVoterProof, FirstOwner, AllCleanedUp, Unanimous, Advances, InsertReceipt;
    var n := Step(m, request).migration;
    StepAdvances(m, request);
    ForwardStays(m, n);
    CleanedUpStays(m, n);
    if request.Prepare? && m.state.Mirroring? && EqualVoterProof(m, ForwardMirrored).Ok? {
      var proof := EqualVoterProof(m, ForwardMirrored).value;
      ProofIsUnanimous(m, ForwardMirrored, proof);
      UnanimousStays(m, n, ForwardMirrored, proof);
    }
    InsertKeepsStates(m, request);
  }

  /** Recording receipts does not change the state. */
  lemma InsertKeepsStates(m: Migration, request: Request)
    ensures request.RecordReceipt? || request.RecordReverse? ==> Step(m, request).migration.state == m.state
    ensures request.Cleanup? ==>
              var n := Step(m, request).migration;
              n.state == m.state || (n.state.Completed? && AllCleanedUp(n) && !BeforeCutover(m.state))
  {
    hide EqualVoterProof;
  }

  lemma ForwardStays(m: Migration, n: Migration)
    requires Advances(m, n)
    ensures (exists proof :: Unanimous(m, ForwardMirrored, proof)) ==>
              exists proof :: Unanimous(n, ForwardMirrored, proof)
    ensures m.state.Prepared? && Unanimous(m, ForwardMirrored, Proof(m.state.verifiedIndex, m.state.digest))
      ==> Unanimous(n, ForwardMirrored, Proof(m.state.verifiedIndex, m.state.digest))
  {
    hide Unanimous, Advances;
    if exists proof :: Unanimous(m, ForwardMirrored, proof) {
      var proof :| Unanimous(m, ForwardMirrored, proof);
      UnanimousStays(m, n, ForwardMirrored, proof);
    }
    if m.state.Prepared? && Unanimous(m, ForwardMirrored, Proof(m.state.verifiedIndex, m.state.digest)) {
      UnanimousStays(m, n, ForwardMirrored, Proof(m.state.verifiedIndex, m.state.digest));
    }
  }

  lemma CleanedUpStays(m: Migration, n: Migration)
    requires Advances(m, n)
    ensures AllCleanedUp(m) ==> AllCleanedUp(n)
  {
  }

  /** The snapshot that mirroring starts from is fixed when backfilling begins. */
  function SnapshotAfter(m: Migration, request: Request, snapshot: nat): nat
  {
    if m.state.Allocating? && request.BeginBackfill? && request.snapshotIndex != 0 then request.snapshotIndex
    else snapshot
  }

  lemma StepKeepsReceipts(m: Migration, request: Request, snapshot: nat)
    requires PairSound(m) && ReceiptsSound(m, snapshot)
    ensures ReceiptsSound(Step(m, request).migration, SnapshotAfter(m, request, snapshot))
  {
    hide EqualVoterProof, FirstOwner, AllCleanedUp, Unanimous, Advances, Filed;
    var n := Step(m, request).migration;
    StepAdvances(m, request);
    forall k | k in n.receipts
      ensures Filed(n, k, SnapshotAfter(m, request, snapshot))
    {
      if k in m.receipts {
        FiledStays(m, n, k, snapshot);
      } else {
        NewlyFiled(m, request, snapshot, k);
      }
    }
  }

  lemma NewlyFiled(m: Migration, request: Request, snapshot: nat, k: ReceiptKey)
    requires PairSound(m) && ReceiptsSound(m, snapshot) && k !in m.receipts && k in Step(m, request).migration.receipts
    ensures Filed(Step(m, request).migration, k, SnapshotAfter(m, request, snapshot))
  {
    hide EqualVoterProof, FirstOwner, AllCleanedUp, Unanimous, Advances;
    var n := Step(m, request).migration;
    if request.Cleanup? {
      var proof := EqualVoterProof(m, ReverseMirrored).value;
      ProofIsUnanimous(m, ReverseMirrored, proof);
      StepAdvances(m, request);
      UnanimousStays(m, n, ReverseMirrored, proof);
      OwnersStay(m, request);
    }
  }

  lemma OwnersStay(m: Migration, request: Request)
    requires request.Cleanup?
    ensures Step(m, request).migration.sourceOwners == m.sourceOwners
  {
    hide EqualVoterProof;
  }

  lemma StepKeeps(m: Migration, request: Request, snapshot: nat)
    requires Invariant(m, snapshot)
    ensures Invariant(Step(m, request).migration, SnapshotAfter(m, request, snapshot))
  {
    StepKeepsPair(m, request);
    StepKeepsProof(m, request);
    StepKeepsReceipts(m, request, snapshot);
  }

  // ----- runs

  ghost function After(m: Migration, requests: seq<Request>): Migration
  {
    if requests == [] then m else Step(After(m, requests[..|requests| - 1]), requests[|requests| - 1]).migration
  }

  ghost function SnapshotOf(m: Migration, requests: seq<Request>): nat
  {
    if requests == [] then 0
    else
      var front := requests[..|requests| - 1];
      SnapshotAfter(After(m, front), requests[|requests| - 1], SnapshotOf(m, front))
  }

  /** A migration as its constructor leaves it. */
  ghost predicate Fresh(m: Migration)
  {
    && m.voters != {} && m.targetGeneration == m.sourceGeneration + 1 && m.state.Allocating?
    && m.receipts == map[] && m.sourceOwners == map[] && m.targetOwners == map[]
    && m.Accepts(m.sourceEpoch, m.sourceGeneration)
  }

  /**
   * A migration is created exactly towards the next generation and another class, with voters that are given once each;
   * and starts fresh.
   */
  lemma NewIsFresh(id: U128, catalogVersion: U64, sourceEpoch: Positive, sourceGeneration: Positive,
                   sourceClass: Option<Digest>,
                   targetGeneration: Positive, targetClass: Digest, voters: seq<U64>)
    ensures var r := NewMigration(id, catalogVersion, sourceEpoch, sourceGeneration, sourceClass, targetGeneration,
        targetClass, voters);
      && (r.Some? <==> targetGeneration == sourceGeneration + 1 && sourceClass != Some(targetClass) && voters != []
                       && forall i, j | 0 <= i < j < |voters| :: voters[i] != voters[j])
      && (r.Some? ==> Fresh(r.value) && r.value.voters == VoterSet(voters))
  {
    DistinctCount(voters);
    if voters != [] { assert voters[0] in VoterSet(voters); }
  }

  lemma {:induction false} DistinctCount(s: seq<U64>)
    ensures |VoterSet(s)| <= |s|
    ensures |VoterSet(s)| == |s| <==> forall i, j | 0 <= i < j < |s| :: s[i] != s[j]
  {
    if s != [] {
      var front, last := s[..|s| - 1], s[|s| - 1];
      DistinctCount(front);
      assert VoterSet(s) == VoterSet(front) + {last};
      if last in front {
        var i :| 0 <= i < |front| && front[i] == last;
        assert VoterSet(s) == VoterSet(front) && s[i] == s[|s| - 1];
      } else {
        assert forall i | 0 <= i < |front| :: front[i] in front;
      }
    }
  }

  lemma {:induction false} RunsKeepInvariant(m: Migration, requests: seq<Request>)
    requires Fresh(m)
    ensures Invariant(After(m, requests), SnapshotOf(m, requests))
    decreases |requests|
  {
    hide Step, Invariant;
    if requests == [] {
      FreshIsSound(m);
    } else {
      var front := requests[..|requests| - 1];
      RunsKeepInvariant(m, front);
      StepKeeps(After(m, front), requests[|requests| - 1], SnapshotOf(m, front));
    }
  }

  lemma FreshIsSound(m: Migration)
    requires Fresh(m)
    ensures Invariant(m, 0)
  {
  }

  lemma {:induction false} RunsAdvance(m: Migration, requests: seq<Request>, i: nat, k: nat)
    requires Fresh(m) && i <= k <= |requests|
    ensures Advances(After(m, requests[..i]), After(m, requests[..k]))
    decreases k - i
  {
    hide Step, Advances, PairSound, ProofSound, ReceiptsSound;
    if i == k {
      var n := After(m, requests[..i]);
      ChangeAdvances(n, n.state, n.activeEpoch, n.activeGeneration);
    } else {
      RunsAdvance(m, requests, i, k - 1);
      var n := After(m, requests[..k - 1]);
      RunsKeepInvariant(m, requests[..k - 1]);
      StepAdvances(n, requests[k - 1]);
      assert requests[..k][..k - 1] == requests[..k - 1];
      AdvancesFurther(After(m, requests[..i]), n, After(m, requests[..k]));
    }
  }

  lemma AdvancesFurther(a: Migration, b: Migration, c: Migration)
    requires Advances(a, b) && Advances(b, c)
    ensures Advances(a, c)
  {
  }

  // ----- the main results

  /** In every run, rollbacks included, epoch and generation have moved by the same amount. */
  lemma EpochFollowsGeneration(m: Migration, requests: seq<Request>)
    requires Fresh(m)
    ensures var n := After(m, requests);
      n.activeEpoch - n.sourceEpoch == n.activeGeneration - n.sourceGeneration >= 0
          && n.sourceEpoch == m.sourceEpoch && n.sourceGeneration == m.sourceGeneration
  {
    hide Step, ProofSound, ReceiptsSound, After;
    RunsKeepInvariant(m, requests);
    RunsAdvance(m, requests, 0, |requests|);
    assert requests[..0] == [] && requests[..|requests|] == requests;
    AfterNothing(m);
  }

  lemma AfterNothing(m: Migration)
    ensures After(m, []) == m
  {
  }

  /** A pair that has stopped being accepted is never accepted again. */
  lemma PairsNeverReturn(m: Migration, requests: seq<Request>, i: nat, j: nat, k: nat, epoch: U64, generation: U64)
    requires Fresh(m) && i <= j <= k <= |requests|
    requires After(m, requests[..i]).Accepts(epoch, generation) && !After(m, requests[..j]).Accepts(epoch, generation)
    ensures !After(m, requests[..k]).Accepts(epoch, generation)
  {
    hide Step, After;
    RunsAdvance(m, requests, i, j);
    RunsAdvance(m, requests, j, k);
  }

  /** Past the cutover every voter has mirrored forward: one digest, one index, no earlier than the snapshot. */
  lemma CutoverIsProven(m: Migration, requests: seq<Request>)
    requires Fresh(m) && !BeforeCutover(After(m, requests).state)
    ensures exists proof ::
        Unanimous(After(m, requests), ForwardMirrored, proof) && proof.index >= SnapshotOf(m, requests)
  {
    hide Step, After, SnapshotOf;
    RunsKeepInvariant(m, requests);
    var n := After(m, requests);
    var proof :| Unanimous(n, ForwardMirrored, proof);
    var v :| v in n.voters;
    assert Filed(n, ReceiptKey(ForwardMirrored, v), SnapshotOf(m, requests));
  }

  /** The target is accepted only past the cutover. */
  lemma TargetNeedsCutover(m: Migration, requests: seq<Request>)
    requires Fresh(m) && After(m, requests).activeGeneration != m.sourceGeneration
    ensures !BeforeCutover(After(m, requests).state)
  {
    hide Step, After, ProofSound, ReceiptsSound;
    RunsKeepInvariant(m, requests);
    EpochFollowsGeneration(m, requests);
  }

  /**
   * A completed migration was mirrored back by every voter alike, and cleaned up by every voter as the owner it had
   * claimed to be.
   */
  lemma CompletionIsProven(m: Migration, requests: seq<Request>, v: U64)
    requires Fresh(m) && After(m, requests).state.Completed? && v in After(m, requests).voters
    ensures CleanedByOwner(After(m, requests), v)
    ensures exists proof :: Unanimous(After(m, requests), ReverseMirrored, proof)
  {
    hide Step, After, Unanimous;
    RunsKeepInvariant(m, requests);
    var n := After(m, requests);
    assert Filed(n, ReceiptKey(CleanedUp, v), SnapshotOf(m, requests));
    var r := n.receipts[ReceiptKey(CleanedUp, v)];
    assert Unanimous(n, ReverseMirrored, Proof(r.appliedIndex, r.logicalDigest));
  }

  /** Completion and abortion are final, and an aborted migration leaves the source in charge. */
  lemma EndsAreFinal(m: Migration, requests: seq<Request>, i: nat, k: nat)
    requires Fresh(m) && i <= k <= |requests|
    ensures After(m, requests[..i]).state.Completed? ==> After(m, requests[..k]).state.Completed?
    ensures After(m, requests[..i]).state.Aborted? ==>
              After(m, requests[..k]).state.Aborted?
                  && After(m, requests[..k]).Accepts(m.sourceEpoch, m.sourceGeneration)
  {
    hide Step, After, ProofSound, ReceiptsSound;
    RunsAdvance(m, requests, i, k);
    RunsKeepInvariant(m, requests[..k]);
    EpochFollowsGeneration(m, requests[..k]);
  }

  // ----- retries

  lemma CleanupRetry(m: Migration, request: Request)
    requires PairSound(m) && request.Cleanup? && Step(m, request).reply.Ok?
    ensures Step(Step(m, request).migration, request) == Step(m, request)
  {
    hide EqualVoterProof, Unanimous, Advances;
    var n := Step(m, request).migration;
    var proof := EqualVoterProof(m, ReverseMirrored).value;
    StepAdvances(m, request);
    ProofIsUnanimous(m, ReverseMirrored, proof);
    UnanimousStays(m, n, ReverseMirrored, proof);
    VotersStay(m, n);
    ProofIsUnanimous(n, ReverseMirrored, proof);
  }

  lemma VotersStay(m: Migration, n: Migration)
    requires Advances(m, n)
    ensures n.voters == m.voters
  {
  }

  /** Repeating an accepted request gives the same answer and changes nothing more. */
  lemma RetryIsHarmless(m: Migration, request: Request)
    requires PairSound(m) && Step(m, request).reply.Ok?
    ensures Step(Step(m, request).migration, request) == Step(m, request)
  {
    hide EqualVoterProof, Unanimous, FirstOwner, AllCleanedUp;
    if request.Cleanup? {
      CleanupRetry(m, request);
    } else if request.ClaimNamespace? {
      var n := Step(m, request).migration;
      assert n.sourceOwners[request.replica := request.sourceOwner] == n.sourceOwners;
      assert n.targetOwners[request.replica := request.targetOwner] == n.targetOwners;
    }
  }
}

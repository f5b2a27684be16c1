/**
 * When the source may be cleaned up: reverse receipts outlive a rollback, so the proof of one grace period passes in
 * the next.
 */
module MigrationCleanup {
  import opened Wrappers
  import opened ByteStrings
  import opened KeyOrder
  import opened MigrationSteps
  import opened MigrationRuns

  // ----- which generation serves

  /** The request at `i` was accepted as a rollback to a generation past the target. */
  ghost predicate RolledAt(m: Migration, requests: seq<Request>, i: nat)
  {
    && i < |requests| && requests[i].Rollback? && requests[i].generation != m.targetGeneration
    && Step(After(m, requests[..i]), requests[i]).reply.Ok?
  }

  ghost predicate Rolled(m: Migration, requests: seq<Request>)
  {
    exists i: nat :: RolledAt(m, requests, i)
  }

  /** Past the cutover the target serves, or a generation that a rollback has put past it. */
  ghost predicate Serves(m: Migration, rolled: bool)
  {
    !BeforeCutover(m.state) ==> if rolled then m.activeGeneration > m.targetGeneration
        else m.activeGeneration == m.targetGeneration
  }

  lemma StepServes(m: Migration, request: Request, rolled: bool)
    requires PairSound(m) && Serves(m, rolled) && (BeforeCutover(m.state) ==> !rolled)
    ensures var n, moved := Step(m, request).migration, request.Rollback?
        && request.generation != m.targetGeneration && Step(m, request).reply.Ok?;
      Serves(n, rolled || moved) && (BeforeCutover(n.state) ==> !rolled && !moved)
          && n.targetGeneration == m.targetGeneration
  {
    hide EqualVoterProof, FirstOwner, AllCleanedUp;
  }

  lemma RolledNext(m: Migration, requests: seq<Request>)
    requires requests != []
    ensures Rolled(m, requests) <==> Rolled(m, requests[..|requests| - 1]) || RolledAt(m, requests, |requests| - 1)
  {
    hide Step, After;
    var front := requests[..|requests| - 1];
    forall i: nat | i < |front| ensures RolledAt(m, requests, i) <==> RolledAt(m, front, i) {
      assert requests[..i] == front[..i];
    }
  }

  /** In every run, whether the target still serves is decided by the rollbacks accepted so far. */
  lemma {:induction false} RollbacksDecide(m: Migration, requests: seq<Request>)
    requires Fresh(m)
    ensures Serves(After(m, requests), Rolled(m, requests))
    ensures (BeforeCutover(After(m, requests).state) ==> !Rolled(m, requests))
    ensures After(m, requests).targetGeneration == m.targetGeneration
    decreases |requests|
  {
    hide Step, PairSound, ProofSound, ReceiptsSound, Serves, Rolled;
    if requests == [] {
      NoneRolled(m);
    } else {
      var front := requests[..|requests| - 1];
      RollbacksDecide(m, front);
      RunsKeepInvariant(m, front);
      StepServes(After(m, front), requests[|requests| - 1], Rolled(m, front));
      RolledNext(m, requests);
      assert requests[..|requests| - 1] == front;
    }
  }

  lemma NoneRolled(m: Migration)
    requires Fresh(m)
    ensures !Rolled(m, []) && Serves(m, false)
  {
  }

  // ----- cleanup

  /** Whether a cleanup is accepted does not depend on which generation serves. */
  lemma CleanupIgnoresGeneration(m: Migration, epoch: Positive, generation: Positive, replica: U64, owner: Digest,
                                 pinsReleased: bool)
    ensures CleanupStep(m.(activeEpoch := epoch, activeGeneration := generation), replica, owner, pinsReleased).reply
         == CleanupStep(m, replica, owner, pinsReleased).reply
  {
    hide InOrderOf, Walk;
  }

  /** The source is cleaned up only while the target serves in its place exactly if no rollback was accepted before. */
  lemma CleanupSparesServedIff(m: Migration, requests: seq<Request>, i: nat)
    requires Fresh(m) && i < |requests| && requests[i].Cleanup? && Step(After(m, requests[..i]), requests[i]).reply.Ok?
    ensures After(m, requests[..i]).activeGeneration == m.targetGeneration <==> !Rolled(m, requests[..i])
  {
    hide EqualVoterProof, After, Rolled;
    RollbacksDecide(m, requests[..i]);
  }

  /**
   * From every grace period with its reverse proof complete: roll back, announce it, and the retained source may be
   * cleaned up.
   */
  lemma ProofOutlivesRollback(m: Migration, nextEpoch: Positive, generation: Positive, at: U64, replica: U64)
    requires m.state.Grace? && EqualVoterProof(m, ReverseMirrored).Ok? && at != 0
    requires nextEpoch == m.activeEpoch + 1 && generation == m.activeGeneration + 1
    requires replica in m.sourceOwners && replica in m.voters && ReceiptKey(CleanedUp, replica) !in m.receipts
    ensures var a := Step(m, Rollback(nextEpoch, generation));
      var b := Step(a.migration, Publish(at));
      var c := Step(b.migration, Cleanup(replica, m.sourceOwners[replica], true));
      && a.reply.Ok? && a.reply.value.Some? && a.reply.value.value.retainedOwner == FirstOwner(m.sourceOwners)
      && b.reply.Ok? && b.migration.activeGeneration == generation
      && c.reply.Ok? && c.reply.value.Some? && c.reply.value.value.kind == CleanUpSource
      && c.reply.value.value.owner == Some(m.sourceOwners[replica])
  {
    hide FirstOwner, Walk, InOrderOf;
    var b := Step(Step(m, Rollback(nextEpoch, generation)).migration, Publish(at)).migration;
    assert b.receipts == m.receipts && b.voters == m.voters && b.sourceOwners == m.sourceOwners;
  }

  // ----- such a run, for every migration with one voter

  function Mirrored(m: Migration, kind: ReceiptKind, voter: U64, digest: Digest): Receipt
  {
    Receipt(kind, m.id, voter, m.catalogVersion, m.sourceGeneration, m.targetGeneration, m.targetClass, 1, digest,
        None, false)
  }

  function UpToGrace(m: Migration, voter: U64, owner: Digest, target: Digest, epoch: Positive): seq<Request>
  {
    [ClaimNamespace(voter, owner, target, None), BeginBackfill(1), BeginMirroring,
        RecordReceipt(Mirrored(m, ForwardMirrored, voter, owner)),
     Prepare, Activate(epoch), Publish(1), RecordReverse(Mirrored(m, ReverseMirrored, voter, owner))]
  }

  lemma Extended(m: Migration, requests: seq<Request>, request: Request)
    ensures After(m, requests + [request]) == Step(After(m, requests), request).migration
  {
    assert (requests + [request])[..|requests|] == requests;
  }

  lemma OneVoterProof(m: Migration, kind: ReceiptKind, voter: U64, r: Receipt)
    requires m.voters == {voter} && ReceiptKey(kind, voter) in m.receipts && m.receipts[ReceiptKey(kind, voter)] == r
    ensures EqualVoterProof(m, kind) == Ok(Proof(r.appliedIndex, r.logicalDigest))
  {
    hide EqualVoterProof;
    ProofIsUnanimous(m, kind, Proof(r.appliedIndex, r.logicalDigest));
  }

  /** The migration in its first grace period, with every receipt that its one voter can give before cleanup. */
  ghost predicate InGrace(m: Migration, n: Migration, voter: U64, owner: Digest, target: Digest, epoch: Positive)
  {
    n == m.(state := Grace(epoch, 1), activeEpoch := epoch, activeGeneration := m.targetGeneration,
            sourceOwners := map[voter := owner], targetOwners := map[voter := target],
            receipts := map[ReceiptKey(ForwardMirrored, voter) := Mirrored(m, ForwardMirrored, voter, owner),
                            ReceiptKey(ReverseMirrored, voter) := Mirrored(m, ReverseMirrored, voter, owner)])
  }

  lemma MirrorsFirst(m: Migration, voter: U64, owner: Digest, target: Digest)
    requires Fresh(m) && m.voters == {voter} && owner != ZERO && target != ZERO
    ensures var n := After(m, [ClaimNamespace(voter, owner, target, None), BeginBackfill(1), BeginMirroring,
        RecordReceipt(Mirrored(m, ForwardMirrored, voter, owner))]);
      n == m.(state := Mirroring(1), sourceOwners := map[voter := owner], targetOwners := map[voter := target],
              receipts := map[ReceiptKey(ForwardMirrored, voter) := Mirrored(m, ForwardMirrored, voter, owner)])
  {
    hide EqualVoterProof, FirstOwner, After;
    var claim, mirror := ClaimNamespace(voter, owner, target, None),
      RecordReceipt(Mirrored(m, ForwardMirrored, voter, owner));
    AfterNothing(m);
    Extended(m, [], claim);
    Extended(m, [claim], BeginBackfill(1));
    Extended(m, [claim, BeginBackfill(1)], BeginMirroring);
    Extended(m, [claim, BeginBackfill(1), BeginMirroring], mirror);
    assert [] + [claim] == [claim] && [claim] + [BeginBackfill(1)] == [claim, BeginBackfill(1)];
    assert [claim, BeginBackfill(1)] + [BeginMirroring] == [claim, BeginBackfill(1), BeginMirroring];
    assert [claim, BeginBackfill(1), BeginMirroring] + [mirror] == [claim, BeginBackfill(1), BeginMirroring, mirror];
  }

  lemma ReachesGrace(m: Migration, voter: U64, owner: Digest, target: Digest, epoch: Positive)
    requires Fresh(m) && m.voters == {voter} && owner != ZERO && target != ZERO && epoch == m.sourceEpoch + 1
    ensures InGrace(m, After(m, UpToGrace(m, voter, owner, target, epoch)), voter, owner, target, epoch)
  {
    hide EqualVoterProof, FirstOwner, After, Step, InGrace;
    var run := UpToGrace(m, voter, owner, target, epoch);
    var first := [ClaimNamespace(voter, owner, target, None), BeginBackfill(1), BeginMirroring,
        RecordReceipt(Mirrored(m, ForwardMirrored, voter, owner))];
    var reverse := RecordReverse(Mirrored(m, ReverseMirrored, voter, owner));
    MirrorsFirst(m, voter, owner, target);
    Extended(m, first, Prepare);
    Extended(m, first + [Prepare], Activate(epoch));
    Extended(m, first + [Prepare] + [Activate(epoch)], Publish(1));
    Extended(m, first + [Prepare] + [Activate(epoch)] + [Publish(1)], reverse);
    assert run == first + [Prepare] + [Activate(epoch)] + [Publish(1)] + [reverse];
    GraceFollows(m, After(m, first), voter, owner, target, epoch);
  }

  lemma GraceFollows(m: Migration, n: Migration, voter: U64, owner: Digest, target: Digest, epoch: Positive)
    requires Fresh(m) && m.voters == {voter} && epoch == m.sourceEpoch + 1
    requires n == m.(state := Mirroring(1), sourceOwners := map[voter := owner], targetOwners := map[voter := target],
                     receipts := map[ReceiptKey(ForwardMirrored, voter) := Mirrored(m, ForwardMirrored, voter, owner)])
    ensures var prepared := Step(n, Prepare).migration;
      var published := Step(Step(prepared, Activate(epoch)).migration, Publish(1)).migration;
      InGrace(m, Step(published, RecordReverse(Mirrored(m, ReverseMirrored, voter, owner))).migration, voter, owner,
          target, epoch)
  {
    hide EqualVoterProof, FirstOwner;
    OneVoterProof(n, ForwardMirrored, voter, Mirrored(m, ForwardMirrored, voter, owner));
  }

  /** After a rollback, a run can order the cleanup of the very namespace that the rollback retained. */
  lemma RetainedSourceCleanedUp(m: Migration, voter: U64, owner: Digest, target: Digest, epoch: Positive,
                                later: Positive, generation: Positive)
    requires Fresh(m) && m.voters == {voter} && owner != ZERO && target != ZERO
    requires epoch == m.sourceEpoch + 1 && later == epoch + 1 && generation == m.targetGeneration + 1
    ensures var run := UpToGrace(m, voter, owner, target, epoch) + [Rollback(later, generation)] + [Publish(2)];
      var cleanup := Step(After(m, run), Cleanup(voter, owner, true));
      && After(m, run).activeGeneration == generation != m.targetGeneration && Rolled(m, run)
      && cleanup.reply.Ok? && cleanup.reply.value.Some? && cleanup.reply.value.value.kind == CleanUpSource
      && cleanup.reply.value.value.owner == Some(owner)
  {
    hide EqualVoterProof, FirstOwner, After, Rolled, Step;
    var grace := UpToGrace(m, voter, owner, target, epoch);
    ReachesGrace(m, voter, owner, target, epoch);
    var n := After(m, grace);
    OneVoterProof(n, ReverseMirrored, voter, Mirrored(m, ReverseMirrored, voter, owner));
    ProofOutlivesRollback(n, later, generation, 2, voter);
    Extended(m, grace, Rollback(later, generation));
    Extended(m, grace + [Rollback(later, generation)], Publish(2));
    RolledHere(m, grace, Rollback(later, generation), Publish(2));
  }

  lemma RolledHere(m: Migration, front: seq<Request>, rollback: Request, last: Request)
    requires rollback.Rollback? && rollback.generation != m.targetGeneration
    requires Step(After(m, front), rollback).reply.Ok?
    ensures Rolled(m, front + [rollback] + [last])
  {
    hide Step, After;
    var run := front + [rollback] + [last];
    assert run[..|front|] == front && run[|front|] == rollback;
    assert RolledAt(m, run, |front|);
  }
}

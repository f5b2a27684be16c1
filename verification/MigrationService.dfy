/** The migration record itself, updated in place by each request. */
module MigrationService {
  import opened Wrappers
  import opened ByteStrings
  import opened KeyOrder
  import opened MigrationSteps
  import opened MigrationRuns

  class MigrationRecord {
    const id: U128
    const catalogVersion: U64
    const sourceEpoch: Positive
    const sourceGeneration: Positive
    const targetGeneration: Positive
    const targetClass: Digest
    const voters: set<U64>
    var receipts: map<ReceiptKey, Receipt>
    var sourceOwners: map<U64, Digest>
    var targetOwners: map<U64, Digest>
    var state: MigrationState
    var activeEpoch: Positive
    var activeGeneration: Positive
    /** The migration as it was created, and the requests since. */
    ghost var start: Migration
    ghost var history: seq<Request>

    /** The record is where its run has led, so whatever holds of every run holds of this record. */
    ghost predicate Valid()
      reads this
    {
      Fresh(start) && Value() == After(start, history)
    }

    ghost function Value(): Migration
      reads this
    {
      Migration(id, catalogVersion, sourceEpoch, sourceGeneration, targetGeneration, targetClass, voters, receipts,
          sourceOwners, targetOwners,
                state, activeEpoch, activeGeneration)
    }

    constructor (m: Migration)
      requires Fresh(m)
      ensures Valid() && Value() == m && start == m && history == []
    {
      id, catalogVersion, sourceEpoch, sourceGeneration, targetGeneration :=
          m.id, m.catalogVersion, m.sourceEpoch, m.sourceGeneration, m.targetGeneration;
      targetClass, voters, receipts, sourceOwners, targetOwners := m.targetClass, m.voters, map[], map[], map[];
      state, activeEpoch, activeGeneration := Allocating, m.sourceEpoch, m.sourceGeneration;
      start, history := m, [];
    }

    method ClaimTargetNamespace(replica: U64, sourceOwner: Digest, targetOwner: Digest, observed: Option<Digest>)
      returns (reply: Reply)
      requires Valid()
      modifies this
      ensures Stepped(Value(), reply) == Step(old(Value()), ClaimNamespace(replica, sourceOwner, targetOwner, observed))
      ensures Valid() && start == old(start)
      ensures history == old(history) + [ClaimNamespace(replica, sourceOwner, targetOwner, observed)]
    {
      AfterOne(start, history, ClaimNamespace(replica, sourceOwner, targetOwner, observed));
      history := history + [ClaimNamespace(replica, sourceOwner, targetOwner, observed)];
      if state != Allocating || replica !in voters || sourceOwner == ZERO || targetOwner == ZERO {
        return Err(IllegalTransition);
      }
      if observed.Some? && observed.value != targetOwner {
        return Err(NamespaceCollision);
      }
      if (replica in sourceOwners && sourceOwners[replica] != sourceOwner)
          || (replica in targetOwners && targetOwners[replica] != targetOwner) {
        return Err(NamespaceCollision);
      }
      sourceOwners := sourceOwners[replica := sourceOwner];
      targetOwners := targetOwners[replica := targetOwner];
      return Ok(Some(Action(Allocate, targetGeneration, Some(replica), None, None, Some(targetOwner), None)));
    }

    method StartBackfill(snapshotIndex: U64) returns (reply: Reply)
      requires Valid()
      modifies this
      ensures Stepped(Value(), reply) == Step(old(Value()), BeginBackfill(snapshotIndex))
      ensures Valid() && start == old(start) && history == old(history) + [BeginBackfill(snapshotIndex)]
    {
      AfterOne(start, history, BeginBackfill(snapshotIndex));
      history := history + [BeginBackfill(snapshotIndex)];
      if snapshotIndex == 0 {
        return Err(IllegalTransition);
      }
      if state.Allocating? {
        state := Backfilling(snapshotIndex);
      } else if state != Backfilling(snapshotIndex) {
        return Err(IllegalTransition);
      }
      return Ok(Some(Action(Backfill, targetGeneration, None, Some(snapshotIndex), None, None, None)));
    }

    method StartMirroring() returns (reply: Reply)
      requires Valid()
      modifies this
      ensures Stepped(Value(), reply) == Step(old(Value()), BeginMirroring)
      ensures Valid() && start == old(start) && history == old(history) + [BeginMirroring]
    {
      AfterOne(start, history, BeginMirroring);
      history := history + [BeginMirroring];
      if !state.Backfilling? && !state.Mirroring? {
        return Err(IllegalTransition);
      }
      var snapshotIndex := state.snapshotIndex;
      state := Mirroring(snapshotIndex);
      return Ok(Some(Action(MirrorForward, targetGeneration, None, Some(snapshotIndex), None, None, None)));
    }

    /** Files a receipt after checking that it belongs to this migration. */
    method FileReceipt(receipt: Receipt) returns (r: Result<(), ControlError>)
      modifies this`receipts
      ensures r.Ok? ==> InsertReceipt(old(Value()), receipt) == Ok(Value())
      ensures r.Err? ==> InsertReceipt(old(Value()), receipt) == Err(r.error) && Value() == old(Value())
    {
      if receipt.catalogVersion != catalogVersion {
        return Err(StaleCatalog);
      }
      if || receipt.migrationId != id || receipt.sourceGeneration != sourceGeneration
          || receipt.targetGeneration != targetGeneration
         || receipt.targetClass != targetClass || receipt.replica !in voters {
        return Err(InvalidReceipt);
      }
      var key := ReceiptKey(receipt.kind, receipt.replica);
      if key in receipts {
        return if receipts[key] == receipt then Ok(()) else Err(ReceiptConflict);
      }
      receipts := receipts[key := receipt];
      return Ok(());
    }

    method AcceptReceipt(receipt: Receipt) returns (reply: Reply)
      requires Valid()
      modifies this
      ensures Stepped(Value(), reply) == Step(old(Value()), RecordReceipt(receipt))
      ensures Valid() && start == old(start) && history == old(history) + [RecordReceipt(receipt)]
    {
      hide InsertReceipt;
      AfterOne(start, history, RecordReceipt(receipt));
      history := history + [RecordReceipt(receipt)];
      if !state.Mirroring? {
        return Err(IllegalTransition);
      }
      if !(receipt.kind.Verified? || receipt.kind.ForwardMirrored?) || receipt.appliedIndex < state.snapshotIndex {
        return Err(InvalidReceipt);
      }
      var filed := FileReceipt(receipt);
      return match filed case Ok(_) => Ok(None) case Err(error) => Err(error);
    }

    /** Asks every voter in order for its receipt; all must agree. */
    method VoterProof(kind: ReceiptKind) returns (r: Result<Proof, ControlError>)
      ensures r == EqualVoterProof(Value(), kind)
    {
      var order := OrderedKeys(voters);
      OrderIsUnique(order, InOrderOf(voters), voters);
      var proof: Option<Proof> := None;
      var i := 0;
      while i < |order|
        invariant 0 <= i <= |order|
        invariant Walk(order[i..], receipts, kind, proof) == EqualVoterProof(Value(), kind)
      {
        assert order[i] in order;
        assert order[i..][0] == order[i] && order[i..][1..] == order[i + 1..];
        var key := ReceiptKey(kind, order[i]);
        if key !in receipts {
          return Err(IncompleteReceipts);
        }
        var mine := Proof(receipts[key].appliedIndex, receipts[key].logicalDigest);
        if proof.Some? && proof.value != mine {
          return Err(DigestMismatch);
        }
        proof := Some(mine);
        i := i + 1;
      }
      return if proof.Some? then Ok(proof.value) else Err(IncompleteReceipts);
    }

    method PrepareCutover() returns (reply: Reply)
      requires Valid()
      modifies this
      ensures Stepped(Value(), reply) == Step(old(Value()), Prepare)
      ensures Valid() && start == old(start) && history == old(history) + [Prepare]
    {
      hide EqualVoterProof;
      AfterOne(start, history, Prepare);
      history := history + [Prepare];
      if state.Prepared? {
        return Ok(Some(Action(PrepareTarget, targetGeneration, None, Some(state.verifiedIndex), None, None, None)));
      }
      if !state.Mirroring? {
        return Err(IllegalTransition);
      }
      var proof :- VoterProof(ForwardMirrored);
      state := Prepared(proof.index, proof.digest);
      return Ok(Some(Action(PrepareTarget, targetGeneration, None, Some(proof.index), None, None, None)));
    }

    method CommitActivation(nextEpoch: Positive) returns (reply: Reply)
      requires Valid()
      modifies this
      ensures Stepped(Value(), reply) == Step(old(Value()), Activate(nextEpoch))
      ensures Valid() && start == old(start) && history == old(history) + [Activate(nextEpoch)]
    {
      AfterOne(start, history, Activate(nextEpoch));
      history := history + [Activate(nextEpoch)];
      if state.Prepared? && nextEpoch == sourceEpoch + 1 {
        state := Activating(nextEpoch);
        activeEpoch := nextEpoch;
        activeGeneration := targetGeneration;
      } else if !(state == Activating(nextEpoch) && activeGeneration == targetGeneration) {
        return Err(IllegalTransition);
      }
      return Ok(Some(Action(CommitCutover, targetGeneration, None, None, Some(nextEpoch), None, None)));
    }

    method AnnounceActivation(activatedAt: U64) returns (reply: Reply)
      requires Valid()
      modifies this
      ensures Stepped(Value(), reply) == Step(old(Value()), Publish(activatedAt))
      ensures Valid() && start == old(start) && history == old(history) + [Publish(activatedAt)]
    {
      AfterOne(start, history, Publish(activatedAt));
      history := history + [Publish(activatedAt)];
      if activatedAt == 0 {
        return Err(InvalidMigration);
      }
      if state.Activating? {
        state := Grace(state.nextEpoch, activatedAt);
      } else if !(state.Grace? && state.activatedAt == activatedAt) {
        return Err(IllegalTransition);
      }
      return Ok(Some(Action(PublishActivation, activeGeneration, None, None, Some(state.activatedEpoch), None, None)));
    }

    method AcceptReverseReceipt(receipt: Receipt) returns (reply: Reply)
      requires Valid()
      modifies this
      ensures Stepped(Value(), reply) == Step(old(Value()), RecordReverse(receipt))
      ensures Valid() && start == old(start) && history == old(history) + [RecordReverse(receipt)]
    {
      hide InsertReceipt;
      AfterOne(start, history, RecordReverse(receipt));
      history := history + [RecordReverse(receipt)];
      if !state.Grace? || !receipt.kind.ReverseMirrored? {
        return Err(IllegalTransition);
      }
      var _ :- FileReceipt(receipt);
      var owner := if receipt.replica in sourceOwners then Some(sourceOwners[receipt.replica]) else None;
      return Ok(Some(Action(MirrorReverse, sourceGeneration, Some(receipt.replica), Some(receipt.appliedIndex), None,
          owner, None)));
    }

    method AbandonMigration(expectedCatalog: U64) returns (reply: Reply)
      requires Valid()
      modifies this
      ensures Stepped(Value(), reply) == Step(old(Value()), Abort(expectedCatalog))
      ensures Valid() && start == old(start) && history == old(history) + [Abort(expectedCatalog)]
    {
      AfterOne(start, history, Abort(expectedCatalog));
      history := history + [Abort(expectedCatalog)];
      if expectedCatalog != catalogVersion {
        return Err(StaleCatalog);
      }
      if state.Allocating? || state.Backfilling? || state.Mirroring? || state.Prepared? {
        state := Aborted;
      } else if !state.Aborted? {
        return Err(IllegalTransition);
      }
      return Ok(Some(Action(AbortMigration, sourceGeneration, None, None, None, None, None)));
    }

    method RollBackTo(nextEpoch: Positive, generation: Positive) returns (reply: Reply)
      requires Valid()
      modifies this
      ensures Stepped(Value(), reply) == Step(old(Value()), Rollback(nextEpoch, generation))
      ensures Valid() && start == old(start) && history == old(history) + [Rollback(nextEpoch, generation)]
    {
      hide InOrderOf;
      AfterOne(start, history, Rollback(nextEpoch, generation));
      history := history + [Rollback(nextEpoch, generation)];
      var exactRetry := state == Activating(nextEpoch) && activeEpoch == nextEpoch && activeGeneration == generation;
      if !exactRetry && (!state.Grace? || nextEpoch != activeEpoch + 1 || generation != activeGeneration + 1) {
        return Err(IllegalTransition);
      }
      var order := OrderedKeys(sourceOwners.Keys);
      OrderIsUnique(order, InOrderOf(sourceOwners.Keys), sourceOwners.Keys);
      var retained: Option<Digest> := None;
      if order != [] {
        assert order[0] in order;
        retained := Some(sourceOwners[order[0]]);
      }
      state := Activating(nextEpoch);
      activeEpoch := nextEpoch;
      activeGeneration := generation;
      return Ok(Some(Action(RollBack, generation, None, None, Some(nextEpoch), None, retained)));
    }

    method CleanUpReplica(replica: U64, owner: Digest, pinsReleased: bool) returns (reply: Reply)
      requires Valid()
      modifies this
      ensures Stepped(Value(), reply) == Step(old(Value()), Cleanup(replica, owner, pinsReleased))
      ensures Valid() && start == old(start) && history == old(history) + [Cleanup(replica, owner, pinsReleased)]
    {
      hide EqualVoterProof, InsertReceipt;
      AfterOne(start, history, Cleanup(replica, owner, pinsReleased));
      history := history + [Cleanup(replica, owner, pinsReleased)];
      if !(state.Grace? || state.Completed?) || !pinsReleased || replica !in sourceOwners
          || sourceOwners[replica] != owner {
        return Err(CleanupFenced);
      }
      var proof := VoterProof(ReverseMirrored);
      if proof.Err? {
        return Err(CleanupFenced);
      }
      var receipt := Receipt(CleanedUp, id, replica, catalogVersion, sourceGeneration, targetGeneration, targetClass,
                             proof.value.index, proof.value.digest, Some(owner), true);
      var _ :- FileReceipt(receipt);
      if forall v | v in voters :: ReceiptKey(CleanedUp, v) in receipts {
        state := Completed;
      }
      return Ok(Some(Action(CleanUpSource, sourceGeneration, Some(replica), Some(proof.value.index), None, Some(owner),
          None)));
    }
  }

  lemma AfterOne(m: Migration, requests: seq<Request>, request: Request)
    ensures After(m, requests + [request]) == Step(After(m, requests), request).migration
  {
    assert (requests + [request])[..|requests|] == requests;
  }

  /** A set has one ascending list. */
  lemma {:induction false} OrderIsUnique(s: seq<nat>, t: seq<nat>, keys: set<nat>)
    requires InOrder(s, keys) && InOrder(t, keys)
    ensures s == t
  {
    OrderedSize(s, keys);
    OrderedSize(t, keys);
    forall i | 0 <= i < |s|
      ensures s[i] == t[i]
    {
      assert s[i] in s;
      assert s[i] in t;
      var j :| 0 <= j < |t| && t[j] == s[i];
      RankIsIndex(s, keys, i);
      RankIsIndex(t, keys, j);
    }
  }
}

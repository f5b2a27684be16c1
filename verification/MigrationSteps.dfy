/** Backend migration as a state machine: allocation, backfill, mirroring, cutover, grace, rollback and cleanup. */
module MigrationSteps {
  import opened Wrappers
  import opened ByteStrings
  import opened KeyOrder

  /** Epochs and generations start at one. */
  type Positive = n: U64 | n != 0 witness 1

  datatype MigrationState =
    | Allocating
    | Backfilling(snapshotIndex: U64)
    | Mirroring(snapshotIndex: U64)
    | Prepared(verifiedIndex: U64, digest: Digest)
    | Activating(nextEpoch: Positive)
    | Grace(activatedEpoch: Positive, activatedAt: U64)
    | Completed
    | Aborted

  datatype ReceiptKind = Verified | ForwardMirrored | ReverseMirrored | CleanedUp
  datatype ReceiptKey = ReceiptKey(kind: ReceiptKind, replica: U64)

  datatype Receipt = Receipt(
    kind: ReceiptKind,
    migrationId: U128,
    replica: U64,
    catalogVersion: U64,
    sourceGeneration: Positive,
    targetGeneration: Positive,
    targetClass: Digest,
    appliedIndex: U64,
    logicalDigest: Digest,
    owner: Option<Digest>,
    pinsReleased: bool)

  datatype ActionKind =
    | Allocate | Backfill | MirrorForward | PrepareTarget | CommitCutover | PublishActivation
    | MirrorReverse | CleanUpSource | RollBack | AbortMigration

  /** The order sent out for an accepted request; the fixed identity of the migration goes with it. */
  datatype Action = Action(
    kind: ActionKind,
    generation: Positive,
    replica: Option<U64>,
    snapshotIndex: Option<U64>,
    nextEpoch: Option<Positive>,
    owner: Option<Digest>,
    retainedOwner: Option<Digest>)

  datatype ControlError =
    | IllegalTransition | NamespaceCollision | InvalidReceipt | DigestMismatch | ReceiptConflict | StaleCatalog
    | IncompleteReceipts | CleanupFenced | InvalidMigration

  /** Backend classes are known by their digests. */
  datatype Migration = Migration(
    id: U128,
    catalogVersion: U64,
    sourceEpoch: Positive,
    sourceGeneration: Positive,
    targetGeneration: Positive,
    targetClass: Digest,
    voters: set<U64>,
    receipts: map<ReceiptKey, Receipt>,
    sourceOwners: map<U64, Digest>,
    targetOwners: map<U64, Digest>,
    state: MigrationState,
    activeEpoch: Positive,
    activeGeneration: Positive)
  {
    predicate Accepts(epoch: U64, generation: U64)
    {
      epoch == activeEpoch && generation == activeGeneration
    }
  }

  datatype Request =
    | ClaimNamespace(replica: U64, sourceOwner: Digest, targetOwner: Digest, observed: Option<Digest>)
    | BeginBackfill(snapshotIndex: U64)
    | BeginMirroring
    | RecordReceipt(receipt: Receipt)
    | Prepare
    | Activate(nextEpoch: Positive)
    | Publish(activatedAt: U64)
    | RecordReverse(receipt: Receipt)
    | Abort(catalogVersion: U64)
    | Rollback(nextEpoch: Positive, generation: Positive)
    | Cleanup(replica: U64, owner: Digest, pinsReleased: bool)

  type Reply = Result<Option<Action>, ControlError>
  datatype Stepped = Stepped(migration: Migration, reply: Reply)

  const ZERO: Digest := BigEndian(0, 32)

  function Refuse(m: Migration, error: ControlError): Stepped
  {
    Stepped(m, Err(error))
  }

  function Plain(kind: ActionKind, generation: Positive, snapshotIndex: Option<U64>,
                 nextEpoch: Option<Positive>): Action
  {
    Action(kind, generation, None, snapshotIndex, nextEpoch, None, None)
  }

  // ----- creation

  function VoterSet(voters: seq<U64>): set<U64>
  {
    set v | v in voters
  }

  /** Both ways to create a migration; one of them names the source class, which must not be the target's. */
  function NewMigration(id: U128, catalogVersion: U64, sourceEpoch: Positive, sourceGeneration: Positive,
                        sourceClass: Option<Digest>,
                        targetGeneration: Positive, targetClass: Digest, voters: seq<U64>): (r: Option<Migration>)
  {
    var set1 := VoterSet(voters);
    if sourceClass == Some(targetClass) then None
    else if sourceGeneration == U64_MAX || targetGeneration != sourceGeneration + 1 || set1 == {}
        || |set1| != |voters| then None
    else Some(Migration(id, catalogVersion, sourceEpoch, sourceGeneration, targetGeneration, targetClass, set1, map[],
        map[], map[],
                        Allocating, sourceEpoch, sourceGeneration))
  }

  // ----- receipts

  function CheckReceipt(m: Migration, r: Receipt): (error: Option<ControlError>)
  {
    if r.catalogVersion != m.catalogVersion then Some(StaleCatalog)
    else if || r.migrationId != m.id || r.sourceGeneration != m.sourceGeneration
        || r.targetGeneration != m.targetGeneration
            || r.targetClass != m.targetClass || r.replica !in m.voters
    then Some(InvalidReceipt)
    else None
  }

  /** Keeps the first receipt of a kind from a replica; a different one later is a conflict. */
  function InsertReceipt(m: Migration, r: Receipt): (result: Result<Migration, ControlError>)
  {
    var bad := CheckReceipt(m, r);
    var key := ReceiptKey(r.kind, r.replica);
    if bad.Some? then Err(bad.value)
    else if key in m.receipts then if m.receipts[key] == r then Ok(m) else Err(ReceiptConflict)
    else Ok(m.(receipts := m.receipts[key := r]))
  }

  datatype Proof = Proof(index: U64, digest: Digest)

  /** Goes through the voters in order: each must have a receipt, and all receipts must agree. */
  function Walk(order: seq<nat>, receipts: map<ReceiptKey, Receipt>, kind: ReceiptKind,
                proof: Option<Proof>): (r: Result<Proof, ControlError>)
  {
    if order == [] then if proof.Some? then Ok(proof.value) else Err(IncompleteReceipts)
    else if order[0] > U64_MAX || ReceiptKey(kind, order[0]) !in receipts then Err(IncompleteReceipts)
    else
      var receipt := receipts[ReceiptKey(kind, order[0])];
      var mine := Proof(receipt.appliedIndex, receipt.logicalDigest);
      if proof.Some? && proof.value != mine then Err(DigestMismatch)
      else Walk(order[1..], receipts, kind, Some(mine))
  }

  ghost function EqualVoterProof(m: Migration, kind: ReceiptKind): Result<Proof, ControlError>
  {
    Walk(InOrderOf(m.voters), m.receipts, kind, None)
  }

  /** The owner of the first replica that claimed a namespace. */
  ghost function FirstOwner(owners: map<U64, Digest>): Option<Digest>
  {
    var order := InOrderOf(owners.Keys);
    if order == [] then None else
      assert order[0] in order;
      Some(owners[order[0]])
  }

  // ----- requests

  function ClaimStep(m: Migration, replica: U64, sourceOwner: Digest, targetOwner: Digest,
                     observed: Option<Digest>): Stepped
  {
    if !m.state.Allocating? || replica !in m.voters || sourceOwner == ZERO || targetOwner == ZERO then
        Refuse(m, IllegalTransition)
    else if observed.Some? && observed.value != targetOwner then Refuse(m, NamespaceCollision)
    else if || (replica in m.sourceOwners && m.sourceOwners[replica] != sourceOwner)
            || (replica in m.targetOwners && m.targetOwners[replica] != targetOwner)
    then Refuse(m, NamespaceCollision)
    else
      Stepped(m.(sourceOwners := m.sourceOwners[replica := sourceOwner],
          targetOwners := m.targetOwners[replica := targetOwner]),
              Ok(Some(Action(Allocate, m.targetGeneration, Some(replica), None, None, Some(targetOwner), None))))
  }

  function BackfillStep(m: Migration, snapshotIndex: U64): Stepped
  {
    var reply := Ok(Some(Plain(Backfill, m.targetGeneration, Some(snapshotIndex), None)));
    if snapshotIndex == 0 then Refuse(m, IllegalTransition)
    else if m.state.Allocating? then Stepped(m.(state := Backfilling(snapshotIndex)), reply)
    else if m.state == Backfilling(snapshotIndex) then Stepped(m, reply)
    else Refuse(m, IllegalTransition)
  }

  function MirrorStep(m: Migration): Stepped
  {
    if m.state.Backfilling? || m.state.Mirroring? then
      Stepped(m.(state := Mirroring(m.state.snapshotIndex)),
          Ok(Some(Plain(MirrorForward, m.targetGeneration, Some(m.state.snapshotIndex), None))))
    else Refuse(m, IllegalTransition)
  }

  function ReceiptStep(m: Migration, r: Receipt): Stepped
  {
    if !m.state.Mirroring? then Refuse(m, IllegalTransition)
    else if !(r.kind.Verified? || r.kind.ForwardMirrored?) || r.appliedIndex < m.state.snapshotIndex then
        Refuse(m, InvalidReceipt)
    else
      match InsertReceipt(m, r)
      case Ok(n) => Stepped(n, Ok(None))
      case Err(error) => Refuse(m, error)
  }

  ghost function PrepareStep(m: Migration): Stepped
  {
    if m.state.Prepared? then
        Stepped(m, Ok(Some(Plain(PrepareTarget, m.targetGeneration, Some(m.state.verifiedIndex), None))))
    else if !m.state.Mirroring? then Refuse(m, IllegalTransition)
    else
      match EqualVoterProof(m, ForwardMirrored)
      case Ok(proof) =>
        Stepped(m.(state := Prepared(proof.index, proof.digest)),
            Ok(Some(Plain(PrepareTarget, m.targetGeneration, Some(proof.index), None))))
      case Err(error) => Refuse(m, error)
  }

  function ActivateStep(m: Migration, nextEpoch: Positive): Stepped
  {
    var reply := Ok(Some(Plain(CommitCutover, m.targetGeneration, None, Some(nextEpoch))));
    if m.state.Prepared? && nextEpoch == m.sourceEpoch + 1 then
      Stepped(m.(state := Activating(nextEpoch), activeEpoch := nextEpoch, activeGeneration := m.targetGeneration),
          reply)
    else if m.state == Activating(nextEpoch) && m.activeGeneration == m.targetGeneration then Stepped(m, reply)
    else Refuse(m, IllegalTransition)
  }

  function PublishStep(m: Migration, activatedAt: U64): Stepped
  {
    if activatedAt == 0 then Refuse(m, InvalidMigration)
    else if m.state.Activating? then
      Stepped(m.(state := Grace(m.state.nextEpoch, activatedAt)),
          Ok(Some(Plain(PublishActivation, m.activeGeneration, None, Some(m.state.nextEpoch)))))
    else if m.state.Grace? && m.state.activatedAt == activatedAt then
      Stepped(m, Ok(Some(Plain(PublishActivation, m.activeGeneration, None, Some(m.state.activatedEpoch)))))
    else Refuse(m, IllegalTransition)
  }

  function ReverseStep(m: Migration, r: Receipt): Stepped
  {
    if !m.state.Grace? || !r.kind.ReverseMirrored? then Refuse(m, IllegalTransition)
    else
      match InsertReceipt(m, r)
      case Ok(n) =>
        var owner := if r.replica in m.sourceOwners then Some(m.sourceOwners[r.replica]) else None;
        Stepped(n, Ok(Some(Action(MirrorReverse, m.sourceGeneration, Some(r.replica), Some(r.appliedIndex), None,
                                  owner, None))))
      case Err(error) => Refuse(m, error)
  }

  function AbortStep(m: Migration, catalogVersion: U64): Stepped
  {
    if catalogVersion != m.catalogVersion then Refuse(m, StaleCatalog)
    else if m.state.Allocating? || m.state.Backfilling? || m.state.Mirroring? || m.state.Prepared?
        || m.state.Aborted? then
      Stepped(m.(state := Aborted), Ok(Some(Plain(AbortMigration, m.sourceGeneration, None, None))))
    else Refuse(m, IllegalTransition)
  }

  ghost function RollbackStep(m: Migration, nextEpoch: Positive, generation: Positive): Stepped
  {
    var retry := m.state == Activating(nextEpoch) && m.Accepts(nextEpoch, generation);
    if retry || (m.state.Grace? && nextEpoch == m.activeEpoch + 1 && generation == m.activeGeneration + 1) then
      Stepped(m.(state := Activating(nextEpoch), activeEpoch := nextEpoch, activeGeneration := generation),
              Ok(Some(Action(RollBack, generation, None, None, Some(nextEpoch), None, FirstOwner(m.sourceOwners)))))
    else Refuse(m, IllegalTransition)
  }

  function CleanupReceipt(m: Migration, replica: U64, proof: Proof, owner: Digest): Receipt
  {
    Receipt(CleanedUp, m.id, replica, m.catalogVersion, m.sourceGeneration, m.targetGeneration, m.targetClass,
        proof.index, proof.digest, Some(owner), true)
  }

  predicate AllCleanedUp(m: Migration)
  {
    forall v | v in m.voters :: ReceiptKey(CleanedUp, v) in m.receipts
  }

  ghost function CleanupStep(m: Migration, replica: U64, owner: Digest, pinsReleased: bool): Stepped
  {
    if !(m.state.Grace? || m.state.Completed?) || !pinsReleased || replica !in m.sourceOwners
        || m.sourceOwners[replica] != owner then
      Refuse(m, CleanupFenced)
    else
      match EqualVoterProof(m, ReverseMirrored)
      case Err(_) => Refuse(m, CleanupFenced)
      case Ok(proof) =>
        match InsertReceipt(m, CleanupReceipt(m, replica, proof, owner))
        case Err(error) => Refuse(m, error)
        case Ok(n) =>
          Stepped(if AllCleanedUp(n) then n.(state := Completed) else n,
                  Ok(Some(Action(CleanUpSource, m.sourceGeneration, Some(replica), Some(proof.index), None,
                      Some(owner), None))))
  }

  ghost function Step(m: Migration, request: Request): Stepped
  {
    match request
    case ClaimNamespace(replica, sourceOwner, targetOwner, observed) =>
        ClaimStep(m, replica, sourceOwner, targetOwner, observed)
    case BeginBackfill(snapshotIndex) => BackfillStep(m, snapshotIndex)
    case BeginMirroring => MirrorStep(m)
    case RecordReceipt(receipt) => ReceiptStep(m, receipt)
    case Prepare => PrepareStep(m)
    case Activate(nextEpoch) => ActivateStep(m, nextEpoch)
    case Publish(activatedAt) => PublishStep(m, activatedAt)
    case RecordReverse(receipt) => ReverseStep(m, receipt)
    case Abort(catalogVersion) => AbortStep(m, catalogVersion)
    case Rollback(nextEpoch, generation) => RollbackStep(m, nextEpoch, generation)
    case Cleanup(replica, owner, pinsReleased) => CleanupStep(m, replica, owner, pinsReleased)
  }
}

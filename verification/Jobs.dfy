/** Analytics jobs: what is asked for, and the record the ledger keeps of it. */
module Jobs {
  import opened Wrappers
  import opened ByteStrings

  /** Built-in algorithms, by their number in the catalogue. */
  type Algorithm = a: nat | 1 <= a <= 20 witness 1

  const STRONGLY_CONNECTED: Algorithm := 5
  const WEAKLY_CONNECTED: Algorithm := 6
  const DEGREE: Algorithm := 8
  const CLUSTERING: Algorithm := 12
  const K_CORE: Algorithm := 13
  const LABEL_PROPAGATION: Algorithm := 14
  const LOUVAIN: Algorithm := 15
  const EARLIEST_ARRIVAL: Algorithm := 16
  const LATEST_DEPARTURE: Algorithm := 17
  const TEMPORAL_REACHABILITY: Algorithm := 18
  const TEMPORAL_MOTIF: Algorithm := 19
  const CHANGE_POINT: Algorithm := 20
  const SHORTEST_PATH: Algorithm := 3
  const ALL_PAIRS: Algorithm := 4

  /** Floating-point settings are kept as their bits. */
  datatype Request = Request(
    algorithm: Algorithm,
    source: Option<U128>,
    target: Option<U128>,
    maxDepth: U32,
    maxPairs: U64,
    iterations: U32,
    k: U32,
    damping: U64,
    weightProperty: Option<Bytes8>,
    departureProperty: Option<Bytes8>,
    arrivalProperty: Option<Bytes8>,
    eventTimeProperty: Option<Bytes8>,
    signalProperty: Option<Bytes8>,
    timeStart: Option<I64>,
    timeEnd: Option<I64>,
    changeThreshold: U64)

  datatype Fence = Fence(placementEpoch: U64, backendGeneration: U64, appliedIndex: U64, closedTime: I64)

  datatype Snapshot = Snapshot(transactionId: U128, startTime: I64, catalogVersion: U64, shards: map<U64, Fence>)

  datatype Column = Column(name: Bytes8, propertyType: PropertyType, required: bool)

  /** Property types, by their tag. */
  type PropertyType = t: nat | 1 <= t <= 7 witness 1

  datatype Columns = Columns(includeReverse: bool, vertexProperties: seq<Column>, edgeProperties: seq<Column>)

  datatype Spec = Spec(
    id: U128,
    identity: Bytes8,
    request: Request,
    snapshot: Snapshot,
    projection: Columns,
    snapshotDigest: Digest,
    topologyDigest: Digest,
    backendFenceDigest: Digest,
    providerVersion: U32,
    algorithmVersion: U32,
    resultSchema: U32,
    checkpointSchema: U32,
    maxAttempts: U32,
    retentionUntil: U64,
    digest: Digest)

  datatype ArtifactKind = CheckpointArtifact | ResultArtifact
  datatype ArtifactKey = ArtifactKey(kind: ArtifactKind, generation: nat)

  datatype Manifest = Manifest(
    jobId: U128,
    leaseEpoch: nat,
    generation: nat,
    kind: ArtifactKind,
    schemaVersion: U32,
    algorithm: Algorithm,
    algorithmVersion: U32,
    snapshotDigest: Digest,
    specDigest: Digest,
    payloadDigest: Digest,
    chunkCount: U64,
    totalBytes: U64,
    contentDigest: Digest)

  type WorkerId = w: U64 | w != 0 witness 1

  datatype StateKind =
    QueuedKind | ClaimedKind | RunningKind | SucceededKind | FailedKind | CancelledKind | TombstonedKind

  datatype JobState =
    | Queued
    | Claimed(worker: WorkerId, leaseEpoch: nat, expiresAt: U64)
    | Running(worker: WorkerId, leaseEpoch: nat, expiresAt: U64, checkpoint: Option<nat>)
    | Succeeded(resultGeneration: nat)
    | Failed(retryable: bool, code: Bytes8)
    | CancelledJob
    | Tombstoned
  {
    function Kind(): StateKind
    {
      match this
      case Queued => QueuedKind
      case Claimed(_, _, _) => ClaimedKind
      case Running(_, _, _, _) => RunningKind
      case Succeeded(_) => SucceededKind
      case Failed(_, _) => FailedKind
      case CancelledJob => CancelledKind
      case Tombstoned => TombstonedKind
    }

    predicate Leased() { Claimed? || Running? }
    predicate Terminal() { Succeeded? || Failed? || CancelledJob? || Tombstoned? }
  }

  /** The compare-and-set token of a record. */
  datatype Cas = Cas(kind: StateKind, revision: nat, leaseEpoch: nat)

  datatype Lease = Lease(job: U128, worker: WorkerId, leaseEpoch: nat, revision: nat, expiresAt: U64)

  datatype Record = Record(
    spec: Spec,
    state: JobState,
    revision: nat,
    leaseEpoch: nat,
    attempts: nat,
    nextGeneration: nat,
    artifacts: map<ArtifactKey, Manifest>,
    pins: set<ArtifactKey>,
    submittedAt: U64,
    updatedAt: U64)
  {
    function Token(): Cas
    {
      Cas(state.Kind(), revision, leaseEpoch)
    }
  }

  datatype JobError =
    | InvalidSpec
    | TimeOverflow
    | SpecConflict
    | JobNotFound
    | StaleState
    | StaleRevision
    | StaleLease
    | LeaseExpired
    | StaleGeneration
    | ArtifactMismatch
    | ArtifactPinned
    | RetentionActive
    | InvalidTransition
    | LedgerVersion
    | LedgerCorrupt
    | BudgetExhausted
    | OperationCancelled

  function Ascii(s: string): (b: Bytes8)
    ensures |b| == |s|
  {
    seq(|s|, i requires 0 <= i < |s| => (s[i] as int) % 128)
  }

  const LEASE_EXPIRED_CODE: Bytes8 := Ascii("DTG-ANALYTICS-LEASE-EXPIRED")
}

/** What accepted requests order to be done, and that every migration can be carried through. */
module MigrationProgress {
  import opened Wrappers
  import opened ByteStrings
  import opened KeyOrder
  import opened MigrationSteps
  import opened MigrationRuns
  import opened MigrationCleanup
  import opened MigrationHistory

  // ----- orders

  ghost predicate GraceServes(m: Migration)
  {
    m.state.Grace? ==> m.state.activatedEpoch == m.activeEpoch
  }

  lemma StepServesGrace(m: Migration, request: Request)
    requires PairSound(m) && GraceServes(m)
    ensures GraceServes(Step(m, request).migration)
  {
    hide EqualVoterProof, FirstOwner, AllCleanedUp;
  }

  /** A grace period is announced for the epoch that is served. */
  lemma {:induction false} GraceIsServed(m: Migration, requests: seq<Request>)
    requires Fresh(m)
    ensures GraceServes(After(m, requests))
    decreases |requests|
  {
    hide Step, PairSound, ProofSound, ReceiptsSound;
    if requests != [] {
      var front := requests[..|requests| - 1];
      GraceIsServed(m, front);
      RunsKeepInvariant(m, front);
      StepServesGrace(After(m, front), requests[|requests| - 1]);
    }
  }

  /** The owner claimed by the replica with the smallest number, if any replica has claimed one. */
  ghost predicate FirstClaimed(m: Migration, requests: seq<Request>, owner: Option<Digest>)
  {
    if owner.None? then forall v, o :: !Claimed(m, requests, v, o)
    else exists v :: Claimed(m, requests, v, owner.value) && forall w: U64, o | w < v :: !Claimed(m, requests, w, o)
  }

  lemma FirstOwnerIs(m: Migration)
    ensures FirstOwner(m.sourceOwners).None? <==> m.sourceOwners.Keys == {}
    ensures FirstOwner(m.sourceOwners).Some? ==>
              exists v :: v in m.sourceOwners && FirstOwner(m.sourceOwners) == Some(m.sourceOwners[v])
                          && forall w | w in m.sourceOwners :: v <= w
  {
    var order := InOrderOf(m.sourceOwners.Keys);
    assert forall k :: k in order <==> k in m.sourceOwners.Keys;
    if order != [] {
      var v := order[0];
      assert v in order;
      forall w | w in m.sourceOwners ensures v <= w {
        assert w in order;
        var i :| 0 <= i < |order| && order[i] == w;
      }
    }
  }

  lemma FirstOwnerIsClaimed(m: Migration, requests: seq<Request>)
    requires Fresh(m)
    ensures FirstClaimed(m, requests, FirstOwner(After(m, requests).sourceOwners))
  {
    hide Step, After, Claimed, FirstOwner;
    var n := After(m, requests);
    FirstOwnerIs(n);
    forall v, o ensures Claimed(m, requests, v, o) <==> v in n.sourceOwners && n.sourceOwners[v] == o {
      ClaimedIsOwner(m, requests, v, o);
    }
    if FirstOwner(n.sourceOwners).Some? {
      var v :| v in n.sourceOwners && FirstOwner(n.sourceOwners) == Some(n.sourceOwners[v])
               && forall w | w in n.sourceOwners :: v <= w;
      assert Claimed(m, requests, v, n.sourceOwners[v]);
    } else {
      assert forall v :: v in n.sourceOwners <==> v in n.sourceOwners.Keys;
    }
  }

  ghost predicate Says(reply: Reply, kind: ActionKind, generation: nat, replica: Option<U64>, index: Option<nat>,
                       epoch: Option<nat>, owner: Option<Digest>)
  {
    && reply.Ok? && reply.value.Some?
    && var a := reply.value.value;
    && a.kind == kind && a.generation == generation && a.replica == replica && a.owner == owner
    && (index.None? <==> a.snapshotIndex.None?) && (index.Some? ==> a.snapshotIndex.value == index.value)
    && (epoch.None? <==> a.nextEpoch.None?) && (epoch.Some? ==> a.nextEpoch.value == epoch.value)
  }

  /** What the reply to the request at `i` orders. */
  ghost predicate Ordered(m: Migration, requests: seq<Request>, i: nat, reply: Reply)
    requires i < |requests|
  {
    var before := requests[..i];
    match requests[i]
    case ClaimNamespace(v, _, target, _) =>
      Says(reply, Allocate, m.targetGeneration, Some(v), None, None, Some(target))
    case BeginBackfill(index) => Says(reply, Backfill, m.targetGeneration, None, Some(index), None, None)
    case BeginMirroring =>
      Says(reply, MirrorForward, m.targetGeneration, None, Some(SnapshotOf(m, before)), None, None)
    case RecordReceipt(_) => reply == Ok(None)
    case Prepare =>
      exists proof :: AllReported(m, before, ForwardMirrored, proof)
                      && Says(reply, PrepareTarget, m.targetGeneration, None, Some(proof.index), None, None)
    case Activate(epoch) => Says(reply, CommitCutover, m.targetGeneration, None, None, Some(epoch), None)
    case Publish(_) =>
      var n := After(m, before);
      Says(reply, PublishActivation, n.activeGeneration, None, None, Some(n.activeEpoch), None)
    case RecordReverse(r) =>
      exists owner :: Says(reply, MirrorReverse, m.sourceGeneration, Some(r.replica), Some(r.appliedIndex), None, owner)
                      && forall o :: Claimed(m, before, r.replica, o) <==> owner == Some(o)
    case Abort(_) => Says(reply, AbortMigration, m.sourceGeneration, None, None, None, None)
    case Rollback(epoch, generation) =>
      && Says(reply, RollBack, generation, None, None, Some(epoch), None)
      && FirstClaimed(m, before, reply.value.value.retainedOwner)
    case Cleanup(v, owner, _) =>
      exists proof :: AllReported(m, before, ReverseMirrored, proof)
                      && Says(reply, CleanUpSource, m.sourceGeneration, Some(v), Some(proof.index), None, Some(owner))
  }

  lemma PrepareOrders(m: Migration, requests: seq<Request>)
    requires Fresh(m) && PrepareStep(After(m, requests)).reply.Ok?
    ensures exists proof ::
      && AllReported(m, requests, ForwardMirrored, proof)
      && Says(PrepareStep(After(m, requests)).reply, PrepareTarget, m.targetGeneration, None, Some(proof.index), None,
              None)
  {
    hide After, AllReported, EqualVoterProof, PairSound, ReceiptsSound, Unanimous;
    var n := After(m, requests);
    SameVoters(m, requests);
    RunsKeepInvariant(m, requests);
    var proof := if n.state.Prepared? then Proof(n.state.verifiedIndex, n.state.digest)
        else EqualVoterProof(n, ForwardMirrored).value;
    ReportsAreProof(m, requests, ForwardMirrored, proof);
  }

  lemma CleanupOrders(m: Migration, requests: seq<Request>, v: U64, owner: Digest, released: bool)
    requires Fresh(m) && CleanupStep(After(m, requests), v, owner, released).reply.Ok?
    ensures exists proof ::
      && AllReported(m, requests, ReverseMirrored, proof)
      && Says(CleanupStep(After(m, requests), v, owner, released).reply, CleanUpSource, m.sourceGeneration, Some(v),
              Some(proof.index), None, Some(owner))
  {
    hide After, AllReported, EqualVoterProof, InsertReceipt, AllCleanedUp, Unanimous;
    var n := After(m, requests);
    SameVoters(m, requests);
    var proof := EqualVoterProof(n, ReverseMirrored).value;
    ReportsAreProof(m, requests, ReverseMirrored, proof);
  }

  lemma ReverseOrders(m: Migration, requests: seq<Request>, r: Receipt)
    requires Fresh(m) && ReverseStep(After(m, requests), r).reply.Ok?
    ensures exists owner ::
      && Says(ReverseStep(After(m, requests), r).reply, MirrorReverse, m.sourceGeneration, Some(r.replica),
              Some(r.appliedIndex), None, owner)
      && forall o :: Claimed(m, requests, r.replica, o) <==> owner == Some(o)
  {
    hide After, Claimed, InsertReceipt;
    var n := After(m, requests);
    SameVoters(m, requests);
    forall o ensures Claimed(m, requests, r.replica, o) <==>
                       r.replica in n.sourceOwners && n.sourceOwners[r.replica] == o {
      ClaimedIsOwner(m, requests, r.replica, o);
    }
    var owner := if r.replica in n.sourceOwners then Some(n.sourceOwners[r.replica]) else None;
    assert Says(ReverseStep(n, r).reply, MirrorReverse, m.sourceGeneration, Some(r.replica), Some(r.appliedIndex),
                None, owner);
  }

  /**
   * In every run an accepted request orders what it should: of the right generation, for the replica, index and epoch
   * that this request or the ones before it named, and for the owner that was claimed.
   */
  lemma OrdersSay(m: Migration, requests: seq<Request>, i: nat)
    requires Fresh(m) && Accepted(m, requests, i)
    ensures Ordered(m, requests, i, Step(After(m, requests[..i]), requests[i]).reply)
  {
    hide After, Claimed, AllReported, FirstClaimed, FirstOwner, EqualVoterProof, CleanupStep, ReverseStep, PrepareStep,
      SnapshotOf, ProofSound, InsertReceipt;
    var before := requests[..i];
    SameVoters(m, before);
    match requests[i]
    case Prepare => PrepareOrders(m, before);
    case RecordReverse(r) => ReverseOrders(m, before, r);
    case Cleanup(v, owner, released) => CleanupOrders(m, before, v, owner, released);
    case Rollback(_, _) => FirstOwnerIsClaimed(m, before);
    case BeginMirroring => RunsKeepInvariant(m, before);
    case Publish(_) =>
      RunsKeepInvariant(m, before);
      GraceIsServed(m, before);
    case _ =>
  }

  // ----- carrying a migration through

  /** Every request of the run was accepted. */
  ghost predicate Smooth(m: Migration, requests: seq<Request>)
  {
    forall i: nat | i < |requests| :: Accepted(m, requests, i)
  }

  lemma GoesOn(m: Migration, requests: seq<Request>, request: Request)
    requires Smooth(m, requests) && Step(After(m, requests), request).reply.Ok?
    ensures Smooth(m, requests + [request])
    ensures After(m, requests + [request]) == Step(After(m, requests), request).migration
  {
    hide Step;
    var longer := requests + [request];
    assert longer[..|requests|] == requests;
    forall i: nat | i < |longer| ensures Accepted(m, longer, i) {
      AcceptedBefore(m, longer, |requests|, i);
    }
  }

  /** The migration with all owners claimed, and nothing else done. */
  ghost predicate AllClaimed(m: Migration, n: Migration, owner: Digest)
  {
    && n == m.(sourceOwners := n.sourceOwners, targetOwners := n.targetOwners)
    && n.sourceOwners.Keys == n.targetOwners.Keys == m.voters
    && forall v | v in n.sourceOwners :: n.sourceOwners[v] == owner
  }

  lemma ClaimAll(m: Migration, owner: Digest) returns (requests: seq<Request>)
    requires Fresh(m) && owner != ZERO
    ensures Smooth(m, requests) && AllClaimed(m, After(m, requests), owner)
  {
    hide After, Step, Smooth;
    requests := [];
    NothingYet(m);
    var rest := m.voters;
    while rest != {}
      invariant rest <= m.voters && Smooth(m, requests)
      invariant After(m, requests) == m.(sourceOwners := After(m, requests).sourceOwners,
                                         targetOwners := After(m, requests).targetOwners)
      invariant After(m, requests).sourceOwners.Keys == After(m, requests).targetOwners.Keys == m.voters - rest
      invariant forall v | v in After(m, requests).sourceOwners :: After(m, requests).sourceOwners[v] == owner
    {
      var v :| v in rest;
      OneClaims(After(m, requests), v, owner);
      GoesOn(m, requests, ClaimNamespace(v, owner, owner, None));
      requests, rest := requests + [ClaimNamespace(v, owner, owner, None)], rest - {v};
    }
  }

  lemma NothingYet(m: Migration)
    ensures Smooth(m, []) && After(m, []) == m
  {
  }

  lemma OneClaims(m: Migration, v: U64, owner: Digest)
    requires m.state.Allocating? && v in m.voters && owner != ZERO
    requires v !in m.sourceOwners && v !in m.targetOwners
    ensures Step(m, ClaimNamespace(v, owner, owner, None)).reply.Ok?
    ensures Step(m, ClaimNamespace(v, owner, owner, None)).migration
         == m.(sourceOwners := m.sourceOwners[v := owner], targetOwners := m.targetOwners[v := owner])
  {
  }

  /** The request that hands in a report of this kind. */
  function Report(m: Migration, kind: ReceiptKind, v: U64, digest: Digest): Request
  {
    var r := Mirrored(m, kind, v, digest);
    if kind.ReverseMirrored? then RecordReverse(r) else RecordReceipt(r)
  }

  /** Reports of this kind can be handed in. */
  ghost predicate Takes(n: Migration, kind: ReceiptKind)
  {
    (kind.ForwardMirrored? && n.state == Mirroring(1)) || (kind.ReverseMirrored? && n.state.Grace?)
  }

  lemma OneReports(m: Migration, n: Migration, kind: ReceiptKind, v: U64, digest: Digest)
    requires Takes(n, kind) && v in n.voters && ReceiptKey(kind, v) !in n.receipts
    requires Concerns(n, Mirrored(m, kind, v, digest))
    ensures Step(n, Report(m, kind, v, digest)).reply.Ok?
    ensures Step(n, Report(m, kind, v, digest)).migration
         == n.(receipts := n.receipts[ReceiptKey(kind, v) := Mirrored(m, kind, v, digest)])
  {
  }

  /** The migration with the reports of this kind from these replicas added to its receipts. */
  ghost predicate Added(m: Migration, n: Migration, p: Migration, kind: ReceiptKind, digest: Digest, from: set<U64>)
  {
    && p == n.(receipts := p.receipts)
    && (forall v | v in from ::
          ReceiptKey(kind, v) in p.receipts && p.receipts[ReceiptKey(kind, v)] == Mirrored(m, kind, v, digest))
    && (forall k: ReceiptKey | k.kind != kind || k.replica !in from :: k in p.receipts <==> k in n.receipts)
  }

  lemma AddedOne(m: Migration, n: Migration, p: Migration, kind: ReceiptKind, digest: Digest, from: set<U64>, v: U64)
    requires Added(m, n, p, kind, digest, from) && v !in from
    ensures Added(m, n, p.(receipts := p.receipts[ReceiptKey(kind, v) := Mirrored(m, kind, v, digest)]), kind, digest,
                  from + {v})
  {
  }

  lemma ReportAll(m: Migration, requests: seq<Request>, kind: ReceiptKind, digest: Digest)
    returns (longer: seq<Request>)
    requires Fresh(m) && Smooth(m, requests) && Takes(After(m, requests), kind)
    requires forall v | v in m.voters :: ReceiptKey(kind, v) !in After(m, requests).receipts
    ensures Smooth(m, longer)
    ensures Added(m, After(m, requests), After(m, longer), kind, digest, m.voters)
  {
    hide After, Step, Smooth;
    var n := After(m, requests);
    SameVoters(m, requests);
    longer := requests;
    var rest := m.voters;
    while rest != {}
      invariant rest <= m.voters && Smooth(m, longer)
      invariant Added(m, n, After(m, longer), kind, digest, m.voters - rest)
    {
      var v :| v in rest;
      OneReports(m, After(m, longer), kind, v, digest);
      GoesOn(m, longer, Report(m, kind, v, digest));
      AddedOne(m, n, After(m, longer), kind, digest, m.voters - rest, v);
      assert m.voters - rest + {v} == m.voters - (rest - {v});
      longer, rest := longer + [Report(m, kind, v, digest)], rest - {v};
    }
    assert m.voters - rest == m.voters;
  }

  lemma AddedIsUnanimous(m: Migration, n: Migration, p: Migration, kind: ReceiptKind, digest: Digest)
    requires Added(m, n, p, kind, digest, m.voters) && n.voters == m.voters
    ensures Unanimous(p, kind, Proof(1, digest))
  {
  }

  lemma StartMirroring(m: Migration, owner: Digest) returns (requests: seq<Request>)
    requires Fresh(m) && owner != ZERO
    ensures Smooth(m, requests)
    ensures var n := After(m, requests);
      n.state == Mirroring(1) && n.receipts == map[] && AllClaimed(m, n.(state := Allocating), owner)
  {
    hide After, Smooth;
    requests := ClaimAll(m, owner);
    GoesOn(m, requests, BeginBackfill(1));
    requests := requests + [BeginBackfill(1)];
    GoesOn(m, requests, BeginMirroring);
    requests := requests + [BeginMirroring];
  }

  /** The migration right after its cutover, with nothing reported in reverse. */
  ghost predicate CutOver(m: Migration, n: Migration, owner: Digest)
  {
    && n.voters == m.voters && n.sourceOwners.Keys == m.voters
    && (forall v | v in n.sourceOwners :: n.sourceOwners[v] == owner)
    && (forall v | v in m.voters :: ReceiptKey(ReverseMirrored, v) !in n.receipts)
    && n.activeEpoch == m.sourceEpoch + 1 && n.activeGeneration == m.targetGeneration
  }

  lemma ReachCutover(m: Migration, owner: Digest) returns (requests: seq<Request>)
    requires Fresh(m) && owner != ZERO && m.sourceEpoch < U64_MAX
    ensures Smooth(m, requests) && CutOver(m, After(m, requests), owner)
    ensures After(m, requests).state == Activating(m.sourceEpoch + 1)
  {
    hide After, Smooth, EqualVoterProof, Unanimous;
    var first := StartMirroring(m, owner);
    requests := ReportAll(m, first, ForwardMirrored, owner);
    var n := After(m, requests);
    AddedIsUnanimous(m, After(m, first), n, ForwardMirrored, owner);
    ProofIsUnanimous(n, ForwardMirrored, Proof(1, owner));
    GoesOn(m, requests, Prepare);
    requests := requests + [Prepare];
    var epoch: Positive := m.sourceEpoch + 1;
    GoesOn(m, requests, Activate(epoch));
    requests := requests + [Activate(epoch)];
  }

  lemma ReachGrace(m: Migration, owner: Digest) returns (requests: seq<Request>)
    requires Fresh(m) && owner != ZERO && m.sourceEpoch < U64_MAX
    ensures Smooth(m, requests) && CutOver(m, After(m, requests), owner) && After(m, requests).state.Grace?
  {
    hide After, Smooth;
    requests := ReachCutover(m, owner);
    GoesOn(m, requests, Publish(1));
    requests := requests + [Publish(1)];
  }

  /** Right after every cutover, a rollback to the very pair being activated is answered as one, and changes nothing. */
  lemma RollbackEchoesActivation(m: Migration, owner: Digest) returns (requests: seq<Request>)
    requires Fresh(m) && owner != ZERO && m.sourceEpoch < U64_MAX
    ensures Smooth(m, requests) && !Rolled(m, requests)
    ensures var n := After(m, requests);
      var echo := Step(n, Rollback(m.sourceEpoch + 1, m.targetGeneration));
      && n.Accepts(m.sourceEpoch + 1, m.targetGeneration) && echo.migration == n
      && echo.reply.Ok? && echo.reply.value.Some? && echo.reply.value.value.kind == RollBack
  {
    hide After, Smooth, Rolled, FirstOwner;
    requests := ReachCutover(m, owner);
    RollbacksDecide(m, requests);
  }

  lemma OneCleansUp(m: Migration, requests: seq<Request>, v: U64, owner: Digest, proof: Proof)
    requires Fresh(m) && Smooth(m, requests) && v in m.voters
    requires After(m, requests).state.Grace? || After(m, requests).state.Completed?
    requires v in After(m, requests).sourceOwners && After(m, requests).sourceOwners[v] == owner
    requires Unanimous(After(m, requests), ReverseMirrored, proof)
    ensures Smooth(m, requests + [Cleanup(v, owner, true)])
    ensures var n, p := After(m, requests), After(m, requests + [Cleanup(v, owner, true)]);
      && p == Step(n, Cleanup(v, owner, true)).migration && p.sourceOwners == n.sourceOwners
      && (p.state.Grace? || p.state.Completed?) && Unanimous(p, ReverseMirrored, proof)
      && forall w :: ReceiptKey(CleanedUp, w) in p.receipts <==> ReceiptKey(CleanedUp, w) in n.receipts || w == v
  {
    hide After, Step, Smooth, Unanimous, Advances, PairSound, ProofSound, ReceiptsSound, Claimed, AllReported;
    var n, c := After(m, requests), Cleanup(v, owner, true);
    var longer := requests + [c];
    assert longer[..|requests|] == requests;
    ClaimedIsOwner(m, requests, v, owner);
    ReportsAreProof(m, requests, ReverseMirrored, proof);
    CleanupAcceptedIff(m, longer, |requests|);
    GoesOn(m, requests, c);
    RunsKeepInvariant(m, requests);
    StepAdvances(n, c);
    UnanimousStays(n, After(m, longer), ReverseMirrored, proof);
    OwnersStay(n, c);
    InsertKeepsStates(n, c);
    forall w ensures ReceiptKey(CleanedUp, w) in After(m, longer).receipts <==>
                       ReceiptKey(CleanedUp, w) in n.receipts || w == v {
      StepCleans(n, c, w);
    }
  }

  /**
   * Every migration that can still advance its epoch can be carried through: some run of requests, each of them
   * accepted, completes it.
   */
  lemma CarriedThrough(m: Migration, owner: Digest) returns (requests: seq<Request>)
    requires Fresh(m) && owner != ZERO && m.sourceEpoch < U64_MAX
    ensures Smooth(m, requests) && After(m, requests).state.Completed?
  {
    hide After, Step, Smooth, Unanimous, AllCleanedUp;
    var grace := ReachGrace(m, owner);
    requests := ReportAll(m, grace, ReverseMirrored, owner);
    AddedIsUnanimous(m, After(m, grace), After(m, requests), ReverseMirrored, owner);
    var rest := m.voters;
    while rest != {}
      invariant rest <= m.voters && Smooth(m, requests)
      invariant After(m, requests).state.Grace? || After(m, requests).state.Completed?
      invariant After(m, requests).sourceOwners.Keys == m.voters
      invariant forall v | v in m.voters :: After(m, requests).sourceOwners[v] == owner
      invariant Unanimous(After(m, requests), ReverseMirrored, Proof(1, owner))
      invariant forall v | v in m.voters - rest :: ReceiptKey(CleanedUp, v) in After(m, requests).receipts
    {
      var v :| v in rest;
      OneCleansUp(m, requests, v, owner, Proof(1, owner));
      requests, rest := requests + [Cleanup(v, owner, true)], rest - {v};
    }
    AllDone(m, requests);
  }

  lemma AllDone(m: Migration, requests: seq<Request>)
    requires Fresh(m) && forall v | v in m.voters :: ReceiptKey(CleanedUp, v) in After(m, requests).receipts
    ensures After(m, requests).state.Completed?
  {
    hide Step, After;
    SameVoters(m, requests);
    CompletedIsCleaned(m, requests);
  }
}

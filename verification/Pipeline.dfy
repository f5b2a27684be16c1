/** The gateway pipeline writer and its credit protocol, as the atomic steps its tasks take in any interleaving. */
module Pipeline {
  import opened Wrappers

  const MAX_BATCH_REQUESTS: nat := 32
  const MAX_BATCH_BYTES: nat := 65_536

  /** A submitted request and its estimated size. */
  datatype Submission = Submission(id: U128, bytes: nat)

  datatype Verdict = Accepted | Gone | TooLarge

  /** What the writer decided about a submission, and whether it was pending at that moment. */
  datatype Decision = Decision(submission: Submission, pending: bool, verdict: Verdict)

  /** Where the writer stands. Reserving credits is a loop of single atomic operations. */
  datatype Writer =
    | Receiving
    | Filling
    | CheckingActive
    | LoadingCredits
    | SwappingCredits(available: nat)
    | Subscribing
    | CheckingAgain
    | Rechecking
    | Parked
    | Sending(granted: nat)
    | Stopped

  /** The writer's subscription to credit notifications. */
  datatype Waiter = NoWaiter | Waiting | Notified

  datatype Reader = Reading | Notifying

  datatype System = System(
    submitted: seq<Submission>,
    queue: seq<Submission>,
    deferred: Option<Submission>,
    batch: seq<Submission>,
    frames: seq<seq<Submission>>,
    decisions: seq<Decision>,
    pending: set<U128>,
    credits: nat,
    received: nat,
    reserved: nat,
    lost: nat,
    active: bool,
    writer: Writer,
    waiter: Waiter,
    reader: Reader,
    failing: nat)

  const START := System([], [], None, [], [], [], {}, 0, 0, 0, 0, true, Receiving, NoWaiter, Reading, 0)

  datatype Event =
    | Register(id: U128)          // a caller becomes pending
    | Forget(id: U128)            // a response, a cancellation or a failure ends it
    | Submit(submission: Submission)
    | AddCredits(count: nat)      // the reader adds what a frame returned ...
    | NotifyCredits               // ... and then notifies
    | Deactivate                  // a failure closes the pipeline ...
    | NotifyFailure               // ... and then notifies
    | TakeFirst
    | FillOne
    | FillStop
    | CheckActive
    | LoadCredits
    | SwapCredits
    | Subscribe
    | CheckAgain
    | Recheck
    | Wake
    | SendFrame
    | SendFails

  function Sizes(batch: seq<Submission>): nat
  {
    if batch == [] then 0 else Sizes(batch[..|batch| - 1]) + batch[|batch| - 1].bytes
  }

  function Flatten(frames: seq<seq<Submission>>): (all: seq<Submission>)
  {
    if frames == [] then [] else Flatten(frames[..|frames| - 1]) + frames[|frames| - 1]
  }

  function Judge(pending: set<U128>, submission: Submission): Decision
  {
    Decision(submission, submission.id in pending,
             if submission.id !in pending then Gone else if submission.bytes > MAX_BATCH_BYTES then TooLarge
             else Accepted)
  }

  /** There is room in the batch for one more. */
  predicate Fits(batch: seq<Submission>, submission: Submission)
  {
    |batch| < MAX_BATCH_REQUESTS && Sizes(batch) + submission.bytes <= MAX_BATCH_BYTES
  }

  function Woken(waiter: Waiter): Waiter
  {
    if waiter.Waiting? then Notified else waiter
  }

  function Granted(s: System): nat
    requires s.writer.SwappingCredits?
  {
    if s.writer.available < |s.batch| then s.writer.available else |s.batch|
  }

  predicate Enabled(s: System, e: Event)
  {
    match e
    case NotifyCredits => s.reader.Notifying?
    case AddCredits(_) => s.reader.Reading?
    case NotifyFailure => s.failing > 0
    case TakeFirst => s.writer.Receiving? && (s.deferred.Some? || s.queue != [])
    case FillOne => s.writer.Filling? && s.queue != []
    case FillStop => s.writer.Filling?
    case CheckActive => s.writer.CheckingActive?
    case LoadCredits => s.writer.LoadingCredits?
    case SwapCredits => s.writer.SwappingCredits?
    case Subscribe => s.writer.Subscribing?
    case CheckAgain => s.writer.CheckingAgain?
    case Recheck => s.writer.Rechecking?
    case Wake => s.writer.Parked? && s.waiter.Notified?
    case SendFrame => s.writer.Sending? && s.writer.granted <= |s.batch|
    case SendFails => s.writer.Sending?
    case _ => true
  }

  /** The first submission of a batch: the one put off last time, or the next in the queue. */
  function TakeFirstStep(s: System): System
    requires Enabled(s, TakeFirst)
  {
    var first := if s.deferred.Some? then s.deferred.value else s.queue[0];
    var t := if s.deferred.Some? then s.(deferred := None) else s.(queue := s.queue[1..]);
    var d := Judge(s.pending, first);
    var u := t.(decisions := s.decisions + [d]);
    match d.verdict
    case Accepted => u.(batch := [first], writer := Filling)
    case Gone => u.(batch := [], writer := Filling)
    case TooLarge => u.(pending := s.pending - {first.id}, batch := [], writer := Receiving)
  }

  /** One more submission, as long as it fits; otherwise it is put off and the batch is closed. */
  function FillOneStep(s: System): System
    requires Enabled(s, FillOne)
  {
    var next := s.queue[0];
    var t := s.(queue := s.queue[1..]);
    var done := if s.batch == [] then Receiving else CheckingActive;
    if next.id !in s.pending then t.(decisions := s.decisions + [Judge(s.pending, next)])
    else if !Fits(s.batch, next) then t.(deferred := Some(next), writer := done)
    else
      var full := |s.batch| + 1 == MAX_BATCH_REQUESTS;
      t.(decisions := s.decisions + [Judge(s.pending, next)], batch := s.batch + [next], writer :=
          if full then CheckingActive else Filling)
  }

  function Next(s: System, e: Event): System
    requires Enabled(s, e)
  {
    match e
    case Register(id) => s.(pending := s.pending + {id})
    case Forget(id) => s.(pending := s.pending - {id})
    case Submit(submission) => s.(submitted := s.submitted + [submission], queue := s.queue + [submission])
    case AddCredits(count) => s.(credits := s.credits + count, received := s.received + count, reader := Notifying)
    case NotifyCredits => s.(reader := Reading, waiter := Woken(s.waiter))
    case Deactivate => s.(active := false, failing := s.failing + 1)
    case NotifyFailure => s.(failing := s.failing - 1, waiter := Woken(s.waiter))
    case TakeFirst => TakeFirstStep(s)
    case FillOne => FillOneStep(s)
    case FillStop => s.(writer := if s.batch == [] then Receiving else CheckingActive)
    case CheckActive => s.(writer := if s.active then LoadingCredits else Stopped)
    case LoadCredits => s.(writer := if s.credits == 0 then Subscribing else SwappingCredits(s.credits))
    case SwapCredits =>
      if s.credits == s.writer.available then
        s.(credits := s.credits - Granted(s), reserved := s.reserved + Granted(s), writer := Sending(Granted(s)))
      else s.(writer := Subscribing)
    case Subscribe => s.(waiter := Waiting, writer := CheckingAgain)
    case CheckAgain => s.(writer := if s.active then Rechecking else Stopped)
    case Recheck => if s.credits != 0 then s.(waiter := NoWaiter, writer := CheckingActive) else s.(writer := Parked)
    case Wake => s.(waiter := NoWaiter, writer := CheckingActive)
    case SendFrame =>
      var rest := s.batch[s.writer.granted..];
      s.(frames := s.frames + [s.batch[..s.writer.granted]], batch := rest, writer := if rest == [] then Receiving
          else CheckingActive)
    case SendFails => s.(lost := s.lost + s.writer.granted, writer := Stopped)
  }

  // ----- runs

  /** The system after these events, if each was possible when it happened. */
  ghost function After(events: seq<Event>): Option<System>
  {
    if events == [] then Some(START)
    else
      var s :- After(events[..|events| - 1]);
      if Enabled(s, events[|events| - 1]) then Some(Next(s, events[|events| - 1])) else None
  }

  // ----- credits

  /**
   * Every credit received is still available or was reserved, and what was reserved was sent, is being sent, or was
   * lost with the stream.
   */
  ghost predicate CreditsConserved(s: System)
  {
    && s.received == s.credits + s.reserved
    && s.reserved == |Flatten(s.frames)| + (if s.writer.Sending? then s.writer.granted else 0) + s.lost
    && (s.writer.Sending? ==> 1 <= s.writer.granted <= |s.batch|)
    && (s.writer.SwappingCredits? ==> s.writer.available > 0)
    && (s.writer in {CheckingActive, LoadingCredits, Subscribing, CheckingAgain, Rechecking, Parked} ==> s.batch != [])
    && (s.writer.SwappingCredits? || s.writer.Sending? ==> s.batch != [])
  }

  lemma FlattenNext(frames: seq<seq<Submission>>, frame: seq<Submission>)
    ensures Flatten(frames + [frame]) == Flatten(frames) + frame
  {
    assert (frames + [frame])[..|frames|] == frames;
  }

  lemma StepConserves(s: System, e: Event)
    requires Enabled(s, e) && CreditsConserved(s)
    ensures CreditsConserved(Next(s, e))
  {
    hide Sizes, Flatten, Fits, TakeFirstStep, FillOneStep;
    if e.SendFrame? {
      FlattenNext(s.frames, s.batch[..s.writer.granted]);
    } else if e.TakeFirst? || e.FillOne? {
      FillConserves(s, e);
    }
  }

  lemma FillConserves(s: System, e: Event)
    requires Enabled(s, e) && CreditsConserved(s) && (e.TakeFirst? || e.FillOne?)
    ensures CreditsConserved(Next(s, e))
  {
    hide Sizes, Flatten, Fits;
  }

  // ----- order

  /** The accepted submissions, in the order of the decisions. */
  function AcceptedOf(decisions: seq<Decision>): (s: seq<Submission>)
  {
    if decisions == [] then []
    else AcceptedOf(decisions[..|decisions| - 1]) + if decisions[|decisions| - 1].verdict.Accepted? then
        [decisions[|decisions| - 1].submission] else []
  }

  function Examined(decisions: seq<Decision>): (s: seq<Submission>)
    ensures |s| == |decisions| && forall i | 0 <= i < |s| :: s[i] == decisions[i].submission
  {
    seq(|decisions|, i requires 0 <= i < |decisions| => decisions[i].submission)
  }

  /** The submissions not yet examined. */
  function Waitlist(s: System): seq<Submission>
  {
    (if s.deferred.Some? then [s.deferred.value] else []) + s.queue
  }

  /** Submissions are examined in the order they came, each once. */
  ghost predicate ExaminedInOrder(s: System)
  {
    s.submitted == Examined(s.decisions) + Waitlist(s) && (s.deferred.Some? ==> !s.writer.Filling?)
  }

  /** What was accepted is in the frames and then in the batch, in that order. */
  ghost predicate AcceptedInOrder(s: System)
  {
    AcceptedOf(s.decisions) == Flatten(s.frames) + s.batch && (s.writer.Receiving? ==> s.batch == [])
  }

  /** A submission is accepted exactly if it was pending and is not too large. */
  predicate Fair(d: Decision)
  {
    d.verdict == if !d.pending then Gone else if d.submission.bytes > MAX_BATCH_BYTES then TooLarge else Accepted
  }

  ghost predicate DecidedFairly(s: System)
  {
    forall i | 0 <= i < |s.decisions| :: Fair(s.decisions[i])
  }

  lemma AcceptedNext(decisions: seq<Decision>, d: Decision)
    ensures AcceptedOf(decisions + [d]) == AcceptedOf(decisions) + if d.verdict.Accepted? then [d.submission] else []
    ensures Examined(decisions + [d]) == Examined(decisions) + [d.submission]
  {
    assert (decisions + [d])[..|decisions|] == decisions;
  }

  lemma Shift(a: seq<Submission>, x: Submission, b: seq<Submission>)
    ensures (a + [x]) + b == a + ([x] + b)
  {
  }

  lemma TakeFirstExamines(s: System)
    requires Enabled(s, TakeFirst) && ExaminedInOrder(s)
    ensures ExaminedInOrder(TakeFirstStep(s))
  {
    hide AcceptedOf, Examined;
    var t := TakeFirstStep(s);
    var first := if s.deferred.Some? then s.deferred.value else s.queue[0];
    assert Waitlist(s) == [first] + Waitlist(t);
    AcceptedNext(s.decisions, Judge(s.pending, first));
    Shift(Examined(s.decisions), first, Waitlist(t));
  }

  lemma FillOneExamines(s: System)
    requires Enabled(s, FillOne) && ExaminedInOrder(s)
    ensures ExaminedInOrder(FillOneStep(s))
  {
    hide AcceptedOf, Examined, Fits;
    var t := FillOneStep(s);
    var next := s.queue[0];
    assert Waitlist(s) == [next] + s.queue[1..];
    AcceptedNext(s.decisions, Judge(s.pending, next));
    Shift(Examined(s.decisions), next, s.queue[1..]);
    assert t.deferred.None? ==> Waitlist(t) == s.queue[1..];
  }

  lemma StepExamines(s: System, e: Event)
    requires Enabled(s, e) && ExaminedInOrder(s)
    ensures ExaminedInOrder(Next(s, e))
  {
    hide Examined, TakeFirstStep, FillOneStep;
    if e.TakeFirst? {
      TakeFirstExamines(s);
    } else if e.FillOne? {
      FillOneExamines(s);
    } else if e.Submit? {
      assert Waitlist(Next(s, e)) == Waitlist(s) + [e.submission];
      assert Examined(s.decisions) + (Waitlist(s) + [e.submission])
          == (Examined(s.decisions) + Waitlist(s)) + [e.submission];
    } else {
      assert Waitlist(Next(s, e)) == Waitlist(s);
    }
  }

  lemma TakeFirstAccepts(s: System)
    requires Enabled(s, TakeFirst) && AcceptedInOrder(s)
    ensures AcceptedInOrder(TakeFirstStep(s))
  {
    hide AcceptedOf, Examined, Flatten;
    var first := if s.deferred.Some? then s.deferred.value else s.queue[0];
    AcceptedNext(s.decisions, Judge(s.pending, first));
  }

  lemma FillOneAccepts(s: System)
    requires Enabled(s, FillOne) && AcceptedInOrder(s)
    ensures AcceptedInOrder(FillOneStep(s))
  {
    hide AcceptedOf, Examined, Flatten, Fits;
    AcceptedNext(s.decisions, Judge(s.pending, s.queue[0]));
    FitsAlone(s.batch, s.queue[0]);
    assert Flatten(s.frames) + (s.batch + [s.queue[0]]) == (Flatten(s.frames) + s.batch) + [s.queue[0]];
  }

  lemma StepAccepts(s: System, e: Event)
    requires Enabled(s, e) && AcceptedInOrder(s) && (e.SendFrame? ==> s.writer.granted <= |s.batch|)
    ensures AcceptedInOrder(Next(s, e))
  {
    hide AcceptedOf, Flatten, TakeFirstStep, FillOneStep;
    if e.TakeFirst? {
      TakeFirstAccepts(s);
    } else if e.FillOne? {
      FillOneAccepts(s);
    } else if e.SendFrame? {
      var sent, kept := s.batch[..s.writer.granted], s.batch[s.writer.granted..];
      FlattenNext(s.frames, sent);
      assert s.batch == sent + kept;
      assert Flatten(s.frames) + (sent + kept) == (Flatten(s.frames) + sent) + kept;
    }
  }

  lemma FitsAlone(batch: seq<Submission>, x: Submission)
    ensures Fits(batch, x) ==> x.bytes <= MAX_BATCH_BYTES
  {
  }

  lemma StepDecides(s: System, e: Event)
    requires Enabled(s, e) && DecidedFairly(s)
    ensures DecidedFairly(Next(s, e))
  {
    hide AcceptedOf, Examined, Flatten, Sizes;
  }

  // ----- frame sizes

  ghost predicate FrameSound(frame: seq<Submission>)
  {
    1 <= |frame| <= MAX_BATCH_REQUESTS && Sizes(frame) <= MAX_BATCH_BYTES
  }

  ghost predicate FramesSound(s: System)
  {
    && |s.batch| <= MAX_BATCH_REQUESTS && Sizes(s.batch) <= MAX_BATCH_BYTES
    && (s.writer.Filling? ==> |s.batch| < MAX_BATCH_REQUESTS)
    && (forall i | 0 <= i < |s.frames| :: FrameSound(s.frames[i]))
  }

  lemma {:induction false} SizesSplit(batch: seq<Submission>, n: nat)
    requires n <= |batch|
    ensures Sizes(batch) == Sizes(batch[..n]) + Sizes(batch[n..])
    decreases |batch|
  {
    if n == |batch| {
      assert batch[..n] == batch && batch[n..] == [];
    } else {
      var front := batch[..|batch| - 1];
      SizesSplit(front, n);
      assert front[..n] == batch[..n] && batch[n..][..|batch| - 1 - n] == front[n..];
    }
  }

  lemma SizesOne(batch: seq<Submission>, x: Submission)
    ensures Sizes(batch + [x]) == Sizes(batch) + x.bytes
  {
    assert (batch + [x])[..|batch|] == batch;
  }

  lemma StepFramesSound(s: System, e: Event)
    requires Enabled(s, e) && FramesSound(s) && CreditsConserved(s)
    ensures FramesSound(Next(s, e))
  {
    hide Sizes, Flatten;
    if e.SendFrame? {
      SizesSplit(s.batch, s.writer.granted);
    } else if e.FillOne? {
      SizesOne(s.batch, s.queue[0]);
    } else if e.TakeFirst? {
      var first := if s.deferred.Some? then s.deferred.value else s.queue[0];
      SizesOne([], first);
      assert [] + [first] == [first];
      NoSizes();
    }
  }

  lemma NoSizes()
    ensures Sizes([]) == 0
  {
  }

  // ----- no wakeup is lost

  /**
   * A parked writer that nobody has notified has no credits, unless the reader is about to notify; and is not closed,
   * unless a failure is about to notify.
   */
  ghost predicate NoLostWakeup(s: System)
  {
    && (s.writer.CheckingAgain? || s.writer.Rechecking? || s.writer.Parked? ==> !s.waiter.NoWaiter?)
    && (s.writer.Parked? && s.waiter.Waiting? && s.credits > 0 ==> s.reader.Notifying?)
    && ((s.writer.Rechecking? || s.writer.Parked?) && s.waiter.Waiting? && !s.active ==> s.failing > 0)
  }

  lemma StepKeepsWakeup(s: System, e: Event)
    requires Enabled(s, e) && NoLostWakeup(s)
    ensures NoLostWakeup(Next(s, e))
  {
  }

  // ----- every run

  ghost predicate Invariant(s: System)
  {
    CreditsConserved(s) && ExaminedInOrder(s) && AcceptedInOrder(s) && DecidedFairly(s) && FramesSound(s)
        && NoLostWakeup(s)
  }

  lemma EmptyIsSound(s: System)
    requires s.submitted == s.queue == s.batch == [] && s.deferred.None? && s.frames == [] && s.decisions == []
    requires s.credits == s.received == s.reserved == s.lost == 0 && s.active && s.writer.Receiving?
    ensures Invariant(s)
  {
  }

  lemma {:induction false} RunsKeepInvariant(events: seq<Event>)
    requires After(events).Some?
    ensures Invariant(After(events).value)
    decreases |events|
  {
    hide Invariant, Enabled, Next;
    if events == [] {
      EmptyIsSound(After(events).value);
    } else {
      RunsKeepInvariant(events[..|events| - 1]);
      RunStep(After(events[..|events| - 1]).value, events[|events| - 1]);
    }
  }

  lemma RunStep(s: System, e: Event)
    requires Enabled(s, e) && Invariant(s)
    ensures Invariant(Next(s, e))
  {
    hide CreditsConserved, ExaminedInOrder, AcceptedInOrder, DecidedFairly, FramesSound, NoLostWakeup, Next;
    StepConserves(s, e);
    StepFramesSound(s, e);
    StepKeepsWakeup(s, e);
    StepExamines(s, e);
    StepAccepts(s, e);
    StepDecides(s, e);
  }

  // ----- the main results

  /** Credits are conserved, and never more requests are sent than credits were reserved for. */
  lemma CreditsBalance(events: seq<Event>)
    requires After(events).Some?
    ensures var s := After(events).value;
      s.received == s.credits + s.reserved && |Flatten(s.frames)| <= s.reserved <= s.received
  {
    RunsKeepInvariant(events);
  }

  /**
   * The frames, end to end, are a prefix of the accepted submissions, in the order of submission; each frame keeps both
   * limits.
   */
  lemma FramesAreFifo(events: seq<Event>)
    requires After(events).Some?
    ensures var s := After(events).value;
      && Flatten(s.frames) <= AcceptedOf(s.decisions)
      && Examined(s.decisions) <= s.submitted
      && (forall i | 0 <= i < |s.decisions| :: Fair(s.decisions[i]))
      && (forall i | 0 <= i < |s.frames| :: FrameSound(s.frames[i]))
  {
    hide AcceptedOf, Flatten, Examined, FrameSound, Fair, CreditsConserved, NoLostWakeup;
    RunsKeepInvariant(events);
  }

  /**
   * A parked writer can go on; or else, if there are credits, the reader is about to notify it, and if the connection
   * has failed, the failing task is: each notification can happen now and lets the writer go on.
   */
  lemma ParkedWriterIsSafe(events: seq<Event>)
    requires After(events).Some? && After(events).value.writer.Parked?
    ensures var s := After(events).value;
      || Enabled(s, Wake)
      || (&& (s.credits > 0 ==> Enabled(s, NotifyCredits) && Enabled(Next(s, NotifyCredits), Wake))
          && (!s.active ==> Enabled(s, NotifyFailure) && Enabled(Next(s, NotifyFailure), Wake)))
  {
    hide CreditsConserved, ExaminedInOrder, AcceptedInOrder, DecidedFairly, FramesSound;
    RunsKeepInvariant(events);
  }

  // ----- closing

  lemma {:induction false} PrefixRuns(events: seq<Event>, k: nat)
    requires After(events).Some? && k <= |events|
    ensures After(events[..k]).Some?
    decreases |events| - k
  {
    hide Enabled, Next;
    if k < |events| {
      PrefixRuns(events, k + 1);
      assert events[..k + 1][..k] == events[..k];
    } else {
      assert events[..k] == events;
    }
  }

  ghost function At(events: seq<Event>, k: nat): System
    requires After(events).Some? && k <= |events|
  {
    PrefixRuns(events, k);
    After(events[..k]).value
  }

  lemma AtNext(events: seq<Event>, k: nat)
    requires After(events).Some? && k < |events|
    ensures Enabled(At(events, k), events[k]) && At(events, k + 1) == Next(At(events, k), events[k])
  {
    hide Enabled, Next;
    PrefixRuns(events, k + 1);
    assert events[..k + 1][..k] == events[..k];
  }

  /** The writer has yet to look at whether the pipeline is active before it can send. */
  predicate BeforeCheck(w: Writer)
  {
    w.Receiving? || w.Filling? || w.CheckingActive? || w.Stopped?
  }

  /** Once closed, the pipeline stays closed, and sends at most what the writer had already reserved credits for. */
  ghost predicate ClosedAfter(s: System, t: System)
  {
    && !t.active && s.frames <= t.frames && |t.frames| <= |s.frames| + 1
    && (|t.frames| == |s.frames| + 1 || BeforeCheck(s.writer) ==> BeforeCheck(t.writer))
    && (BeforeCheck(s.writer) ==> t.frames == s.frames)
    && (s.writer.Stopped? ==> t.writer.Stopped?)
  }

  lemma StepClosed(s: System, t: System, e: Event)
    requires Enabled(t, e) && ClosedAfter(s, t)
    ensures ClosedAfter(s, Next(t, e))
  {
    hide Sizes, Judge, Fits;
  }

  lemma {:induction false} StaysClosed(events: seq<Event>, i: nat, k: nat)
    requires After(events).Some? && i <= k <= |events| && !At(events, i).active
    ensures ClosedAfter(At(events, i), At(events, k))
    decreases k - i
  {
    hide After, Next, Enabled;
    if i < k {
      StaysClosed(events, i, k - 1);
      AtNext(events, k - 1);
      StepClosed(At(events, i), At(events, k - 1), events[k - 1]);
    }
  }

  /** After a failure has closed the pipeline, at most one more frame is sent: the one being reserved or sent then. */
  lemma OneFrameAfterClosing(events: seq<Event>, i: nat, k: nat)
    requires After(events).Some? && i < k <= |events| && events[i].Deactivate?
    ensures |At(events, k).frames| <= |At(events, i).frames| + 1
    ensures BeforeCheck(At(events, i).writer) ==> At(events, k).frames == At(events, i).frames
  {
    hide After, Enabled, Next;
    AtNext(events, i);
    FailureCloses(At(events, i));
    StaysClosed(events, i + 1, k);
  }

  lemma CheckStops(s: System, e: Event)
    requires Enabled(s, e) && !s.active && (e.CheckActive? || e.CheckAgain?)
    ensures Next(s, e).writer.Stopped? && !Next(s, e).active && Next(s, e).frames == s.frames
  {
  }

  lemma FailureCloses(s: System)
    ensures Enabled(s, Deactivate) && !Next(s, Deactivate).active && Next(s, Deactivate).frames == s.frames
    ensures Next(s, Deactivate).writer == s.writer
  {
  }

  /** A writer that checks after a failure has closed the pipeline stops, and sends no further frame. */
  lemma CheckedSendsNoMore(events: seq<Event>, i: nat, j: nat, k: nat)
    requires After(events).Some? && i < j < k <= |events| && events[i].Deactivate?
    requires events[j].CheckActive? || events[j].CheckAgain?
    ensures At(events, j + 1).writer.Stopped? && At(events, k).writer.Stopped?
    ensures At(events, k).frames == At(events, j).frames
  {
    hide After, Enabled, Next;
    AtNext(events, i);
    FailureCloses(At(events, i));
    StaysClosed(events, i + 1, j);
    AtNext(events, j);
    CheckStops(At(events, j), events[j]);
    StaysClosed(events, j + 1, k);
  }

  // ----- who is pending

  /** The event ends the request: it is forgotten, or refused as too large. */
  ghost predicate Ends(events: seq<Event>, m: nat, id: U128)
    requires After(events).Some? && m < |events|
  {
    || events[m] == Forget(id)
    || (events[m].TakeFirst? && var decisions := At(events, m + 1).decisions;
        decisions != [] && decisions[|decisions| - 1].verdict.TooLarge?
        && decisions[|decisions| - 1].submission.id == id)
  }

  /** The request was registered, and nothing has ended it since. */
  ghost predicate RegisteredSince(events: seq<Event>, i: nat, k: nat, id: U128)
    requires After(events).Some? && k <= |events|
  {
    i < k && events[i] == Register(id) && forall m: nat | i < m < k :: !Ends(events, m, id)
  }

  lemma StepPending(s: System, e: Event, id: U128)
    requires Enabled(s, e)
    ensures var t := Next(s, e);
      var refused := e.TakeFirst? && t.decisions != [] && t.decisions[|t.decisions| - 1].verdict.TooLarge?
        && t.decisions[|t.decisions| - 1].submission.id == id;
      id in t.pending <==> e == Register(id) || (id in s.pending && e != Forget(id) && !refused)
  {
    hide Sizes, Fits;
  }

  /** A request is pending exactly from its registration until it is forgotten or refused. */
  lemma {:induction false} PendingIsRegistered(events: seq<Event>, k: nat, id: U128)
    requires After(events).Some? && k <= |events|
    ensures id in At(events, k).pending <==> exists i: nat :: RegisteredSince(events, i, k, id)
    decreases k
  {
    hide After, Next, Enabled;
    if k == 0 {
      StartsEmpty(events);
    } else {
      var h := k - 1;
      PendingIsRegistered(events, h, id);
      AtNext(events, h);
      StepPending(At(events, h), events[h], id);
      if i: nat :| RegisteredSince(events, i, h, id) {
        assert RegisteredSince(events, i, k, id) <==> !Ends(events, h, id);
      }
      if i: nat :| RegisteredSince(events, i, k, id) {
        assert i == h || RegisteredSince(events, i, h, id);
      }
      assert events[h] == Register(id) ==> RegisteredSince(events, h, k, id);
    }
  }

  lemma StartsEmpty(events: seq<Event>)
    requires After(events).Some?
    ensures At(events, 0) == START
  {
    assert events[..0] == [];
  }

  // ----- sending

  /** With credits at hand and nobody interfering, the writer sends the front of its batch, one request per credit. */
  lemma CreditsAreUsed(events: seq<Event>)
    requires After(events).Some?
    requires var s := After(events).value; s.writer.CheckingActive? && s.active && s.credits > 0
    ensures var s := After(events).value;
      var n := if s.credits < |s.batch| then s.credits else |s.batch|;
      var run := After(events + [CheckActive, LoadCredits, SwapCredits, SendFrame]);
      && run.Some? && n > 0 && run.value.frames == s.frames + [s.batch[..n]] && run.value.batch == s.batch[n..]
      && run.value.credits == s.credits - n
  {
    hide Invariant;
    RunsKeepInvariant(events);
    BatchAtHand(After(events).value);
    var a := events + [CheckActive];
    var b := a + [LoadCredits];
    var c := b + [SwapCredits];
    var d := c + [SendFrame];
    assert d == events + [CheckActive, LoadCredits, SwapCredits, SendFrame];
    Extended(events, CheckActive);
    Extended(a, LoadCredits);
    Extended(b, SwapCredits);
    Extended(c, SendFrame);
  }

  lemma BatchAtHand(s: System)
    requires Invariant(s) && s.writer.CheckingActive?
    ensures s.batch != []
  {
    hide ExaminedInOrder, AcceptedInOrder, DecidedFairly, FramesSound, NoLostWakeup;
  }

  lemma Extended(events: seq<Event>, e: Event)
    requires After(events).Some? && Enabled(After(events).value, e)
    ensures After(events + [e]) == Some(Next(After(events).value, e))
  {
    hide Enabled, Next;
    assert (events + [e])[..|events|] == events;
  }
}

/** What the persisted steps of a saga say, row by row (src/domain/entities/saga.ts:95-132). */
module SagaLog {
  import opened Runs
  import Order
  import opened Saga
  import opened SagaTheorems

  // ----------------------------------------------------- status and output

  /** A step is FAILED only by an answer of the service it asked, its output is what it
      did, and nothing is written before it is COMPLETED. */
  ghost predicate OutputsMatch(s: State) {
    && (forall i :: 0 <= i < |s.steps| && s.steps[i].status != StepCompleted ==> s.steps[i].output == Nothing)
    && (Done(s, 0) ==> s.steps[0].output == ReservedAll)
    && (Done(s, 2) ==> s.steps[2].output == MarkedPaid)
    && (Done(s, 3) ==> s.steps[3].output == EventWritten)
    && (|s.steps| > 0 && s.steps[0].status == StepFailed ==>
         |s.steps| == 1 && s.reservation.Some? && !s.reservation.value.ok)
    && (|s.steps| > 1 && s.steps[1].status == StepFailed ==> |s.steps| == 2 && s.charge == Some(Declined))
    && (forall i :: 2 <= i < |s.steps| ==> s.steps[i].status != StepFailed)
  }

  lemma SagaWriteKeepsOutputs(s: State)
    requires CrashConsistent(s) && AtForward(s) && OutputsMatch(s) && NextSagaWrite(s).Some?
    ensures OutputsMatch(NextSagaWrite(s).value)
  {
  }

  lemma ForwardKeepsOutputs(s: State)
    requires CrashConsistent(s) && AtForward(s) && OutputsMatch(s) && NextForward(s).Some?
    ensures OutputsMatch(NextForward(s).value)
  {
    match s.pc
    case BeginReserve =>
    case EndReserve(ok) =>
    case BeginPayment =>
    case EndPayment(answer) =>
    case BeginConfirm =>
    case BeginEmit =>
    case Committing =>
    case EndConfirm =>
    case EndEmit =>
  }

  lemma UndoKeepsOutputs(s: State)
    requires CrashConsistent(s) && AtForward(s) && OutputsMatch(s) && NextUndo(s).Some?
    ensures OutputsMatch(NextUndo(s).value)
  {
    if s.pc.MarkRefund? { FindByName(s.steps, ProcessPayment, false, 1); }
    if s.pc.MarkRelease? { FindByName(s.steps, ReserveInventory, false, 0); }
  }

  lemma WriteKeepsOutputs(s: State)
    requires CrashConsistent(s) && AtForward(s) && OutputsMatch(s) && NextWrite(s).Some?
    ensures OutputsMatch(NextWrite(s).value)
  {
    if NextWrite(s) == NextSagaWrite(s) { SagaWriteKeepsOutputs(s); }
    else if NextWrite(s) == NextUndo(s) { UndoKeepsOutputs(s); }
    else { ForwardKeepsOutputs(s); }
  }

  lemma StepKeepsOutputs(s: State, a: Action)
    requires CrashConsistent(s) && AtForward(s) && OutputsMatch(s) && Next(s, a).Some?
    ensures OutputsMatch(Next(s, a).value)
  {
    if a == Write { WriteKeepsOutputs(s); }
  }

  // ---------------------------------------------------- compensation status

  function MarkOf(ok: bool): Compensation {
    if ok then CompCompleted else CompFailed
  }

  function RefundMark(answer: Option<bool>): Compensation {
    match answer
    case None => CompPending
    case Some(ok) => MarkOf(ok)
  }

  /** The compensation column of step 0 follows the release, that of step 1 the
      refund, each once its write has been made. */
  ghost predicate MarksMatch(s: State) {
    && (s.refundAnswer.Some? <==> s.refunds != [])
    && (s.saga != Some(Compensating) && s.saga != Some(Failed) ==>
         s.refundAnswer == None && forall i :: 0 <= i < |s.steps| ==> s.steps[i].compensation == CompPending)
    && (forall i :: 2 <= i < |s.steps| ==> s.steps[i].compensation == CompPending)
    && (s.pc.ReadSteps? || s.pc.Refunding? ==> s.refundAnswer == None)
    && (s.pc.MarkRefund? ==> s.refundAnswer == Some(s.pc.refunded))
    && (s.pc.MarkRelease? ==> s.release.Some? && s.release.value.ok == s.pc.released)
    && (|s.steps| > 0 ==> ReleaseMarked(s, s.steps[0].compensation))
    && (|s.steps| > 1 ==> RefundMarked(s, s.steps[1].compensation))
  }

  ghost predicate ReleaseMarked(s: State, mark: Compensation) {
    && (s.pc.Cancelling? || s.pc.Failing? || s.saga == Some(Failed) ==>
         s.release.Some? && mark == MarkOf(s.release.value.ok))
    && (s.pc.ReadSteps? || s.pc.Refunding? || s.pc.MarkRefund? || s.pc.Releasing? || s.pc.MarkRelease? ==>
         mark == CompPending)
    && (mark != CompPending ==> s.release.Some? && mark == MarkOf(s.release.value.ok))
  }

  ghost predicate RefundMarked(s: State, mark: Compensation) {
    && (s.pc.Releasing? || s.pc.MarkRelease? || s.pc.Cancelling? || s.pc.Failing? || s.saga == Some(Failed) ==>
         mark == RefundMark(s.refundAnswer))
    && (s.pc.ReadSteps? || s.pc.Refunding? || s.pc.MarkRefund? ==> mark == CompPending)
    && (mark != CompPending ==> mark == RefundMark(s.refundAnswer))
  }

  lemma SagaWriteKeepsMarks(s: State)
    requires CrashConsistent(s) && StatusMatchesPc(s) && MarksMatch(s) && NextSagaWrite(s).Some?
    ensures MarksMatch(NextSagaWrite(s).value)
  {
  }

  /** Nothing is marked before a compensation. */
  ghost predicate Unmarked(s: State) {
    && s.saga != Some(Compensating) && s.saga != Some(Failed)
    && s.refundAnswer == None && s.refunds == []
    && forall i :: 0 <= i < |s.steps| ==> s.steps[i].compensation == CompPending
  }

  lemma ForwardStaysUnmarked(s: State)
    requires Unmarked(s) && NextForward(s).Some?
    ensures Unmarked(NextForward(s).value) && !InCompensation(NextForward(s).value.pc)
  {
  }

  lemma UnmarkedMatches(s: State)
    requires Unmarked(s) && !InCompensation(s.pc)
    ensures MarksMatch(s)
  {
  }

  lemma ForwardKeepsMarks(s: State)
    requires StatusMatchesPc(s) && MarksMatch(s) && NextForward(s).Some?
    ensures MarksMatch(NextForward(s).value)
  {
    ForwardStaysUnmarked(s);
    UnmarkedMatches(NextForward(s).value);
  }

  lemma UndoKeepsMarks(s: State)
    requires CrashConsistent(s) && StatusMatchesPc(s) && MarksMatch(s) && NextUndo(s).Some?
    requires s.pc.MarkRefund? ==> s.refundAnswer.Some? && |s.steps| > 1
    ensures MarksMatch(NextUndo(s).value)
  {
    if s.pc.MarkRefund? { FindByName(s.steps, ProcessPayment, false, 1); }
    if s.pc.MarkRelease? { FindByName(s.steps, ReserveInventory, false, 0); }
  }

  lemma WriteKeepsMarks(s: State)
    requires CrashConsistent(s) && StatusMatchesPc(s) && MarksMatch(s) && NextWrite(s).Some?
    requires s.pc.MarkRefund? ==> s.refundAnswer.Some? && |s.steps| > 1
    ensures MarksMatch(NextWrite(s).value)
  {
    if NextWrite(s) == NextSagaWrite(s) { SagaWriteKeepsMarks(s); }
    else if NextWrite(s) == NextUndo(s) { UndoKeepsMarks(s); }
    else { ForwardKeepsMarks(s); }
  }

  lemma StepKeepsMarks(s: State, a: Action)
    requires CrashConsistent(s) && StatusMatchesPc(s) && MarksMatch(s) && Next(s, a).Some?
    requires s.pc.MarkRefund? ==> s.refundAnswer.Some? && |s.steps| > 1
    ensures MarksMatch(Next(s, a).value)
  {
    match a
    case Write => WriteKeepsMarks(s);
    case Reserve(call, threw) =>
    case ChargeCard(answer) =>
    case RefundCard(ok) =>
    case ReleaseStock(call, threw) =>
    case CancelFails =>
    case Stop =>
    case AdminCompensate =>
  }

  // ---------------------------------------------------------------- theorems

  ghost predicate LogInv(s: State) {
    Inv(s) && OutputsMatch(s) && MarksMatch(s)
  }

  /** A refund is asked for only under a payment step. */
  lemma MarkingHasStep(s: State)
    requires Inv(s) && s.pc.MarkRefund? && MarksMatch(s)
    ensures |s.steps| > 1 && s.refundAnswer.Some?
  {
    RefundableIs(s);
  }

  lemma StepKeepsLog(s: State, a: Action)
    requires LogInv(s) && Next(s, a).Some?
    ensures LogInv(Next(s, a).value)
  {
    StepKeeps(s, a);
    InvHasStatus(s);
    if s.pc.MarkRefund? { MarkingHasStep(s); }
    StepKeepsOutputs(s, a);
    StepKeepsMarks(s, a);
  }

  lemma ReachedLog(size: nat, acts: seq<Action>, s: State)
    requires Exec(Next, Initial(size), acts) == Some(s)
    ensures LogInv(s)
  {
    InitialInv(size);
    forall t, a | LogInv(t) && Anything(a) && Next(t, a).Some? ensures LogInv(Next(t, a).value) {
      StepKeepsLog(t, a);
    }
    Invariant(Next, Initial(size), acts, Anything, LogInv);
  }

  /** Over every run, the log of a FAILED saga says what became of its undoing: step 0
      whether the release returned true, step 1 whether the refund was accepted,
      refused or never asked for. */
  lemma UndoingIsRecorded(size: nat, acts: seq<Action>, s: State)
    requires Exec(Next, Initial(size), acts) == Some(s) && s.saga == Some(Failed)
    ensures s.release.Some? && (s.refundAnswer == None <==> s.refunds == [])
    ensures |s.steps| > 0 ==>
      s.steps[0].compensation == if s.release.value.ok then CompCompleted else CompFailed
    ensures |s.steps| > 1 ==>
      && (s.refundAnswer == None ==> s.steps[1].compensation == CompPending)
      && (s.refundAnswer == Some(true) ==> s.steps[1].compensation == CompCompleted)
      && (s.refundAnswer == Some(false) ==> s.steps[1].compensation == CompFailed)
    ensures forall i :: 2 <= i < |s.steps| ==> s.steps[i].compensation == CompPending
  {
    ReachedLog(size, acts, s);
    ReleaseAttempted(size, acts, s);
  }

  /** Over every run, no step of a saga that is not being compensated is marked, and
      those of a COMPLETED saga are, in full, these four. */
  lemma CompletedLog(size: nat, acts: seq<Action>, s: State)
    requires Exec(Next, Initial(size), acts) == Some(s)
    ensures s.saga != Some(Compensating) && s.saga != Some(Failed) ==>
      forall i :: 0 <= i < |s.steps| ==> s.steps[i].compensation == CompPending
    ensures s.saga == Some(Completed) ==> s.charge.Some? && s.charge.value.Accepted? && s.steps == [
      Step(ReserveInventory, 0, StepCompleted, ReservedAll, CompPending),
      Step(ProcessPayment, 1, StepCompleted, Charged(s.charge.value.transactionId), CompPending),
      Step(ConfirmOrder, 2, StepCompleted, MarkedPaid, CompPending),
      Step(EmitEvents, 3, StepCompleted, EventWritten, CompPending)]
  {
    ReachedLog(size, acts, s);
  }

  /** A step is FAILED only by the answer of its service, and then it is the last. */
  lemma FailedStepIsLast(size: nat, acts: seq<Action>, s: State, i: nat)
    requires Exec(Next, Initial(size), acts) == Some(s) && i < |s.steps| && s.steps[i].status == StepFailed
    ensures i == |s.steps| - 1 && s.steps[i].output == Nothing
    ensures (i == 0 && s.reservation.Some? && !s.reservation.value.ok) || (i == 1 && s.charge == Some(Declined))
  {
    ReachedLog(size, acts, s);
  }

  /** Nobody stops the program, and the reservation does not throw. */
  predicate Uninterrupted(a: Action) {
    a != Stop && !(a.Reserve? && a.threw)
  }

  ghost predicate Settled(s: State) {
    s.pc.EnterCompensation? || InCompensation(s.pc) || s.pc.Stopped? ==>
      forall i :: 0 <= i < |s.steps| ==> s.steps[i].status != StepRunning
  }

  lemma ForwardKeepsSettled(s: State)
    requires CrashConsistent(s) && AtForward(s) && NextForward(s).Some?
    ensures Settled(NextForward(s).value)
  {
  }

  lemma UndoKeepsSettled(s: State)
    requires Settled(s) && NextUndo(s).Some?
    ensures Settled(NextUndo(s).value)
  {
  }

  lemma SagaWriteKeepsSettled(s: State)
    requires CrashConsistent(s) && AtForward(s) && Settled(s) && NextSagaWrite(s).Some?
    ensures Settled(NextSagaWrite(s).value)
  {
  }

  lemma StepKeepsSettled(s: State, a: Action)
    requires Inv(s) && Settled(s) && Uninterrupted(a) && Next(s, a).Some?
    ensures Settled(Next(s, a).value)
  {
    if a == Write {
      if NextWrite(s) == NextSagaWrite(s) { SagaWriteKeepsSettled(s); }
      else if NextWrite(s) == NextUndo(s) { UndoKeepsSettled(s); }
      else { ForwardKeepsSettled(s); }
    }
  }

  ghost predicate SettledInv(s: State) {
    Inv(s) && Settled(s)
  }

  /** In a run that nobody stops, every step of a saga that has ended is COMPLETED or FAILED. */
  lemma EndedStepsAreSettled(size: nat, acts: seq<Action>, s: State, i: nat)
    requires Exec(Next, Initial(size), acts) == Some(s)
    requires forall k :: 0 <= k < |acts| ==> Uninterrupted(acts[k])
    requires (s.saga == Some(Completed) || s.saga == Some(Failed)) && i < |s.steps|
    ensures s.pc == Stopped && s.steps[i].status in {StepCompleted, StepFailed}
  {
    InitialInv(size);
    forall t, a | SettledInv(t) && Uninterrupted(a) && Next(t, a).Some? ensures SettledInv(Next(t, a).value) {
      StepKeeps(t, a);
      StepKeepsSettled(t, a);
    }
    Invariant(Next, Initial(size), acts, Uninterrupted, SettledInv);
    InvHasStatus(s);
  }

  /** The saga status moves along PENDING, RUNNING, then COMPLETED or COMPENSATING, then
      FAILED, and no other way. */
  lemma SagaStatusIsLawful(size: nat, acts: seq<Action>, s: State, a: Action)
    requires Exec(Next, Initial(size), acts) == Some(s) && Next(s, a).Some?
    ensures var from, to := s.saga, Next(s, a).value.saga;
      from == to || (from, to) in {
        (None, Some(Pending)), (Some(Pending), Some(Running)), (Some(Running), Some(Completed)),
        (Some(Running), Some(Compensating)), (Some(Compensating), Some(Failed))}
  {
    Reached(size, acts, s);
  }

  /** The entities' guards: each transition is thrown out of any other status. */
  lemma GuardsAreExact(s: SagaStatus)
    ensures StartSaga(s) == (if s == Pending then Some(Running) else None)
    ensures CompleteSaga(s) == (if s == Running then Some(Completed) else None)
    ensures StartCompensation(s) == (if s == Running then Some(Compensating) else None)
    ensures CompleteCompensation(s) == (if s == Compensating then Some(Failed) else None)
  {
  }
}

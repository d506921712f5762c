/** What holds at every point where a saga can stop, over every run of one saga
    with crashes and compensations. */
module SagaTheorems {
  import opened Runs
  import Order
  import opened Saga

  function NameAt(i: nat): StepName {
    if i == 0 then ReserveInventory else if i == 1 then ProcessPayment
    else if i == 2 then ConfirmOrder else EmitEvents
  }

  predicate Done(s: State, i: nat) {
    i < |s.steps| && s.steps[i].status == StepCompleted
  }

  /** The outbox holds the event (it holds no other lists, by StatusMatchesOutbox). */
  predicate Announced(s: State, e: EventType) {
    s.outbox == [e] || s.outbox == [OrderPaid, OrderFailed]
  }

  /** The step log is a prefix of the four steps, numbered from zero; a later step
      exists only when reservation and payment before it are completed; a completed
      step's effect has happened; and effects run ahead of the log by at most the
      one in flight. */
  ghost predicate CrashConsistent(s: State) {
    && |s.steps| <= 4
    && (forall i :: 0 <= i < |s.steps| ==> s.steps[i].name == NameAt(i) && s.steps[i].stepOrder == i)
    && (|s.steps| > 1 ==> Done(s, 0))
    && (|s.steps| > 2 ==> Done(s, 1))
      // a completed step's effect has happened
    && (Done(s, 0) ==> s.reservation.Some? && s.reservation.value.ok)
    && (Done(s, 1) ==> s.charge.Some? && s.charge.value.Accepted?
                       && s.steps[1].output == Charged(s.charge.value.transactionId))
    && (s.charge.Some? && |s.steps| > 1 ==>
         s.steps[1].status != if s.charge.value.Accepted? then StepFailed else StepCompleted)
    && (Done(s, 2) || Done(s, 3) ==> Announced(s, OrderPaid))
      // an effect's step, and every step before it, is in the log
    && (s.reservation.Some? ==> |s.steps| >= 1)
    && (s.charge.Some? ==> |s.steps| >= 2)
    && (Announced(s, OrderPaid) ==> |s.steps| == 4)
    && (s.saga.None? || s.saga == Some(Pending) ==> s.steps == [])
  }

  /** The order status and the outbox tell the same story. */
  ghost predicate StatusMatchesOutbox(s: State) {
    && (s.outbox == [] || s.outbox == [OrderPaid] || s.outbox == [OrderFailed] || s.outbox == [OrderPaid, OrderFailed])
    && s.order == (if s.outbox == [] then Order.Pending
                   else if s.outbox == [OrderPaid] then Order.Paid else Order.Cancelled)
  }

  function Due(s: State): seq<string> {
    var tx := RefundableId(s.steps);
    if tx.Some? then [tx.value] else []
  }

  /** Refunds and releases against the saga status. */
  ghost predicate CompensationMatchesStatus(s: State) {
    && (s.refunds == [] || s.refunds == Due(s))
    && (s.saga != Some(Compensating) && s.saga != Some(Failed) ==>
         s.refunds == [] && s.release == None && !Announced(s, OrderFailed))
    && (s.saga == Some(Failed) ==> s.refunds == Due(s))
    && (s.saga == Some(Completed) ==> Done(s, 0) && Done(s, 1) && Done(s, 2) && Done(s, 3) && s.outbox == [OrderPaid])
  }

  /** What the place in the forward part of the program adds. */
  ghost predicate AtForward(s: State) {
    match s.pc
    case Creating => s == Initial(s.size)
    case Starting => s == Initial(s.size).(saga := Some(Pending), pc := Starting)
    case BeginReserve => s.saga == Some(Running) && s.steps == [] && s.reservation == None
    case Reserving => s.saga == Some(Running) && |s.steps| == 1 && s.reservation == None
    case EndReserve(ok) => s.saga == Some(Running) && |s.steps| == 1 && !Done(s, 0)
                           && s.reservation.Some? && s.reservation.value.ok == ok
    case BeginPayment => s.saga == Some(Running) && |s.steps| == 1 && Done(s, 0)
    case Charging => s.saga == Some(Running) && |s.steps| == 2 && s.steps[1].status == StepRunning && s.charge == None
    case EndPayment(answer) => s.saga == Some(Running) && |s.steps| == 2 && s.steps[1].status == StepRunning
                             && s.charge == Some(answer)
    case BeginConfirm => s.saga == Some(Running) && |s.steps| == 2 && Done(s, 1)
    case BeginEmit => s.saga == Some(Running) && |s.steps| == 3
    case Committing => s.saga == Some(Running) && |s.steps| == 4 && s.outbox == []
    case EndConfirm => s.saga == Some(Running) && |s.steps| == 4 && s.outbox == [OrderPaid]
    case EndEmit => s.saga == Some(Running) && |s.steps| == 4 && s.outbox == [OrderPaid] && Done(s, 2)
    case Completing => s.saga == Some(Running) && |s.steps| == 4 && s.outbox == [OrderPaid] && Done(s, 2) && Done(s, 3)
    case EnterCompensation => s.saga == Some(Running)
    case _ => true
  }

  /** What the place in the compensating part adds. */
  ghost predicate AtCompensation(s: State) {
    match s.pc
    case ReadSteps => s.saga == Some(Compensating) && s.refunds == [] && !Announced(s, OrderFailed)
    case Refunding(tx) => s.saga == Some(Compensating) && s.refunds == [] && Due(s) == [tx] && !Announced(s, OrderFailed)
    case MarkRefund(_) => s.saga == Some(Compensating) && s.refunds == Due(s) && !Announced(s, OrderFailed)
    case Releasing => s.saga == Some(Compensating) && s.refunds == Due(s) && !Announced(s, OrderFailed)
    case MarkRelease(_) => s.saga == Some(Compensating) && s.refunds == Due(s) && !Announced(s, OrderFailed)
    case Cancelling => s.saga == Some(Compensating) && s.refunds == Due(s) && !Announced(s, OrderFailed)
    case Failing => s.saga == Some(Compensating) && s.refunds == Due(s)
    case _ => true
  }

  ghost predicate Inv(s: State) {
    && CrashConsistent(s)
    && StatusMatchesOutbox(s)
    && CompensationMatchesStatus(s)
    && AtForward(s)
    && AtCompensation(s)
  }

  lemma {:induction false} FindByName(steps: seq<Step>, name: StepName, completed: bool, i: nat)
    requires |steps| <= 4 && forall k :: 0 <= k < |steps| ==> steps[k].name == NameAt(k)
    requires i < 4 && name == NameAt(i)
    ensures Find(steps, name, completed) ==
      if i < |steps| && (completed ==> steps[i].status == StepCompleted) then Some(i) else None
  {
    if steps != [] {
      FindByName(steps[..|steps| - 1], name, completed, i);
    }
  }

  /** In a consistent log, the refundable id is that of a completed payment step. */
  lemma RefundableIs(s: State)
    requires CrashConsistent(s)
    ensures RefundableId(s.steps) ==
      if Done(s, 1) && s.charge.value.transactionId.Some? && s.charge.value.transactionId.value != ""
      then s.charge.value.transactionId else None
  {
    FindByName(s.steps, ProcessPayment, true, 1);
  }

  lemma ReservingKeeps(s: State)
    requires Inv(s) && NextWrite(s).Some?
    requires s.pc.Creating? || s.pc.Starting? || s.pc.BeginReserve? || s.pc.EndReserve?
    ensures Inv(NextWrite(s).value)
  {
    RefundableIs(s);
    RefundableIs(NextWrite(s).value);
  }

  lemma PayingKeeps(s: State)
    requires Inv(s) && NextWrite(s).Some?
    requires s.pc.BeginPayment? || s.pc.EndPayment?
    ensures Inv(NextWrite(s).value)
  {
    RefundableIs(s);
    RefundableIs(NextWrite(s).value);
  }

  lemma ConfirmingKeeps(s: State)
    requires Inv(s) && NextWrite(s).Some?
    requires s.pc.BeginConfirm? || s.pc.BeginEmit? || s.pc.Committing?
    ensures Inv(NextWrite(s).value)
  {
    RefundableIs(s);
    RefundableIs(NextWrite(s).value);
  }

  lemma EndingKeeps(s: State)
    requires Inv(s) && NextWrite(s).Some?
    requires s.pc.EndConfirm? || s.pc.EndEmit? || s.pc.Completing?
    ensures Inv(NextWrite(s).value)
  {
    RefundableIs(s);
    RefundableIs(NextWrite(s).value);
  }

  lemma EnteringKeeps(s: State)
    requires Inv(s) && s.pc.EnterCompensation?
    ensures Inv(NextWrite(s).value)
  {
  }

  lemma ReadingKeeps(s: State)
    requires Inv(s) && s.pc.ReadSteps?
    ensures Inv(NextWrite(s).value)
  {
  }

  /** The log is the same but for the compensation column. */
  ghost predicate SameButMarks(before: seq<Step>, after: seq<Step>) {
    && |after| == |before|
    && forall i :: 0 <= i < |before| ==> after[i] == before[i].(compensation := after[i].compensation)
  }

  lemma MarksKeepLog(s: State, t: State)
    requires CrashConsistent(s) && StatusMatchesOutbox(s)
    requires t == s.(steps := t.steps, pc := t.pc) && SameButMarks(s.steps, t.steps)
    ensures CrashConsistent(t) && StatusMatchesOutbox(t) && Due(t) == Due(s)
  {
    assert CrashConsistent(t);
    RefundableIs(s);
    RefundableIs(t);
  }

  lemma MarksKeep(s: State, t: State)
    requires Inv(s) && s.saga == Some(Compensating) && s.refunds == Due(s) && !Announced(s, OrderFailed)
    requires t == s.(steps := t.steps, pc := t.pc) && SameButMarks(s.steps, t.steps)
    requires t.pc == Releasing || t.pc == Cancelling
    ensures Inv(t)
  {
    MarksKeepLog(s, t);
  }

  lemma MarkingRefundKeeps(s: State)
    requires Inv(s) && NextWrite(s).Some?
    requires s.pc.MarkRefund?
    ensures Inv(NextWrite(s).value)
  {
    FindByName(s.steps, ProcessPayment, false, 1);
    MarksKeep(s, NextWrite(s).value);
  }

  lemma MarkingReleaseKeeps(s: State)
    requires Inv(s) && NextWrite(s).Some?
    requires s.pc.MarkRelease?
    ensures Inv(NextWrite(s).value)
  {
    FindByName(s.steps, ReserveInventory, false, 0);
    MarksKeep(s, NextWrite(s).value);
  }

  /** The cancelling event goes onto an empty outbox or behind order.paid. */
  lemma CancelledOutbox(s: State)
    requires StatusMatchesOutbox(s) && !Announced(s, OrderFailed)
    ensures s.outbox + [OrderFailed] == if s.outbox == [] then [OrderFailed] else [OrderPaid, OrderFailed]
    ensures Announced(s, OrderPaid) <==> s.outbox != []
  {
  }

  lemma CancellingKeeps(s: State)
    requires Inv(s) && s.pc.Cancelling?
    ensures Inv(NextWrite(s).value)
  {
    CancelledOutbox(s);
    var t := NextWrite(s).value;
    assert t == s.(order := Order.Cancelled, outbox := t.outbox, pc := Failing);
    assert CrashConsistent(t) && StatusMatchesOutbox(t);
  }

  lemma FailingKeeps(s: State)
    requires Inv(s) && NextWrite(s).Some? && s.pc.Failing?
    ensures Inv(NextWrite(s).value)
  {
    RefundableIs(s);
  }

  lemma PaymentEffectKeeps(s: State, a: Action)
    requires Inv(s) && Next(s, a).Some? && (a.ChargeCard? || a.RefundCard?)
    ensures Inv(Next(s, a).value)
  {
    RefundableIs(s);
  }

  lemma StockEffectKeeps(s: State, a: Action)
    requires Inv(s) && Next(s, a).Some? && (a.Reserve? || a.ReleaseStock?)
    ensures Inv(Next(s, a).value)
  {
    RefundableIs(s);
  }

  lemma StoppingKeeps(s: State)
    requires Inv(s)
    ensures Inv(s.(pc := Stopped))
  {
  }

  lemma RestartKeeps(s: State, pc: Pc)
    requires Inv(s) && pc in {Failing, EnterCompensation}
    requires if pc == Failing then s.pc == Cancelling else s.saga == Some(Running)
    ensures Inv(s.(pc := pc))
  {
  }

  lemma WriteKeeps(s: State)
    requires Inv(s) && NextWrite(s).Some?
    ensures Inv(NextWrite(s).value)
  {
    match s.pc
    case Creating => ReservingKeeps(s);
    case Starting => ReservingKeeps(s);
    case BeginReserve => ReservingKeeps(s);
    case EndReserve(_) => ReservingKeeps(s);
    case BeginPayment => PayingKeeps(s);
    case EndPayment(_) => PayingKeeps(s);
    case BeginConfirm => ConfirmingKeeps(s);
    case BeginEmit => ConfirmingKeeps(s);
    case Committing => ConfirmingKeeps(s);
    case EndConfirm => EndingKeeps(s);
    case EndEmit => EndingKeeps(s);
    case Completing => EndingKeeps(s);
    case EnterCompensation => EnteringKeeps(s);
    case ReadSteps => ReadingKeeps(s);
    case MarkRefund(_) => MarkingRefundKeeps(s);
    case MarkRelease(_) => MarkingReleaseKeeps(s);
    case Cancelling => CancellingKeeps(s);
    case Failing => FailingKeeps(s);
  }

  lemma StepKeeps(s: State, a: Action)
    requires Inv(s) && Next(s, a).Some?
    ensures Inv(Next(s, a).value)
  {
    match a
    case Write => WriteKeeps(s);
    case ChargeCard(_) => PaymentEffectKeeps(s, a);
    case RefundCard(_) => PaymentEffectKeeps(s, a);
    case Reserve(_, _) => StockEffectKeeps(s, a);
    case ReleaseStock(_, _) => StockEffectKeeps(s, a);
    case CancelFails => RestartKeeps(s, Failing);
    case Stop => StoppingKeeps(s);
    case AdminCompensate => RestartKeeps(s, EnterCompensation);
  }

  // ---------------------------------------------------------------- theorems

  ghost predicate InvFor(size: nat, s: State) {
    Inv(s) && s.size == size
  }

  lemma SizeStays(s: State, a: Action)
    requires Next(s, a).Some?
    ensures Next(s, a).value.size == s.size
  {
  }

  lemma Reached(size: nat, acts: seq<Action>, s: State)
    requires Exec(Next, Initial(size), acts) == Some(s)
    ensures Inv(s) && s.size == size
  {
    InitialInv(size);
    forall t, a | InvFor(size, t) && Anything(a) && Next(t, a).Some? ensures InvFor(size, Next(t, a).value) {
      StepKeeps(t, a);
      SizeStays(t, a);
    }
    Invariant(Next, Initial(size), acts, Anything, t => InvFor(size, t));
  }

  lemma InitialInv(size: nat)
    ensures InvFor(size, Initial(size))
  {
  }

  /** Crash consistency: at every point where the orchestrator can stop, crash
      or not, the log is a numbered prefix, completed steps have had their effect,
      effects are at most one step ahead, and order and outbox agree. */
  lemma EveryStopIsConsistent(size: nat, acts: seq<Action>, s: State)
    requires Exec(Next, Initial(size), acts) == Some(s)
    ensures CrashConsistent(s) && StatusMatchesOutbox(s)
  {
    Reached(size, acts, s);
  }

  /** Over any number of crashes and compensations a refund is requested at most
      once, and a compensation that got to its end requested one exactly when
      the persisted payment step is completed with a non-empty transaction id. */
  lemma RefundedExactly(size: nat, acts: seq<Action>, s: State)
    requires Exec(Next, Initial(size), acts) == Some(s)
    ensures |s.refunds| <= 1
    ensures s.refunds != [] ==> s.saga == Some(Compensating) || s.saga == Some(Failed)
    ensures s.saga == Some(Failed) ==>
      forall tx :: s.refunds == [tx] <==>
        |s.steps| > 1 && s.steps[1].name == ProcessPayment && s.steps[1].status == StepCompleted
        && s.steps[1].output == Charged(Some(tx)) && tx != ""
  {
    Reached(size, acts, s);
    RefundableIs(s);
  }

  /** The card is charged at most once per saga instance. */
  lemma ChargedAtMostOnce(size: nat, acts: seq<Action>, s: State, answer: Charge)
    requires Exec(Next, Initial(size), acts) == Some(s)
    requires Next(s, ChargeCard(answer)).Some?
    ensures s.charge == None
    ensures Done(s, 0) && |s.steps| == 2 && s.steps[1].status != StepCompleted
  {
    Reached(size, acts, s);
  }

  /** The promise that a charge is always refunded on failure, and when it holds:
      a failed saga kept the customer's money exactly when the orchestrator stopped
      between the charge and the write that completes the payment step, or the
      gateway had accepted the charge without a transaction id. */
  lemma ChargeKeptIff(size: nat, acts: seq<Action>, s: State, id: Option<string>)
    requires Exec(Next, Initial(size), acts) == Some(s)
    requires s.saga == Some(Failed) && s.charge == Some(Accepted(id))
    ensures |s.steps| > 1
    ensures s.refunds == [] <==> s.steps[1].status == StepRunning || id == None || id == Some("")
    ensures s.refunds != [] ==> id.Some? && s.refunds == [id.value]
  {
    Reached(size, acts, s);
    RefundableIs(s);
  }

  /** A stopped saga can be taken up again exactly when it is RUNNING; so a
      compensation that was interrupted stays as it is in every further run. */
  lemma {:induction false} InterruptedCompensationIsFinal(s: State, more: seq<Action>, t: State)
    requires s.pc == Stopped
    ensures (exists a :: Next(s, a).Some?) <==> s.saga == Some(Running)
    ensures s.saga != Some(Running) && Exec(Next, s, more) == Some(t) ==> more == [] && t == s
  {
    assert s.saga == Some(Running) ==> Next(s, AdminCompensate).Some?;
    if s.saga != Some(Running) && Exec(Next, s, more) == Some(t) && more != [] {
      var butLast := more[..|more| - 1];
      InterruptedCompensationIsFinal(s, butLast, Exec(Next, s, butLast).value);
      assert false;
    }
  }

  /** Saga, order and outbox agree over whole runs. */
  lemma StatusAndOutboxAgree(size: nat, acts: seq<Action>, s: State)
    requires Exec(Next, Initial(size), acts) == Some(s)
    ensures s.saga == Some(Completed) ==> s.order == Order.Paid && s.outbox == [OrderPaid] && |s.steps| == 4
    ensures s.order == Order.Cancelled <==> multiset(s.outbox)[OrderFailed] == 1
    ensures s.order == Order.Pending <==> s.outbox == []
    ensures multiset(s.outbox)[OrderPaid] <= 1 && multiset(s.outbox)[OrderFailed] <= 1
  {
    Reached(size, acts, s);
    assert multiset([OrderPaid, OrderFailed]) == multiset{OrderPaid, OrderFailed};
  }

  lemma StatusChanges(s: State, a: Action)
    requires Inv(s) && Next(s, a).Some?
    ensures var t := Next(s, a).value;
      || t.order == s.order
      || (s.order == Order.Pending && t.order in {Order.Paid, Order.Cancelled})
      || (s.order == Order.Paid && t.order == Order.Cancelled)
    ensures (s.order == Order.Paid && Next(s, a).value.order == Order.Cancelled)
       <==> (a == Write && s.pc == Cancelling && s.outbox == [OrderPaid])
  {
  }

  /** Every change of the order status lies in the closure of the transition table,
      and all but one in the table itself: the one is the cancelling of an order
      whose order.paid event is already out. */
  lemma StatusChangesAreLawful(size: nat, acts: seq<Action>, s: State, a: Action)
    requires Exec(Next, Initial(size), acts) == Some(s) && Next(s, a).Some?
    ensures var t := Next(s, a).value;
      && (t.order == s.order || Order.Reaches(s.order, t.order))
      && ((t.order != s.order && !Order.CanTransition(s.order, t.order)) <==>
           (a == Write && s.pc == Cancelling && s.outbox == [OrderPaid]))
  {
    Reached(size, acts, s);
    StatusChanges(s, a);
    Order.ReachesExactly(s.order, Next(s, a).value.order);
  }

  // ------------------------------------------------ release and cancellation

  /** Where a compensation stands with its one release call. */
  ghost predicate ReleaseMatchesPc(s: State) {
    && (s.pc.ReadSteps? || s.pc.Refunding? || s.pc.MarkRefund? || s.pc.Releasing? ==> s.release == None)
    && (s.pc.MarkRelease? || s.pc.Cancelling? || s.pc.Failing? || s.saga == Some(Failed) ==>
         s.release.Some? && (s.release.value.ok <==> s.release.value.count == s.size))
  }

  predicate InCompensation(pc: Pc) {
    pc.ReadSteps? || pc.Refunding? || pc.MarkRefund? || pc.Releasing? || pc.MarkRelease? || pc.Cancelling? || pc.Failing?
  }

  /** The saga status tells the forward part of the program from the compensating part. */
  ghost predicate StatusMatchesPc(s: State) {
    && (InCompensation(s.pc) ==> s.saga == Some(Compensating))
    && (s.pc == Cancelling ==> s.order != Order.Cancelled)
    && (s.saga == Some(Compensating) || s.saga == Some(Failed) ==> InCompensation(s.pc) || s.pc == Stopped)
    && (s.saga != Some(Compensating) && s.saga != Some(Failed) ==>
         s.release == None && s.order != Order.Cancelled)
  }

  lemma InvHasStatus(s: State)
    requires Inv(s)
    ensures StatusMatchesPc(s)
  {
  }

  lemma StepKeepsRelease(s: State, a: Action)
    requires StatusMatchesPc(s) && ReleaseMatchesPc(s) && Next(s, a).Some?
    ensures ReleaseMatchesPc(Next(s, a).value)
  {
  }

  ghost predicate InvAndRelease(s: State) {
    Inv(s) && ReleaseMatchesPc(s)
  }

  lemma ReachedRelease(size: nat, acts: seq<Action>, s: State)
    requires Exec(Next, Initial(size), acts) == Some(s)
    ensures Inv(s) && ReleaseMatchesPc(s)
  {
    InitialInv(size);
    forall t, a | InvAndRelease(t) && Anything(a) && Next(t, a).Some? ensures InvAndRelease(Next(t, a).value) {
      StepKeeps(t, a);
      InvHasStatus(t);
      StepKeepsRelease(t, a);
    }
    Invariant(Next, Initial(size), acts, Anything, InvAndRelease);
  }

  /** A saga that is FAILED has asked for the release once and was told exactly
      whether every item was written; no saga asks for it twice. */
  lemma ReleaseAttempted(size: nat, acts: seq<Action>, s: State)
    requires Exec(Next, Initial(size), acts) == Some(s)
    ensures s.saga == Some(Failed) ==>
      s.release.Some? && (s.release.value.ok <==> s.release.value.count == s.size)
    ensures forall call, threw :: Next(s, ReleaseStock(call, threw)).Some? ==> s.release == None
  {
    ReachedRelease(size, acts, s);
  }

  /** What a failed cancelling transaction leaves behind. */
  ghost predicate CancelMatches(s: State, failed: bool) {
    && (failed ==> s.order != Order.Cancelled && (s.saga == Some(Compensating) || s.saga == Some(Failed))
                   && (s.pc == Failing || s.pc == Stopped))
    && (!failed && (s.pc == Failing || s.saga == Some(Failed)) ==> s.order == Order.Cancelled)
  }

  lemma StepKeepsCancel(s: State, failed: bool, a: Action)
    requires StatusMatchesPc(s) && CancelMatches(s, failed) && Next(s, a).Some?
    ensures CancelMatches(Next(s, a).value, failed || a == CancelFails)
  {
  }

  lemma ReachedStatus(size: nat, acts: seq<Action>, s: State)
    requires Exec(Next, Initial(size), acts) == Some(s)
    ensures StatusMatchesPc(s)
  {
    Reached(size, acts, s);
    InvHasStatus(s);
  }

  lemma InByLast(acts: seq<Action>, a: Action)
    requires acts != []
    ensures a in acts <==> a in acts[..|acts| - 1] || a == acts[|acts| - 1]
  {
    assert acts == acts[..|acts| - 1] + [acts[|acts| - 1]];
  }

  lemma {:induction false} ReachedCancel(size: nat, acts: seq<Action>, s: State)
    requires Exec(Next, Initial(size), acts) == Some(s)
    ensures CancelMatches(s, CancelFails in acts)
  {
    if acts != [] {
      var n := |acts| - 1;
      var before := Exec(Next, Initial(size), acts[..n]).value;
      ReachedCancel(size, acts[..n], before);
      ReachedStatus(size, acts[..n], before);
      StepKeepsCancel(before, CancelFails in acts[..n], acts[n]);
      InByLast(acts, CancelFails);
    }
  }

  /** "The order is always transitioned to CANCELLED", and when it holds: a FAILED
      saga's order is CANCELLED exactly when the cancelling transaction did not fail. */
  lemma CancelledIff(size: nat, acts: seq<Action>, s: State)
    requires Exec(Next, Initial(size), acts) == Some(s) && s.saga == Some(Failed)
    ensures s.order == Order.Cancelled <==> CancelFails !in acts
  {
    ReachedCancel(size, acts, s);
  }

  // ------------------------------------------------ interrupted compensations

  /** A compensation is interrupted by a stop, or by a release call that throws. */
  predicate Interrupts(b: State, a: Action) {
    b.saga == Some(Compensating) && b.pc != Stopped && Next(b, a).Some? && Next(b, a).value.pc == Stopped
    && Next(b, a).value.saga == Some(Compensating)
  }

  lemma InterruptionKeepsRows(b: State, a: Action)
    requires Inv(b) && Interrupts(b, a)
    ensures a == Stop || (a.ReleaseStock? && a.threw)
    ensures var t := Next(b, a).value;
      t.refunds == b.refunds && t.order == b.order && t.steps == b.steps
      && t.release == if a.ReleaseStock? then Some(a.call) else b.release
  {
  }

  lemma RefundsInCompensation(b: State)
    requires Inv(b) && b.saga == Some(Compensating) && b.pc != Stopped && RefundableId(b.steps).Some?
    ensures b.refunds == [] <==> b.pc.ReadSteps? || b.pc.Refunding?
  {
  }

  /** Which of its three guarantees an interrupted compensation has lost, for good: the
      refund exactly when it stopped before asking for it, the release likewise,
      and the cancellation unless it stopped between cancelling and FAILED. */
  lemma InterruptedExactly(size: nat, acts: seq<Action>, b: State, a: Action)
    requires Exec(Next, Initial(size), acts) == Some(b) && Interrupts(b, a)
    ensures var t := Next(b, a).value;
      && (RefundableId(t.steps).Some? ==> (t.refunds == [] <==> b.pc.ReadSteps? || b.pc.Refunding?))
      && (t.release == None <==>
           a == Stop && (b.pc.ReadSteps? || b.pc.Refunding? || b.pc.MarkRefund? || b.pc.Releasing?))
      && (t.order == Order.Cancelled <==> b.pc == Failing && CancelFails !in acts)
    ensures forall more, u :: Exec(Next, Next(b, a).value, more) == Some(u) ==> u == Next(b, a).value
  {
    ReachedRelease(size, acts, b);
    ReachedStatus(size, acts, b);
    ReachedCancel(size, acts, b);
    InterruptionKeepsRows(b, a);
    if RefundableId(b.steps).Some? { RefundsInCompensation(b); }
    if b.pc != Failing { CancelledInCompensation(b); }
    forall more, u | Exec(Next, Next(b, a).value, more) == Some(u) ensures u == Next(b, a).value {
      InterruptedCompensationIsFinal(Next(b, a).value, more, u);
    }
  }

  lemma CancelledInCompensation(b: State)
    requires Inv(b) && b.saga == Some(Compensating) && b.pc != Stopped && b.pc != Failing
    ensures b.order != Order.Cancelled
  {
  }
}

/** The saga orchestrator as it runs (src/domain/services/saga-orchestrator.ts:52-255):
    any awaited call may reject, with its effect or without, and the method then
    stops there. */
module SagaOrchestrator {
  import opened Runs
  import Order
  import opened Saga
  import opened SagaTheorems
  import opened SagaStock
  import Inventory
  import Sorting
  import JournalLedger
  import Contention
  import Discipline
  import InventoryService

  /** The write that ends step 0, and the one that ends step 1. */
  lemma EndReserveWrites(s: State, ok: bool)
    requires s.pc == EndReserve(ok) && |s.steps| == 1
    ensures var step0 := CreateStep(ReserveInventory, 0);
      NextWrite(s) == Some(s.(steps := s.steps[0 := if ok then CompleteStep(step0, ReservedAll) else FailStep(step0)],
                              pc := if ok then BeginPayment else EnterCompensation))
  {
  }

  lemma EndPaymentWrites(s: State, answer: Charge)
    requires s.pc == EndPayment(answer) && |s.steps| == 2
    ensures var step1 := CreateStep(ProcessPayment, 1);
      NextWrite(s) == Some(s.(steps := s.steps[1 :=
                                if answer.Accepted? then CompleteStep(step1, Charged(answer.transactionId)) else FailStep(step1)],
                              pc := if answer.Accepted? then BeginConfirm else EnterCompensation))
  {
  }

  class SagaOrchestrator {
    // the rows of this saga and its order
    var saga: Option<SagaStatus>
    var steps: seq<Step>
    var order: Order.OrderStatus
    var outbox: seq<EventType>
    const fate: nat -> Outcome   // what becomes of the i-th call to a repository
    var calls: nat
    // what the payment gateway answers, and what it was asked for
    const chargeAnswer: Charge
    const refundReply: bool
    var charge: Option<Charge>
    var refunds: seq<string>
    var refundAnswer: Option<bool>
    // this saga at the inventory service, and the items of its order
    const inventory: InventoryService.InventoryService
    const me: nat
    const items: seq<Inventory.Item>
    const size: nat
    ghost var reservation: Option<StockCall>
    ghost var release: Option<StockCall>
    ghost var stuck: set<Inventory.Sku>   // locks of this saga's stock calls whose unlock failed

    ghost var failures: nat               // how many calls rejected, those of the stock calls included
    ghost var stockFailures: nat          // how many of them were calls of the inventory service
    ghost var pc: Pc
    ghost var acts: seq<Action>
    ghost var trace: seq<State>

    ghost function Snapshot(): State
      reads this
    {
      State(pc, saga, steps, order, outbox, reservation, charge, refunds, refundAnswer, release, size)
    }

    /** Rows and effects are what a run of the saga system makes of them. */
    ghost predicate Valid()
      reads this
    {
      Trace(Next, trace, acts) && trace[0] == Initial(size) && trace[|acts|] == Snapshot() && Honest()
    }

    /** The failures counted are those that the environment caused: `fate` says of each
        repository call made so far whether it rejected. */
    ghost predicate Honest()
      reads this`calls, this`failures, this`stockFailures
    {
      forall n :: n == calls ==> HonestAt(n)
    }

    ghost predicate HonestAt(n: nat)
      reads this`failures, this`stockFailures
    {
      failures == stockFailures + Troubles(fate, n)
    }

    /** So whatever holds of every run holds of this object. */
    lemma IsRun()
      requires Valid()
      ensures Exec(Next, Initial(size), acts) == Some(Snapshot())
    {
      TraceIsRun(Next, trace, acts);
    }

    /** The real stock rows agree: this saga's writes, among those of all other
        callers, are what the two stock calls are said to have done. */
    ghost predicate StockExactIn(tables: Discipline.Shared)
      reads this`reservation, this`release, this`stuck, this`stockFailures, inventory, inventory.repo, inventory.locks
    {
      && inventory.Valid() && inventory.HoldsExactly(me, stuck)
      && size == |items| && stockFailures == inventory.Rejections()
      && JournalLedger.Footprint(inventory.journal, me, Sorting.SortBySku(items), Count(reservation), Count(release))
    }

    /** Said of whatever the tables are, so that it is unfolded only where it is used. */
    ghost predicate StockExact()
      reads this`reservation, this`release, this`stuck, this`stockFailures, inventory, inventory.repo, inventory.locks
    {
      forall tables :: tables == inventory.Tables() ==> StockExactIn(tables)
    }

    constructor (inventory: InventoryService.InventoryService, me: nat, items: seq<Inventory.Item>,
                 fate: nat -> Outcome, chargeAnswer: Charge, refundReply: bool)
      requires inventory.Valid() && inventory.HoldsExactly(me, {}) && Discipline.Writes(inventory.journal, me) == []
      ensures Valid() && pc == Creating && StockExact()
      ensures this.inventory == inventory && this.me == me && this.items == items
      ensures this.fate == fate && this.chargeAnswer == chargeAnswer && this.refundReply == refundReply
    {
      saga, steps, order, outbox := None, [], Order.Pending, [];
      reservation, charge, refunds, refundAnswer, release := None, None, [], None, None;
      this.inventory, this.me, this.items, size := inventory, me, items, |items|;
      this.fate, this.chargeAnswer, this.refundReply := fate, chargeAnswer, refundReply;
      calls, failures, stockFailures := 0, inventory.Rejections(), inventory.Rejections();
      pc, acts, trace, stuck := Creating, [], [Initial(|items|)], {};
    }

    /** Note a step that has just happened. */
    ghost method Did(before: State, a: Action)
      requires Trace(Next, trace, acts) && trace[0] == Initial(size) && trace[|acts|] == before && Honest()
      requires Next(before, a) == Some(Snapshot())
      modifies this`acts, this`trace
      ensures Valid()
    {
      TraceAppend(Next, trace, acts, a, Snapshot());
      acts, trace := acts + [a], trace + [Snapshot()];
    }

    /** A step that changes no row and asks for nothing. */
    ghost method Move(a: Action, after: Pc)
      requires Valid() && Next(Snapshot(), a) == Some(Snapshot().(pc := after))
      modifies this`acts, this`trace, this`pc
      ensures Valid() && pc == after
    {
      var before := Snapshot();
      pc := after;
      Did(before, a);
    }

    /** The awaited call rejected, or the process died. */
    ghost method Halt()
      requires Valid() && pc != Stopped
      modifies this`acts, this`trace, this`pc
      ensures Valid() && pc == Stopped
    {
      Move(Stop, Stopped);
    }

    /** The fate of the call to a repository that is made now. */
    method NextFate() returns (outcome: Outcome)
      requires Honest()
      modifies this`calls, this`failures
      ensures Honest() && calls == old(calls) + 1 && outcome == fate(old(calls))
      ensures failures == old(failures) + if outcome == Fine then 0 else 1
    {
      assert HonestAt(calls);
      outcome := fate(calls);
      calls := calls + 1;
      if outcome != Fine { failures := failures + 1; }
    }

    /** sagaRepo.create and sagaRepo.update */
    method SaveSaga(status: SagaStatus, ghost after: Pc) returns (ok: bool)
      requires Valid() && pc != Stopped
      requires NextWrite(Snapshot()) == Some(Snapshot().(saga := Some(status), pc := after))
      modifies this`saga, this`calls, this`failures, this`pc, this`acts, this`trace
      ensures Valid()
      ensures ok ==> saga == Some(status) && pc == after
      ensures !ok ==> pc == Stopped
      ensures failures == old(failures) + if ok then 0 else 1
    {
      var outcome := NextFate();
      if outcome == NoEffect {
        Halt();
        return false;
      }
      ghost var before := Snapshot();
      saga, pc := Some(status), after;
      Did(before, Write);
      ok := outcome == Fine;
      if !ok && pc != Stopped { Halt(); }
    }

    /** sagaRepo.createStep */
    method InsertStep(step: Step, ghost after: Pc) returns (ok: bool)
      requires Valid() && pc != Stopped && after != Stopped
      requires NextWrite(Snapshot()) == Some(Snapshot().(steps := steps + [step], pc := after))
      modifies this`steps, this`calls, this`failures, this`pc, this`acts, this`trace
      ensures Valid()
      ensures ok ==> steps == old(steps) + [step] && pc == after
      ensures !ok ==> pc == Stopped
      ensures failures == old(failures) + if ok then 0 else 1
    {
      var outcome := NextFate();
      if outcome == NoEffect {
        Halt();
        return false;
      }
      ghost var before := Snapshot();
      steps, pc := steps + [step], after;
      Did(before, Write);
      ok := outcome == Fine;
      if !ok { Halt(); }
    }

    /** sagaRepo.updateStep */
    method UpdateStep(i: nat, step: Step, ghost after: Pc) returns (ok: bool)
      requires Valid() && pc != Stopped && after != Stopped && i < |steps|
      requires NextWrite(Snapshot()) == Some(Snapshot().(steps := steps[i := step], pc := after))
      modifies this`steps, this`calls, this`failures, this`pc, this`acts, this`trace
      ensures Valid()
      ensures ok ==> steps == old(steps)[i := step] && pc == after
      ensures !ok ==> pc == Stopped
      ensures failures == old(failures) + if ok then 0 else 1
    {
      var outcome := NextFate();
      if outcome == NoEffect {
        Halt();
        return false;
      }
      ghost var before := Snapshot();
      steps, pc := steps[i := step], after;
      Did(before, Write);
      ok := outcome == Fine;
      if !ok { Halt(); }
    }

    method WriteTransaction(status: Order.OrderStatus, event: EventType, ghost after: Pc)
      requires Valid()
      requires NextWrite(Snapshot()) == Some(Snapshot().(order := status, outbox := outbox + [event], pc := after))
      modifies this`order, this`outbox, this`pc, this`acts, this`trace
      ensures Valid() && order == status && outbox == old(outbox) + [event] && pc == after
    {
      ghost var before := Snapshot();
      order, outbox, pc := status, outbox + [event], after;
      Did(before, Write);
    }

    /** txManager.begin: order status and outbox event in one transaction. A reply
        that is lost after the commit counts as a rejection. */
    method Commit(status: Order.OrderStatus, event: EventType, ghost after: Pc) returns (ok: bool)
      requires Valid() && pc != Stopped && after != Stopped
      requires NextWrite(Snapshot()) == Some(Snapshot().(order := status, outbox := outbox + [event], pc := after))
      modifies this`order, this`outbox, this`calls, this`failures, this`pc, this`acts, this`trace
      ensures Valid()
      ensures if order == old(order) && outbox == old(outbox) then pc == old(pc) && !ok else pc == after
      ensures ok ==> pc == after && order == status && outbox == old(outbox) + [event]
      ensures failures == old(failures) + if ok then 0 else 1
    {
      var outcome := NextFate();
      if outcome == NoEffect { return false; }
      WriteTransaction(status, event, after);
      ok := outcome == Fine;
    }

    /** Count what the inventory service's own calls have met with. */
    ghost method CountStockFailures()
      requires Honest()
      modifies this`failures, this`stockFailures
      ensures Honest() && stockFailures == inventory.Rejections()
      ensures failures - stockFailures == old(failures) - old(stockFailures)
    {
      assert HonestAt(calls);
      failures := failures - stockFailures + inventory.Rejections();
      stockFailures := inventory.Rejections();
    }

    /** inventoryService.reserveInventory */
    method CallReserve() returns (verdict: Contention.Verdict)
      requires StockExact() && Honest() && reservation == None && release == None
      modifies this`reservation, this`stuck, this`failures, this`stockFailures, inventory, inventory.repo, inventory.locks
      ensures StockExact() && Honest() && reservation.Some? && verdict != Contention.Undecided
      ensures reservation.value.ok == (verdict == Contention.Succeeded)
      ensures PossibleCall(reservation.value, verdict == Contention.Threw, size)
      ensures failures == old(failures) + if verdict == Contention.Threw then 1 else 0
    {
      assert StockExactIn(inventory.Tables());
      ghost var journal := inventory.journal;
      ghost var done, left;
      verdict, done, left := inventory.ReserveInventory(me, items, stuck);
      JournalLedger.FootprintReserves(journal, inventory.journal, me, Sorting.SortBySku(items), done);
      stuck := stuck + left;
      CountStockFailures();
      reservation := Some(StockCall(verdict == Contention.Succeeded, done));
    }

    method ReserveStock() returns (r: Reply<bool>)
      requires Valid() && pc == Reserving && StockExact() && reservation == None && release == None
      modifies this`reservation, this`pc, this`acts, this`trace
      modifies this`stuck, this`failures, this`stockFailures, inventory, inventory.repo, inventory.locks
      ensures Valid() && StockExact()
      ensures if r.Rejected? then pc == Stopped else pc == EndReserve(r.value)
      ensures r.Answer? ==> reservation.Some? && reservation.value.ok == r.value
      ensures failures == old(failures) + if r.Rejected? then 1 else 0
    {
      ghost var before := Snapshot();
      var verdict := CallReserve();
      var ok, threw := verdict == Contention.Succeeded, verdict == Contention.Threw;
      pc := if threw then Stopped else EndReserve(ok);
      Did(before, Action.Reserve(reservation.value, threw));
      r := if threw then Rejected else Answer(ok);
    }

    /** paymentService.charge: never rejects */
    method ChargePayment() returns (answer: Charge)
      requires Valid() && pc == Charging
      modifies this`charge, this`pc, this`acts, this`trace
      ensures Valid() && pc == EndPayment(answer) && charge == Some(answer) && answer == chargeAnswer
    {
      ghost var before := Snapshot();
      charge, pc := Some(chargeAnswer), EndPayment(chargeAnswer);
      Did(before, ChargeCard(chargeAnswer));
      answer := chargeAnswer;
    }

    /** paymentService.refund: never rejects */
    method RefundPayment(tx: string) returns (ok: bool)
      requires Valid() && pc == Refunding(tx)
      modifies this`refunds, this`refundAnswer, this`pc, this`acts, this`trace
      ensures Valid() && pc == MarkRefund(ok)
      ensures refunds == old(refunds) + [tx] && refundAnswer == Some(refundReply) && ok == refundReply
    {
      ghost var before := Snapshot();
      refunds, refundAnswer, pc := refunds + [tx], Some(refundReply), MarkRefund(refundReply);
      Did(before, RefundCard(refundReply));
      ok := refundReply;
    }

    /** A saga never releases twice. */
    lemma NotYetReleased()
      requires Valid() && pc == Releasing
      ensures release == None
    {
      IsRun();
      ReleaseAttempted(size, acts, Snapshot());
      assert Next(Snapshot(), ReleaseStock(StockCall(false, 0), true)).Some?;
    }

    /** inventoryService.releaseInventory */
    method CallRelease() returns (verdict: Contention.Verdict)
      requires StockExact() && Honest() && release == None
      modifies this`release, this`stuck, this`failures, this`stockFailures, inventory, inventory.repo, inventory.locks
      ensures StockExact() && Honest() && release.Some? && verdict != Contention.Undecided
      ensures release.value.ok == (verdict == Contention.Succeeded)
      ensures PossibleCall(release.value, verdict == Contention.Threw, size)
      ensures failures == old(failures) + if verdict == Contention.Threw then 1 else 0
    {
      assert StockExactIn(inventory.Tables());
      ghost var journal := inventory.journal;
      ghost var done, left;
      verdict, done, left := inventory.ReleaseInventory(me, items, stuck);
      JournalLedger.FootprintReleases(journal, inventory.journal, me, Sorting.SortBySku(items), Count(reservation), done);
      stuck := stuck + left;
      CountStockFailures();
      release := Some(StockCall(verdict == Contention.Succeeded, done));
    }

    method ReleaseReserved() returns (r: Reply<bool>)
      requires Valid() && pc == Releasing && StockExact() && release == None
      modifies this`release, this`pc, this`acts, this`trace
      modifies this`stuck, this`failures, this`stockFailures, inventory, inventory.repo, inventory.locks
      ensures Valid() && StockExact()
      ensures if r.Rejected? then pc == Stopped else pc == MarkRelease(r.value)
      ensures failures == old(failures) + if r.Rejected? then 1 else 0
    {
      ghost var before := Snapshot();
      var verdict := CallRelease();
      var ok, threw := verdict == Contention.Succeeded, verdict == Contention.Threw;
      pc := if threw then Stopped else MarkRelease(ok);
      Did(before, ReleaseStock(release.value, threw));
      r := if threw then Rejected else Answer(ok);
    }

    /** sagaRepo.getSteps */
    method GetSteps() returns (r: Reply<seq<Step>>)
      requires Valid() && pc == ReadSteps
      modifies this`calls, this`failures, this`pc, this`acts, this`trace
      ensures Valid()
      ensures r.Rejected? ==> pc == Stopped
      ensures failures == old(failures) + if r.Rejected? then 1 else 0
      ensures r.Answer? ==> r.value == steps
      ensures r.Answer? ==>
        pc == if RefundableId(steps).Some? then Refunding(RefundableId(steps).value) else Releasing
    {
      var outcome := NextFate();
      if outcome != Fine {
        Halt();
        return Rejected;
      }
      ghost var before := Snapshot();
      pc := if RefundableId(steps).Some? then Refunding(RefundableId(steps).value) else Releasing;
      Did(before, Write);
      r := Answer(steps);
    }

    // ------------------------------------------------------------ startSaga

    /** endStep of step 0: complete it and go on, or fail it and compensate. */
    method EndReserveStep(step0: Step, success: bool) returns (ok: bool)
      requires Valid() && pc == EndReserve(success) && |steps| == 1 && step0 == CreateStep(ReserveInventory, 0)
      modifies this`steps, this`calls, this`failures, this`pc, this`acts, this`trace
      ensures Valid() && (ok ==> |steps| == 1)
      ensures pc == if !ok then Stopped else if success then BeginPayment else EnterCompensation
      ensures failures >= old(failures) && (ok <==> failures == old(failures))
    {
      EndReserveWrites(Snapshot(), success);
      ok := UpdateStep(0, if success then CompleteStep(step0, ReservedAll) else FailStep(step0),
                       if success then BeginPayment else EnterCompensation);
    }

    /** The reservation, and the write that ends its step. */
    method ReserveAndEnd(step0: Step) returns (reserved: Option<bool>)
      requires Valid() && StockExact() && reservation == None && release == None
      requires pc == Reserving && |steps| == 1 && step0 == CreateStep(ReserveInventory, 0)
      modifies this`steps, this`reservation, this`calls, this`failures, this`pc, this`acts, this`trace
      modifies this`stuck, this`failures, this`stockFailures, inventory, inventory.repo, inventory.locks
      ensures Valid() && StockExact() && (reserved.Some? ==> |steps| == 1)
      ensures pc == if reserved == None then Stopped else if reserved.value then BeginPayment else EnterCompensation
      ensures reserved.Some? ==> reservation.Some? && reservation.value.ok == reserved.value
      ensures failures >= old(failures) && (reserved.Some? <==> failures == old(failures))
    {
      var answer := ReserveStock();
      if answer.Rejected? { return None; }
      var ok := EndReserveStep(step0, answer.value);
      reserved := if ok then Some(answer.value) else None;
    }

    /** Step 0, RESERVE_INVENTORY. None means the method stopped here. */
    method ReserveStep() returns (reserved: Option<bool>)
      requires Valid() && StockExact() && reservation == None && release == None
      requires pc == BeginReserve && steps == []
      modifies this`steps, this`reservation, this`calls, this`failures, this`pc, this`acts, this`trace
      modifies this`stuck, this`failures, this`stockFailures, inventory, inventory.repo, inventory.locks
      ensures Valid() && StockExact() && (reserved.Some? ==> |steps| == 1)
      ensures pc == if reserved == None then Stopped else if reserved.value then BeginPayment else EnterCompensation
      ensures reserved.Some? ==> reservation.Some? && reservation.value.ok == reserved.value
      ensures failures >= old(failures) && (reserved.Some? <==> failures == old(failures))
    {
      var step0 := CreateStep(ReserveInventory, 0);
      var ok := InsertStep(step0, Reserving);
      if !ok { return None; }
      reserved := ReserveAndEnd(step0);
    }

    /** endStep of step 1, likewise. */
    method EndPaymentStep(step1: Step, result: Charge) returns (ok: bool)
      requires Valid() && pc == EndPayment(result) && |steps| == 2 && step1 == CreateStep(ProcessPayment, 1)
      modifies this`steps, this`calls, this`failures, this`pc, this`acts, this`trace
      ensures Valid() && (ok ==> |steps| == 2)
      ensures pc == if !ok then Stopped else if result.Accepted? then BeginConfirm else EnterCompensation
      ensures failures >= old(failures) && (ok <==> failures == old(failures))
    {
      EndPaymentWrites(Snapshot(), result);
      ok := UpdateStep(1, if result.Accepted? then CompleteStep(step1, Charged(result.transactionId)) else FailStep(step1),
                       if result.Accepted? then BeginConfirm else EnterCompensation);
    }

    /** The charge, and the write that ends its step. */
    method ChargeAndEnd(step1: Step) returns (paid: Option<bool>)
      requires Valid() && pc == Charging && |steps| == 2 && step1 == CreateStep(ProcessPayment, 1)
      modifies this`steps, this`charge, this`calls, this`failures, this`pc, this`acts, this`trace
      ensures Valid() && (paid.Some? ==> |steps| == 2)
      ensures pc == if paid == None then Stopped else if paid.value then BeginConfirm else EnterCompensation
      ensures paid.Some? ==> charge.Some? && charge.value.Accepted? == paid.value
      ensures failures >= old(failures) && (paid.Some? <==> failures == old(failures))
      ensures paid.Some? ==> charge == Some(chargeAnswer)
    {
      var result := ChargePayment();
      var ok := EndPaymentStep(step1, result);
      paid := if ok then Some(result.Accepted?) else None;
    }

    /** Step 1, PROCESS_PAYMENT. */
    method PaymentStep() returns (paid: Option<bool>)
      requires Valid() && pc == BeginPayment && |steps| == 1
      modifies this`steps, this`charge, this`calls, this`failures, this`pc, this`acts, this`trace
      ensures Valid() && (paid.Some? ==> |steps| == 2)
      ensures pc == if paid == None then Stopped else if paid.value then BeginConfirm else EnterCompensation
      ensures paid.Some? ==> charge.Some? && charge.value.Accepted? == paid.value
      ensures failures >= old(failures) && (paid.Some? <==> failures == old(failures))
      ensures paid.Some? ==> charge == Some(chargeAnswer)
    {
      var step1 := CreateStep(ProcessPayment, 1);
      var ok := InsertStep(step1, Charging);
      if !ok { return None; }
      paid := ChargeAndEnd(step1);
    }

    /** Steps 2 and 3, CONFIRM_ORDER and EMIT_EVENTS: begin both. */
    method BeginConfirmAndEmit(step2: Step, step3: Step) returns (ok: bool)
      requires Valid() && pc == BeginConfirm && |steps| == 2
      requires step2 == CreateStep(ConfirmOrder, 2) && step3 == CreateStep(EmitEvents, 3)
      modifies this`steps, this`calls, this`failures, this`pc, this`acts, this`trace
      ensures Valid()
      ensures pc == if ok then Committing else Stopped
      ensures ok ==> |steps| == 4
      ensures failures >= old(failures) && (ok <==> failures == old(failures))
    {
      ok := InsertStep(step2, BeginEmit);
      if !ok { return; }
      ok := InsertStep(step3, Committing);
    }

    /** The transaction between the two. */
    method CommitPaid() returns (ok: bool)
      requires Valid() && pc == Committing
      modifies this`order, this`outbox, this`calls, this`failures, this`pc, this`acts, this`trace
      ensures Valid() && pc == if ok then EndConfirm else Stopped
      ensures failures == old(failures) + if ok then 0 else 1
    {
      ok := Commit(Order.Paid, OrderPaid, EndConfirm);
      if !ok { Halt(); }
    }

    /** End both, after the transaction. */
    method EndConfirmAndEmit(step2: Step, step3: Step) returns (ok: bool)
      requires Valid() && pc == EndConfirm && |steps| == 4
      requires step2 == CreateStep(ConfirmOrder, 2) && step3 == CreateStep(EmitEvents, 3)
      modifies this`steps, this`calls, this`failures, this`pc, this`acts, this`trace
      ensures Valid()
      ensures pc == if ok then Completing else Stopped
      ensures failures >= old(failures) && (ok <==> failures == old(failures))
    {
      ok := UpdateStep(2, CompleteStep(step2, MarkedPaid), EndEmit);
      if !ok { return; }
      ok := UpdateStep(3, CompleteStep(step3, EventWritten), Completing);
    }

    /** Order status and order.paid event in one transaction, between the two. */
    method ConfirmSteps() returns (ok: bool)
      requires Valid() && pc == BeginConfirm && |steps| == 2
      modifies this`steps, this`order, this`outbox, this`calls, this`failures, this`pc, this`acts, this`trace
      ensures Valid()
      ensures pc == if ok then Completing else Stopped
      ensures failures >= old(failures) && (ok <==> failures == old(failures))
    {
      var step2, step3 := CreateStep(ConfirmOrder, 2), CreateStep(EmitEvents, 3);
      ok := BeginConfirmAndEmit(step2, step3);
      if !ok { return; }
      ok := CommitPaid();
      if !ok { return; }
      ok := EndConfirmAndEmit(step2, step3);
    }

    /** Create the saga row and set it RUNNING. */
    method OpenSaga() returns (running: Option<SagaStatus>)
      requires Valid() && pc == Creating
      modifies this`saga, this`calls, this`failures, this`pc, this`acts, this`trace
      ensures Valid()
      ensures running == None ==> pc == Stopped
      ensures running.Some? ==> running == Some(Running) == saga && pc == BeginReserve
      ensures failures >= old(failures) && (running.Some? <==> failures == old(failures))
    {
      var pending := Pending;
      var ok := SaveSaga(pending, Starting);
      if !ok { return None; }
      var started := Saga.StartSaga(pending).value;
      ok := SaveSaga(started, BeginReserve);
      return if ok then Some(started) else None;
    }

    /** Set the saga COMPLETED. */
    method CloseSaga(running: SagaStatus) returns (result: Option<SagaStatus>)
      requires Valid() && pc == Completing && saga == Some(running) && running == Running
      modifies this`saga, this`calls, this`failures, this`pc, this`acts, this`trace
      ensures Valid() && pc == Stopped
      ensures result.Some? ==> saga == result && result.value == Completed
      ensures failures >= old(failures) && (result.Some? <==> failures == old(failures))
    {
      var completed := CompleteSaga(running).value;
      var ok := SaveSaga(completed, Stopped);
      return if ok then Some(completed) else None;
    }

    /** What a returned saga says about the services' answers: COMPLETED when both
        agreed, FAILED when one declined. */
    ghost predicate Accounted(result: SagaStatus)
      reads this
    {
      && result in {Completed, Failed}
      && reservation.Some?
      && (result == Completed <==>
           reservation.value.ok && charge.Some? && charge.value.Accepted?)
      && charge == if reservation.value.ok then Some(chargeAnswer) else None
    }

    /** The available stock of a SKU, and what it would be if this saga had never been. */
    ghost predicate StockIs(sku: Inventory.Sku, less: int)
      reads inventory, inventory.repo
    {
      && sku in inventory.base && sku in inventory.repo.table
      && inventory.repo.table[sku].available == WithoutUs(inventory.base, inventory.journal, me, sku) - less
    }

    /** Whatever other callers do to the same rows: after COMPLETED, every row has
        given up the order's quantity. */
    lemma CompletedStock(sku: Inventory.Sku)
      requires Valid() && StockExact() && saga == Some(Completed) && sku in inventory.base
      ensures StockIs(sku, Sorting.Quantity(items, sku))
    {
      assert StockExactIn(inventory.Tables()) && inventory.Explains(inventory.Tables());
      IsRun();
      Sorting.SortIsPermutation(items);
      CompletionMovesStock(size, acts, Snapshot(), Sorting.SortBySku(items),
                           inventory.base, inventory.journal, me, inventory.Tables(), sku);
    }

    /** At any time: every item is restored exactly when the release wrote as many
        items as the reservation; and after FAILED with a completed reservation,
        exactly when the release returned true. */
    lemma ReleasedStock(sorted: seq<Inventory.Item>)
      requires Valid() && StockExact() && sorted == Sorting.SortBySku(items)
      requires forall i :: 0 <= i < |sorted| ==> sorted[i].quantity > 0
      ensures AllRestored(sorted, inventory.base, inventory.journal, me, inventory.Tables())
         <==> Count(reservation) == Count(release)
      ensures saga == Some(Failed) && Done(Snapshot(), 0) ==>
        && release.Some?
        && (AllRestored(sorted, inventory.base, inventory.journal, me, inventory.Tables()) <==> release.value.ok)
    {
      assert StockExactIn(inventory.Tables()) && inventory.Explains(inventory.Tables());
      RestoredIff(Snapshot(), sorted, inventory.base, inventory.journal, me, inventory.Tables());
      if saga == Some(Failed) && Done(Snapshot(), 0) {
        IsRun();
        ReleasedIff(size, acts, Snapshot(), sorted, inventory.base, inventory.journal, me, inventory.Tables());
      }
    }

    /** Run the saga. The answer is the status of the returned instance, None when
        a call rejected or the process died. Every one of its exits, those too, is
        a consistent stopping point. */
    method StartSaga() returns (result: Option<SagaStatus>)
      requires Valid() && StockExact() && pc == Creating
      modifies this
      modifies this`stuck, this`failures, this`stockFailures, inventory, inventory.repo, inventory.locks
      ensures Valid() && StockExact() && pc == Stopped
      ensures result.Some? ==> saga == result && Accounted(result.value)
      ensures result == Some(Completed) ==> order == Order.Paid && outbox == [OrderPaid] && refunds == []
      ensures result == Some(Completed) ==>
        forall sku :: sku in inventory.base ==> StockIs(sku, Sorting.Quantity(items, sku))
      ensures CrashConsistent(Snapshot()) && StatusMatchesOutbox(Snapshot())
      ensures failures >= old(failures) && (result == None ==> failures > old(failures))
      ensures failures == old(failures) && result == Some(Failed) ==> order == Order.Cancelled && outbox == old(outbox) + [OrderFailed]
    {
      IsRun();
      Reached(size, acts, Snapshot());
      result := Forward();
      IsRun();
      Reached(size, acts, Snapshot());
      if result == Some(Completed) {
        forall sku | sku in inventory.base ensures StockIs(sku, Sorting.Quantity(items, sku)) { CompletedStock(sku); }
      }
    }

    method Forward() returns (result: Option<SagaStatus>)
      requires Valid() && StockExact() && reservation == None && release == None
      requires pc == Creating && saga == None && steps == [] && charge == None
      modifies this
      modifies this`stuck, this`failures, this`stockFailures, inventory, inventory.repo, inventory.locks
      ensures Valid() && StockExact() && pc == Stopped
      ensures result.Some? ==> saga == result && Accounted(result.value)
      ensures failures >= old(failures) && (result == None ==> failures > old(failures))
      ensures failures == old(failures) && result == Some(Failed) ==> order == Order.Cancelled && outbox == old(outbox) + [OrderFailed]
    {
      result := OpenSaga();
      if result.Some? { result := ReserveAndPay(result.value); }
    }

    /** The part of startSaga after the saga is RUNNING. */
    method ReserveAndPay(running: SagaStatus) returns (result: Option<SagaStatus>)
      requires Valid() && StockExact() && reservation == None && release == None
      requires pc == BeginReserve && steps == [] && saga == Some(running) && running == Running && charge == None
      modifies this`saga, this`steps, this`order, this`outbox, this`reservation, this`charge, this`refunds, this`refundAnswer,
               this`release, this`calls, this`failures, this`pc, this`acts, this`trace
      modifies this`stuck, this`failures, this`stockFailures, inventory, inventory.repo, inventory.locks
      ensures Valid() && StockExact() && pc == Stopped
      ensures result.Some? ==> saga == result && Accounted(result.value)
      ensures failures >= old(failures) && (result == None ==> failures > old(failures))
      ensures failures == old(failures) && result == Some(Failed) ==> order == Order.Cancelled && outbox == old(outbox) + [OrderFailed]
    {
      var reserved := ReserveStep();
      if reserved == None { return None; }
      if reserved.value { result := PayAndConfirm(running); } else { result := Compensate(running); }
    }

    /** The part after the reservation. */
    method PayAndConfirm(running: SagaStatus) returns (result: Option<SagaStatus>)
      requires Valid() && StockExact() && pc == BeginPayment && |steps| == 1 && saga == Some(running) && running == Running
      requires reservation.Some? && reservation.value.ok
      modifies this`saga, this`steps, this`order, this`outbox, this`charge, this`refunds, this`refundAnswer, this`release,
               this`calls, this`failures, this`pc, this`acts, this`trace
      modifies this`stuck, this`failures, this`stockFailures, inventory, inventory.repo, inventory.locks
      ensures Valid() && StockExact() && pc == Stopped
      ensures result.Some? ==> saga == result && Accounted(result.value)
      ensures failures >= old(failures) && (result == None ==> failures > old(failures))
      ensures failures == old(failures) && result == Some(Failed) ==> order == Order.Cancelled && outbox == old(outbox) + [OrderFailed]
    {
      var paid := PaymentStep();
      if paid == None { return None; }
      result := Settle(running, paid.value);
    }

    /** Confirm after a payment, compensate without one. */
    method Settle(running: SagaStatus, paid: bool) returns (result: Option<SagaStatus>)
      requires Valid() && StockExact() && saga == Some(running) && running == Running
      requires if paid then pc == BeginConfirm && |steps| == 2 else pc == EnterCompensation
      modifies this`saga, this`steps, this`order, this`outbox, this`refunds, this`refundAnswer, this`release,
               this`calls, this`failures, this`pc, this`acts, this`trace
      modifies this`stuck, this`failures, this`stockFailures, inventory, inventory.repo, inventory.locks
      ensures Valid() && StockExact() && pc == Stopped
      ensures result.Some? ==> saga == result && result == Some(if paid then Completed else Failed)
      ensures failures >= old(failures) && (result == None ==> failures > old(failures))
      ensures failures == old(failures) && result == Some(Failed) ==> order == Order.Cancelled && outbox == old(outbox) + [OrderFailed]
    {
      if paid { result := ConfirmAndClose(running); } else { result := Compensate(running); }
    }

    /** The part after the payment. */
    method ConfirmAndClose(running: SagaStatus) returns (result: Option<SagaStatus>)
      requires Valid() && pc == BeginConfirm && |steps| == 2 && saga == Some(running) && running == Running
      modifies this`saga, this`steps, this`order, this`outbox, this`calls, this`failures, this`pc, this`acts, this`trace
      ensures Valid() && pc == Stopped
      ensures result.Some? ==> result == Some(Completed) && saga == result
      ensures failures >= old(failures) && (result.Some? <==> failures == old(failures))
    {
      var ok := ConfirmSteps();
      if !ok { return None; }
      result := CloseSaga(running);
    }

    // ----------------------------------------------------------- compensate

    /** Refund, if the persisted payment step is completed with a transaction id. */
    method RefundStep(found: seq<Step>) returns (ok: bool)
      requires Valid() && found == steps
      requires pc == if RefundableId(steps).Some? then Refunding(RefundableId(steps).value) else Releasing
      modifies this`steps, this`refunds, this`refundAnswer, this`calls, this`failures, this`pc, this`acts, this`trace
      ensures Valid()
      ensures pc == if ok then Releasing else Stopped
      ensures ok ==> SameButMarked(found, steps)
      ensures failures >= old(failures) && (ok <==> failures == old(failures))
    {
      var transactionId := RefundableId(found);
      if transactionId.None? { return true; }
      var success := RefundPayment(transactionId.value);
      ok := MarkRefundStep(found, success);
    }

    method MarkRefundStep(found: seq<Step>, success: bool) returns (ok: bool)
      requires Valid() && found == steps && pc == MarkRefund(success)
      modifies this`steps, this`calls, this`failures, this`pc, this`acts, this`trace
      ensures Valid()
      ensures pc == if ok then Releasing else Stopped
      ensures ok ==> SameButMarked(found, steps)
      ensures failures >= old(failures) && (ok <==> failures == old(failures))
    {
      var refundStep := Find(found, ProcessPayment, false);
      if refundStep.Some? {
        ok := UpdateStep(refundStep.value, MarkStep(found[refundStep.value], success), Releasing);
      } else {
        Move(Write, Releasing);
        ok := true;
      }
    }

    /** Give the stock back. */
    method ReleaseStep(found: seq<Step>) returns (ok: bool)
      requires Valid() && StockExact() && pc == Releasing && SameButMarked(found, steps)
      modifies this`steps, this`release, this`calls, this`failures, this`pc, this`acts, this`trace
      modifies this`stuck, this`failures, this`stockFailures, inventory, inventory.repo, inventory.locks
      ensures Valid() && StockExact()
      ensures pc == if ok then Cancelling else Stopped
      ensures failures >= old(failures) && (ok <==> failures == old(failures))
    {
      NotYetReleased();
      var released := ReleaseReserved();
      if released.Rejected? { return false; }
      ok := MarkReleaseStep(found, released.value);
    }

    method MarkReleaseStep(found: seq<Step>, success: bool) returns (ok: bool)
      requires Valid() && pc == MarkRelease(success) && SameButMarked(found, steps)
      modifies this`steps, this`calls, this`failures, this`pc, this`acts, this`trace
      ensures Valid()
      ensures pc == if ok then Cancelling else Stopped
      ensures failures >= old(failures) && (ok <==> failures == old(failures))
    {
      MarkingKeepsFind(found, steps);
      var inventoryStep := Find(found, ReserveInventory, false);
      if inventoryStep.Some? {
        ok := UpdateStep(inventoryStep.value, MarkStep(found[inventoryStep.value], success), Cancelling);
      } else {
        Move(Write, Cancelling);
        ok := true;
      }
    }

    /** Refund and release, as the persisted steps say. */
    method UndoSteps() returns (ok: bool)
      requires Valid() && StockExact() && pc == ReadSteps
      modifies this`steps, this`refunds, this`refundAnswer, this`release, this`calls, this`failures, this`pc, this`acts, this`trace
      modifies this`stuck, this`failures, this`stockFailures, inventory, inventory.repo, inventory.locks
      ensures Valid() && StockExact()
      ensures pc == if ok then Cancelling else Stopped
      ensures failures >= old(failures) && (ok <==> failures == old(failures))
    {
      var found := GetSteps();
      if found.Rejected? { return false; }
      ok := UndoFound(found.value);
    }

    method UndoFound(found: seq<Step>) returns (ok: bool)
      requires Valid() && StockExact() && found == steps
      requires pc == if RefundableId(steps).Some? then Refunding(RefundableId(steps).value) else Releasing
      modifies this`steps, this`refunds, this`refundAnswer, this`release, this`calls, this`failures, this`pc, this`acts, this`trace
      modifies this`stuck, this`failures, this`stockFailures, inventory, inventory.repo, inventory.locks
      ensures Valid() && StockExact()
      ensures pc == if ok then Cancelling else Stopped
      ensures failures >= old(failures) && (ok <==> failures == old(failures))
    {
      ok := RefundStep(found);
      if ok { ok := ReleaseStep(found); }
    }

    /** Cancel the order and write order.failed; a failure of that is only logged. */
    method CancelOrder() returns (ok: bool)
      requires Valid() && pc == Cancelling
      modifies this`order, this`outbox, this`calls, this`failures, this`pc, this`acts, this`trace
      ensures Valid() && pc == Failing
      ensures ok ==> order == Order.Cancelled && outbox == old(outbox) + [OrderFailed]
      ensures failures == old(failures) + if ok then 0 else 1
    {
      ok := Commit(Order.Cancelled, OrderFailed, Failing);
      // `.catch`: the failed transaction is only logged
      if order == old(order) && outbox == old(outbox) { Move(CancelFails, Failing); }
    }

    /** Cancel the order and set the saga FAILED. */
    method CloseCompensation(compensating: SagaStatus) returns (result: Option<SagaStatus>)
      requires Valid() && pc == Cancelling && saga == Some(compensating) && compensating == Compensating
      modifies this`saga, this`order, this`outbox, this`calls, this`failures, this`pc, this`acts, this`trace
      ensures Valid() && pc == Stopped
      ensures result.Some? ==> result == Some(Failed) && saga == result
      ensures failures >= old(failures) && (result == None ==> failures > old(failures))
      ensures failures == old(failures) && result == Some(Failed) ==> order == Order.Cancelled && outbox == old(outbox) + [OrderFailed]
    {
      var _ := CancelOrder();
      var failed := CompleteCompensation(compensating).value;
      var ok := SaveSaga(failed, Stopped);
      result := if ok then Some(failed) else None;
    }

    /** Set the saga COMPENSATING. */
    method OpenCompensation(currentSaga: SagaStatus) returns (compensating: Option<SagaStatus>)
      requires Valid() && pc == EnterCompensation && saga == Some(Running) && currentSaga == Running
      modifies this`saga, this`calls, this`failures, this`pc, this`acts, this`trace
      ensures Valid()
      ensures compensating == None ==> pc == Stopped
      ensures compensating.Some? ==> compensating == Some(Compensating) == saga && pc == ReadSteps
      ensures failures >= old(failures) && (compensating.Some? <==> failures == old(failures))
    {
      var next := StartCompensation(currentSaga).value;
      var ok := SaveSaga(next, ReadSteps);
      compensating := if ok then Some(next) else None;
    }

    /** Compensate a running saga. The answer is FAILED, or None when a call
        rejected or the process died on the way. */
    method Compensate(currentSaga: SagaStatus) returns (result: Option<SagaStatus>)
      requires Valid() && StockExact() && pc == EnterCompensation && saga == Some(Running) && currentSaga == Running
      modifies this`saga, this`steps, this`order, this`outbox, this`refunds, this`refundAnswer, this`release,
               this`calls, this`failures, this`pc, this`acts, this`trace
      modifies this`stuck, this`failures, this`stockFailures, inventory, inventory.repo, inventory.locks
      ensures Valid() && StockExact() && pc == Stopped
      ensures result.Some? ==> result == Some(Failed) && saga == result
      ensures failures >= old(failures) && (result == None ==> failures > old(failures))
      ensures failures == old(failures) && result == Some(Failed) ==> order == Order.Cancelled && outbox == old(outbox) + [OrderFailed]
    {
      result := OpenCompensation(currentSaga);
      if result.Some? { result := UndoAndClose(result.value); }
    }

    method UndoAndClose(compensating: SagaStatus) returns (result: Option<SagaStatus>)
      requires Valid() && StockExact() && pc == ReadSteps && saga == Some(compensating) && compensating == Compensating
      modifies this`saga, this`steps, this`order, this`outbox, this`refunds, this`refundAnswer, this`release,
               this`calls, this`failures, this`pc, this`acts, this`trace
      modifies this`stuck, this`failures, this`stockFailures, inventory, inventory.repo, inventory.locks
      ensures Valid() && StockExact() && pc == Stopped
      ensures result.Some? ==> result == Some(Failed) && saga == result
      ensures failures >= old(failures) && (result == None ==> failures > old(failures))
      ensures failures == old(failures) && result == Some(Failed) ==> order == Order.Cancelled && outbox == old(outbox) + [OrderFailed]
    {
      var ok := UndoSteps();
      if !ok { return None; }
      result := CloseCompensation(compensating);
    }

    /** The admin route: 409 unless the saga is RUNNING
        (src/api/routes/admin/sagas.ts:133-175). The refund is requested at most
        once however often this is called. */
    method AdminCompensateRoute() returns (conflict: bool)
      requires Valid() && StockExact() && pc == Stopped
      modifies this
      modifies this`stuck, this`failures, this`stockFailures, inventory, inventory.repo, inventory.locks
      ensures Valid() && StockExact() && pc == Stopped
      ensures conflict <==> old(saga) != Some(Running)
      ensures conflict ==> Snapshot() == old(Snapshot())
      ensures CrashConsistent(Snapshot()) && StatusMatchesOutbox(Snapshot())
      ensures |refunds| <= 1
      ensures !conflict && failures == old(failures) ==>
        saga == Some(Failed) && order == Order.Cancelled && outbox == old(outbox) + [OrderFailed]
    {
      conflict := saga != Some(Running);
      if !conflict { TakeUp(); }
      IsRun();
      Reached(size, acts, Snapshot());
      RefundedExactly(size, acts, Snapshot());
    }

    method TakeUp()
      requires Valid() && StockExact() && pc == Stopped && saga == Some(Running)
      modifies this
      modifies inventory, inventory.repo, inventory.locks
      ensures Valid() && StockExact() && pc == Stopped && failures >= old(failures)
      ensures failures == old(failures) ==>
        saga == Some(Failed) && order == Order.Cancelled && outbox == old(outbox) + [OrderFailed]
    {
      Move(AdminCompensate, EnterCompensation);
      var result := Compensate(Running);
    }
  }

  /** The steps are those found, except that payment steps may be marked. */
  ghost predicate SameButMarked(found: seq<Step>, steps: seq<Step>) {
    && |steps| == |found|
    && forall i :: 0 <= i < |found| ==>
         && steps[i].name == found[i].name && steps[i].status == found[i].status
         && (found[i].name != ProcessPayment ==> steps[i] == found[i])
  }

  lemma {:induction false} MarkingKeepsFind(found: seq<Step>, steps: seq<Step>)
    requires SameButMarked(found, steps)
    ensures Find(steps, ReserveInventory, false) == Find(found, ReserveInventory, false)
  {
    if found != [] {
      MarkingKeepsFind(found[..|found| - 1], steps[..|steps| - 1]);
    }
  }
}

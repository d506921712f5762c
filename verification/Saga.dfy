/** One ORDER_FULFILLMENT saga: its entities (src/domain/entities/saga.ts) and the
    orchestrator's sequence of persisted writes and external effects
    (src/domain/services/saga-orchestrator.ts:64-254), one step each, with a stop
    possible between any two. */
module Saga {
  import opened Runs
  import Order

  datatype SagaStatus = Pending | Running | Completed | Compensating | Failed
  datatype StepName = ReserveInventory | ProcessPayment | ConfirmOrder | EmitEvents
  datatype StepStatus = StepRunning | StepCompleted | StepFailed
  datatype Compensation = CompPending | CompCompleted | CompFailed
  datatype Output = Nothing | ReservedAll | Charged(transactionId: Option<string>) | MarkedPaid | EventWritten

  /** The persisted columns of a step that decisions depend on. */
  datatype Step = Step(
    name: StepName, stepOrder: nat, status: StepStatus, output: Output, compensation: Compensation)

  datatype EventType = OrderPaid | OrderFailed

  // --------------------------------------------------------------- entities

  /** The saga transitions; None is the thrown error. */
  function StartSaga(s: SagaStatus): Option<SagaStatus> {
    if s != Pending then None else Some(Running)
  }

  function CompleteSaga(s: SagaStatus): Option<SagaStatus> {
    if s != Running then None else Some(Completed)
  }

  function StartCompensation(s: SagaStatus): Option<SagaStatus> {
    if s != Running then None else Some(Compensating)
  }

  function CompleteCompensation(s: SagaStatus): Option<SagaStatus> {
    if s != Compensating then None else Some(Failed)
  }

  function CreateStep(name: StepName, stepOrder: nat): Step {
    Step(name, stepOrder, StepRunning, Nothing, CompPending)
  }

  function CompleteStep(s: Step, output: Output): Step {
    s.(status := StepCompleted, output := output)
  }

  function FailStep(s: Step): Step { s.(status := StepFailed) }

  function MarkStep(s: Step, ok: bool): Step {
    s.(compensation := if ok then CompCompleted else CompFailed)
  }

  // ------------------------------------------------------------------ state

  /** What a reservation or release call did: how many of the sorted items it
      wrote, and whether it returned true. */
  datatype StockCall = StockCall(ok: bool, count: nat)

  /** What the payment service answered to a charge. */
  datatype Charge = Declined | Accepted(transactionId: Option<string>)

  /** Where the orchestrator is; the parameters are its local variables. */
  datatype Pc =
    | Creating | Starting
    | BeginReserve | Reserving | EndReserve(ok: bool)
    | BeginPayment | Charging | EndPayment(answer: Charge)
    | BeginConfirm | BeginEmit | Committing | EndConfirm | EndEmit | Completing
    | EnterCompensation | ReadSteps
    | Refunding(tx: string) | MarkRefund(refunded: bool)
    | Releasing | MarkRelease(released: bool) | Cancelling | Failing
    | Stopped

  /** The persisted rows, the external effects, and the place in the program.
      `size` is the number of items in the order. */
  datatype State = State(
    pc: Pc,
    saga: Option<SagaStatus>, steps: seq<Step>, order: Order.OrderStatus, outbox: seq<EventType>,
    reservation: Option<StockCall>, charge: Option<Charge>,
    refunds: seq<string>, refundAnswer: Option<bool>, release: Option<StockCall>,
    size: nat)

  function Initial(size: nat): State {
    State(Creating, None, [], Order.Pending, [], None, None, [], None, None, size)
  }

  datatype Action =
    | Write                                   // the next persisted write, as the program determines it
    | Reserve(call: StockCall, threw: bool)   // reserveInventory returns, or throws
    | ChargeCard(answer: Charge)              // paymentService.charge always returns
    | RefundCard(ok: bool)                    // so does paymentService.refund
    | ReleaseStock(call: StockCall, threw: bool)
    | CancelFails                             // the cancelling transaction rejects and is logged
    | Stop                                    // crash, or a rejected call that propagates
    | AdminCompensate                         // the admin route on a saga that is RUNNING

  /** A reservation or release call is exact: all items on true, fewer on false. */
  predicate PossibleCall(call: StockCall, threw: bool, size: nat) {
    && call.count <= size
    && (call.ok ==> !threw && call.count == size)
    && (!call.ok && !threw ==> call.count < size)
  }

  /** `steps.find`: the first step of that name, and completed if that is asked for. */
  function Find(steps: seq<Step>, name: StepName, completed: bool): (r: Option<nat>)
    ensures r.Some? ==> r.value < |steps| && steps[r.value].name == name
  {
    if steps == [] then None
    else
      var earlier := Find(steps[..|steps| - 1], name, completed);
      var last := steps[|steps| - 1];
      if earlier.Some? then earlier
      else if last.name == name && (completed ==> last.status == StepCompleted) then Some(|steps| - 1)
      else None
  }

  /** The transaction id that compensation finds in the persisted steps, if it is not empty. */
  function RefundableId(steps: seq<Step>): Option<string> {
    var i := Find(steps, ProcessPayment, true);
    if i.Some? && steps[i.value].output.Charged?
       && steps[i.value].output.transactionId.Some? && steps[i.value].output.transactionId.value != ""
    then steps[i.value].output.transactionId else None
  }

  function Next(s: State, a: Action): Option<State> {
    match a
    case Write => NextWrite(s)
    case Reserve(call, threw) =>
      if s.pc != Reserving || !PossibleCall(call, threw, s.size) then None
      else Some(s.(reservation := Some(call), pc := if threw then Stopped else EndReserve(call.ok)))
    case ChargeCard(answer) =>
      if s.pc != Charging then None else Some(s.(charge := Some(answer), pc := EndPayment(answer)))
    case RefundCard(ok) =>
      if !s.pc.Refunding? then None else Some(s.(refunds := s.refunds + [s.pc.tx], refundAnswer := Some(ok), pc := MarkRefund(ok)))
    case ReleaseStock(call, threw) =>
      if s.pc != Releasing || !PossibleCall(call, threw, s.size) then None
      else Some(s.(release := Some(call), pc := if threw then Stopped else MarkRelease(call.ok)))
    case CancelFails => if s.pc != Cancelling then None else Some(s.(pc := Failing))
    case Stop => if s.pc == Stopped then None else Some(s.(pc := Stopped))
    case AdminCompensate =>
      if s.pc != Stopped || s.saga != Some(Running) then None else Some(s.(pc := EnterCompensation))
  }

  /** A write of the saga row that the entity's guard allows. */
  function SetSaga(s: State, to: Option<SagaStatus>, pc: Pc): Option<State> {
    if to.None? then None else Some(s.(saga := to, pc := pc))
  }

  function Begin(s: State, name: StepName, pc: Pc): Option<State> {
    Some(s.(steps := s.steps + [CreateStep(name, |s.steps|)], pc := pc))
  }

  function End(s: State, i: nat, step: Step, pc: Pc): Option<State> {
    if i >= |s.steps| then None else Some(s.(steps := s.steps[i := step], pc := pc))
  }

  /** The next persisted write. */
  function NextWrite(s: State): Option<State> {
    if s.pc.Creating? || s.pc.Starting? || s.pc.Completing? || s.pc.EnterCompensation? || s.pc.Failing?
    then NextSagaWrite(s)
    else if s.pc.ReadSteps? || s.pc.MarkRefund? || s.pc.MarkRelease? || s.pc.Cancelling? then NextUndo(s)
    else NextForward(s)
  }

  /** Writes of the saga row. */
  function NextSagaWrite(s: State): Option<State> {
    match s.pc
    case Creating => Some(s.(saga := Some(Pending), pc := Starting))
    case Starting => if s.saga.None? then None else SetSaga(s, StartSaga(s.saga.value), BeginReserve)
    case Completing => if s.saga.None? then None else SetSaga(s, CompleteSaga(s.saga.value), Stopped)
    case EnterCompensation => if s.saga.None? then None else SetSaga(s, StartCompensation(s.saga.value), ReadSteps)
    case Failing => if s.saga.None? then None else SetSaga(s, CompleteCompensation(s.saga.value), Stopped)
    case _ => None
  }

  /** The forward steps: begin and end each, and the confirming transaction. */
  function NextForward(s: State): Option<State> {
    match s.pc
    case BeginReserve => Begin(s, ReserveInventory, Reserving)
    case EndReserve(ok) =>
      if ok then End(s, 0, CompleteStep(CreateStep(ReserveInventory, 0), ReservedAll), BeginPayment)
      else End(s, 0, FailStep(CreateStep(ReserveInventory, 0)), EnterCompensation)
    case BeginPayment => Begin(s, ProcessPayment, Charging)
    case EndPayment(answer) =>
      if answer.Accepted?
      then End(s, 1, CompleteStep(CreateStep(ProcessPayment, 1), Charged(answer.transactionId)), BeginConfirm)
      else End(s, 1, FailStep(CreateStep(ProcessPayment, 1)), EnterCompensation)
    case BeginConfirm => Begin(s, ConfirmOrder, BeginEmit)
    case BeginEmit => Begin(s, EmitEvents, Committing)
    case Committing => Some(s.(order := Order.Paid, outbox := s.outbox + [OrderPaid], pc := EndConfirm))
    case EndConfirm => End(s, 2, CompleteStep(CreateStep(ConfirmOrder, 2), MarkedPaid), EndEmit)
    case EndEmit => End(s, 3, CompleteStep(CreateStep(EmitEvents, 3), EventWritten), Completing)
    case _ => None
  }

  /** The compensating steps: read the log, mark refund and release, cancel. */
  function NextUndo(s: State): Option<State> {
    match s.pc
    case ReadSteps =>
      var tx := RefundableId(s.steps);
      Some(s.(pc := if tx.Some? then Refunding(tx.value) else Releasing))
    case MarkRefund(refunded) =>
      var i := Find(s.steps, ProcessPayment, false);
      if i.None? then Some(s.(pc := Releasing)) else End(s, i.value, MarkStep(s.steps[i.value], refunded), Releasing)
    case MarkRelease(released) =>
      var i := Find(s.steps, ReserveInventory, false);
      if i.None? then Some(s.(pc := Cancelling)) else End(s, i.value, MarkStep(s.steps[i.value], released), Cancelling)
    case Cancelling => Some(s.(order := Order.Cancelled, outbox := s.outbox + [OrderFailed], pc := Failing))
    case _ => None
  }
}

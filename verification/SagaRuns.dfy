/** Runs of one saga in which a promise of its design is not kept. */
module SagaRuns {
  import opened Runs
  import opened Inventory
  import opened Discipline
  import opened JournalLedger
  import Order
  import opened Saga
  import opened SagaTheorems
  import opened SagaStock

  const RESERVED := CompleteStep(CreateStep(ReserveInventory, 0), ReservedAll)
  const CHARGED := CompleteStep(CreateStep(ProcessPayment, 1), Charged(Some("ch_1")))
  const ACCEPTED := Accepted(Some("ch_1"))

  lemma AtTheReservation() returns (acts: seq<Action>, s: State)
    ensures Exec(Next, Initial(1), acts) == Some(s)
    ensures s == State(Reserving, Some(Running), [CreateStep(ReserveInventory, 0)],
      Order.Pending, [], None, None, [], None, None, 1)
  {
    acts, s := [], Initial(1);
    acts, s := Then(Next, Initial(1), acts, s, Write);
    acts, s := Then(Next, Initial(1), acts, s, Write);
    acts, s := Then(Next, Initial(1), acts, s, Write);
  }

  lemma AtTheCharge() returns (acts: seq<Action>, s: State)
    ensures Exec(Next, Initial(1), acts) == Some(s)
    ensures s == State(Charging, Some(Running), [RESERVED, CreateStep(ProcessPayment, 1)],
      Order.Pending, [], Some(StockCall(true, 1)), None, [], None, None, 1)
  {
    acts, s := AtTheReservation();
    acts, s := Then(Next, Initial(1), acts, s, Action.Reserve(StockCall(true, 1), false));
    acts, s := Then(Next, Initial(1), acts, s, Write);
    acts, s := Then(Next, Initial(1), acts, s, Write);
  }

  lemma AfterThePayment() returns (acts: seq<Action>, s: State)
    ensures Exec(Next, Initial(1), acts) == Some(s)
    ensures s == State(BeginConfirm, Some(Running), [RESERVED, CHARGED],
      Order.Pending, [], Some(StockCall(true, 1)), Some(ACCEPTED), [], None, None, 1)
  {
    acts, s := AtTheCharge();
    acts, s := Then(Next, Initial(1), acts, s, ChargeCard(ACCEPTED));
    acts, s := Then(Next, Initial(1), acts, s, Write);
  }

  lemma AfterTheCommit() returns (acts: seq<Action>, s: State)
    ensures Exec(Next, Initial(1), acts) == Some(s)
    ensures s == State(EndConfirm, Some(Running),
      [RESERVED, CHARGED, CreateStep(ConfirmOrder, 2), CreateStep(EmitEvents, 3)],
      Order.Paid, [OrderPaid], Some(StockCall(true, 1)), Some(ACCEPTED), [], None, None, 1)
  {
    acts, s := AfterThePayment();
    acts, s := Then(Next, Initial(1), acts, s, Write);
    acts, s := Then(Next, Initial(1), acts, s, Write);
    acts, s := Then(Next, Initial(1), acts, s, Write);
  }

  /** A running saga stops and is taken up by a compensation. */
  lemma StopAndCompensate(acts: seq<Action>, s: State) returns (longer: seq<Action>, t: State)
    requires Exec(Next, Initial(1), acts) == Some(s) && s.pc != Stopped && s.saga == Some(Running)
    ensures Exec(Next, Initial(1), longer) == Some(t)
    ensures t == s.(saga := Some(Compensating), pc := ReadSteps)
  {
    longer, t := Then(Next, Initial(1), acts, s, Stop);
    longer, t := Then(Next, Initial(1), longer, t, AdminCompensate);
    longer, t := Then(Next, Initial(1), longer, t, Write);
  }

  ghost predicate SameStatuses(before: seq<Step>, after: seq<Step>) {
    |after| == |before| && forall i :: 0 <= i < |before| ==> after[i].status == before[i].status
  }

  /** The rest of a compensation, from the release of stock on, up to the cancelling. */
  lemma ComeToCancelling(acts: seq<Action>, s: State, call: StockCall) returns (longer: seq<Action>, t: State)
    requires Exec(Next, Initial(1), acts) == Some(s) && s.size == 1 && s.pc == Releasing
    requires PossibleCall(call, false, 1)
    ensures Exec(Next, Initial(1), longer) == Some(t)
    ensures t == s.(pc := Cancelling, release := Some(call), steps := t.steps)
    ensures SameStatuses(s.steps, t.steps)
  {
    longer, t := Then(Next, Initial(1), acts, s, ReleaseStock(call, false));
    longer, t := Then(Next, Initial(1), longer, t, Write);
  }

  /** And from there to its end, with the cancelling transaction failing or not. */
  lemma LeaveCompensation(acts: seq<Action>, s: State, call: StockCall, cancels: bool)
    returns (longer: seq<Action>, t: State)
    requires Exec(Next, Initial(1), acts) == Some(s) && s.size == 1
    requires s.pc == Releasing && s.saga == Some(Compensating) && PossibleCall(call, false, 1)
    ensures Exec(Next, Initial(1), longer) == Some(t)
    ensures t.pc == Stopped && t.saga == Some(Failed) && t.release == Some(call)
    ensures t.charge == s.charge && t.refunds == s.refunds && t.reservation == s.reservation && t.size == s.size
    ensures t.order == if cancels then Order.Cancelled else s.order
    ensures SameStatuses(s.steps, t.steps)
  {
    longer, t := ComeToCancelling(acts, s, call);
    longer, t := Then(Next, Initial(1), longer, t, if cancels then Write else CancelFails);
    longer, t := Then(Next, Initial(1), longer, t, Write);
  }

  /** The failing case of ChargeKeptIff: a failed saga, a charge, no refund. */
  lemma ChargeLost() returns (acts: seq<Action>, s: State)
    ensures Exec(Next, Initial(1), acts) == Some(s)
    ensures s.saga == Some(Failed) && s.charge == Some(ACCEPTED) && s.refunds == []
  {
    acts, s := AtTheCharge();
    acts, s := Then(Next, Initial(1), acts, s, ChargeCard(ACCEPTED));
    acts, s := StopAndCompensate(acts, s);
    FindByName(s.steps, ProcessPayment, true, 1);
    acts, s := Then(Next, Initial(1), acts, s, Write);
    acts, s := LeaveCompensation(acts, s, StockCall(true, 1), true);
  }

  /** The other failing case: the gateway accepts without a transaction id. */
  lemma ChargeWithoutIdKept() returns (acts: seq<Action>, s: State)
    ensures Exec(Next, Initial(1), acts) == Some(s)
    ensures s.saga == Some(Failed) && s.charge == Some(Accepted(None)) && s.refunds == []
    ensures |s.steps| > 1 && s.steps[1].status == StepCompleted
  {
    acts, s := PaidWithoutId();
    acts, s := StopAndCompensate(acts, s);
    FindByName(s.steps, ProcessPayment, true, 1);
    acts, s := Then(Next, Initial(1), acts, s, Write);
    acts, s := LeaveCompensation(acts, s, StockCall(true, 1), true);
  }

  lemma PaidWithoutId() returns (acts: seq<Action>, s: State)
    ensures Exec(Next, Initial(1), acts) == Some(s)
    ensures s == State(BeginConfirm, Some(Running), [RESERVED, CompleteStep(CreateStep(ProcessPayment, 1), Charged(None))],
      Order.Pending, [], Some(StockCall(true, 1)), Some(Accepted(None)), [], None, None, 1)
  {
    acts, s := AtTheCharge();
    acts, s := Then(Next, Initial(1), acts, s, ChargeCard(Accepted(None)));
    acts, s := Then(Next, Initial(1), acts, s, Write);
  }

  /** "A refund is always attempted" fails for a payment step that is COMPLETED with
      its transaction id: a compensation that stops before its refund is final. */
  lemma RefundNeverAsked() returns (acts: seq<Action>, s: State)
    ensures Exec(Next, Initial(1), acts) == Some(s)
    ensures s.pc == Stopped && s.saga == Some(Compensating) && s.refunds == []
    ensures |s.steps| > 1 && s.steps[1] == CHARGED && s.steps[1].name == ProcessPayment
    ensures forall more, t :: Exec(Next, s, more) == Some(t) ==> t == s
  {
    acts, s := AfterThePayment();
    acts, s := StopAndCompensate(acts, s);
    acts, s := Then(Next, Initial(1), acts, s, Stop);
    forall more, t | Exec(Next, s, more) == Some(t) ensures t == s {
      InterruptedCompensationIsFinal(s, more, t);
    }
  }

  /** The off-table change of StatusChangesAreLawful: a paid order is cancelled. */
  lemma PaidOrderCancelled() returns (acts: seq<Action>, s: State, t: State)
    ensures Exec(Next, Initial(1), acts) == Some(s) && Next(s, Write) == Some(t)
    ensures s.order == Order.Paid && t.order == Order.Cancelled && !Order.CanTransition(s.order, t.order)
  {
    acts, s := PaidAndRefunded();
    acts, s := ComeToCancelling(acts, s, StockCall(true, 1));
    t := Next(s, Write).value;
  }

  lemma PaidAndRefunded() returns (acts: seq<Action>, s: State)
    ensures Exec(Next, Initial(1), acts) == Some(s)
    ensures s.pc == Releasing && s.order == Order.Paid && s.size == 1 && s.outbox == [OrderPaid]
  {
    acts, s := AfterTheCommit();
    acts, s := StopAndCompensate(acts, s);
    Reached(1, acts, s);
    acts, s := RefundAndRelease(acts, s);
  }

  lemma RefundAndRelease(acts: seq<Action>, s: State) returns (longer: seq<Action>, t: State)
    requires Exec(Next, Initial(1), acts) == Some(s) && s.pc == ReadSteps && CrashConsistent(s)
    requires |s.steps| > 1 && s.steps[1] == CHARGED
    ensures Exec(Next, Initial(1), longer) == Some(t)
    ensures t == s.(pc := Releasing, refunds := s.refunds + ["ch_1"], refundAnswer := Some(true), steps := t.steps)
  {
    FindByName(s.steps, ProcessPayment, true, 1);
    FindByName(s.steps, ProcessPayment, false, 1);
    longer, t := Then(Next, Initial(1), acts, s, Write);
    longer, t := Then(Next, Initial(1), longer, t, RefundCard(true));
    longer, t := Then(Next, Initial(1), longer, t, Write);
  }

  /** A reservation is refused, and the compensation that follows releases the stock. */
  lemma RefusedAndReleased(cancels: bool) returns (acts: seq<Action>, s: State)
    ensures Exec(Next, Initial(1), acts) == Some(s)
    ensures s.saga == Some(Failed) && s.size == 1
    ensures s.reservation == Some(StockCall(false, 0)) && s.release == Some(StockCall(true, 1))
    ensures s.order == if cancels then Order.Cancelled else Order.Pending
  {
    acts, s := AtTheReservation();
    acts, s := Then(Next, Initial(1), acts, s, Action.Reserve(StockCall(false, 0), false));
    acts, s := Then(Next, Initial(1), acts, s, Write);
    acts, s := Then(Next, Initial(1), acts, s, Write);
    FindByName(s.steps, ProcessPayment, true, 1);
    acts, s := Then(Next, Initial(1), acts, s, Write);
    acts, s := LeaveCompensation(acts, s, StockCall(true, 1), cancels);
  }

  /** The failing case of CancelledIff: a FAILED saga whose order is still PENDING. */
  lemma OrderLeftPending() returns (acts: seq<Action>, s: State)
    ensures Exec(Next, Initial(1), acts) == Some(s)
    ensures s.saga == Some(Failed) && s.order == Order.Pending
  {
    acts, s := RefusedAndReleased(false);
  }

  /** The failing case of RestoredIff: nobody has reserved anything, the row is
      empty, and after the saga there is one piece to sell. */
  lemma StockFromNothing() returns (acts: seq<Action>, s: State, journal: seq<Event>, t: Shared)
    ensures Exec(Next, Initial(1), acts) == Some(s) && s.saga == Some(Failed)
    ensures s.release.Some? && s.release.value.ok
    ensures StockOf(s, [Item(7, 1)], map[7 := Row(0, 0, 1)], journal, 0, t)
    ensures 7 in t.stock && t.stock[7].available == 1
  {
    acts, s := RefusedAndReleased(true);
    journal, t := ReleaseOnly();
    var sorted := [Item(7, 1)];
    assert sorted[..0] == [] && sorted[..1] == sorted && sorted[..0] == sorted[..1][..0];
    assert Footprint(journal, 0, sorted, 0, 1);
  }

  /** Lock, find the row too low, unlock; then lock, release, unlock. */
  lemma ReleaseOnly() returns (journal: seq<Event>, t: Shared)
    ensures LeadsTo(map[7 := Row(0, 0, 1)], journal, t)
    ensures Writes(journal, 0) == [Released(0, 7, 1)]
    ensures 7 in t.stock && t.stock[7].available == 1
  {
    var base := map[7 := Row(0, 0, 1)];
    journal, t := [], Shared(base, map[]);
    journal, t := Happens(base, journal, t, Locked(0, 7));
    journal, t := Happens(base, journal, t, Unlocked(0, 7));
    journal, t := Happens(base, journal, t, Locked(0, 7));
    journal, t := Happens(base, journal, t, Released(0, 7, 1));
    journal, t := Happens(base, journal, t, Unlocked(0, 7));
  }

  lemma Happens(base: Table, journal: seq<Event>, t: Shared, e: Event) returns (longer: seq<Event>, u: Shared)
    requires LeadsTo(base, journal, t) && Follow(t, e).Some?
    ensures LeadsTo(base, longer, u) && u == Follow(t, e).value
    ensures Writes(longer, 0) == Writes(journal, 0) + if e.who == 0 && (e.Reserved? || e.Released?) then [e] else []
    ensures OthersEffect(longer, 0, 7) == OthersEffect(journal, 0, 7) + if e.who == 0 then 0 else Effect(e, 7)
  {
    longer, u := Then(Follow, Shared(base, map[]), journal, t, e);
    WritesAppend(journal, e, 0);
    assert longer[..|journal|] == journal;
  }

  /** A payment is declined, and the one release call finds the lock taken. */
  lemma DeclinedNotReleased() returns (acts: seq<Action>, s: State)
    ensures Exec(Next, Initial(1), acts) == Some(s)
    ensures s.pc == Stopped && s.saga == Some(Failed) && s.order == Order.Cancelled && s.size == 1
    ensures s.reservation == Some(StockCall(true, 1)) && s.release == Some(StockCall(false, 0))
    ensures s.charge == Some(Declined)
  {
    acts, s := AtTheCharge();
    acts, s := Then(Next, Initial(1), acts, s, ChargeCard(Declined));
    acts, s := Then(Next, Initial(1), acts, s, Write);
    acts, s := Then(Next, Initial(1), acts, s, Write);
    FindByName(s.steps, ProcessPayment, true, 1);
    acts, s := Then(Next, Initial(1), acts, s, Write);
    acts, s := LeaveCompensation(acts, s, StockCall(false, 0), true);
  }

  /** The failing case of ReleasedIff: the saga reserved the one piece there was, its
      payment was declined, another caller held the lock when it released, and
      the piece stays reserved in every further run. */
  lemma StockNeverReleased() returns (acts: seq<Action>, s: State, journal: seq<Event>, t: Shared)
    ensures Exec(Next, Initial(1), acts) == Some(s) && s.saga == Some(Failed) && s.order == Order.Cancelled
    ensures s.charge == Some(Declined) && s.release == Some(StockCall(false, 0))
    ensures StockOf(s, [Item(7, 1)], map[7 := Row(1, 0, 1)], journal, 0, t)
    ensures 7 in t.holder && t.holder[7] == 1
    ensures t.stock == map[7 := Row(0, 1, 2)] && WithoutUs(map[7 := Row(1, 0, 1)], journal, 0, 7) == 1
    ensures forall more, u :: Exec(Next, s, more) == Some(u) ==> u == s
  {
    acts, s := DeclinedNotReleased();
    journal, t := ReservedThenLocked();
    var sorted := [Item(7, 1)];
    assert sorted[..0] == [] && sorted[..1] == sorted && sorted[..0] == sorted[..1][..0];
    assert Footprint(journal, 0, sorted, 1, 0);
    forall more, u | Exec(Next, s, more) == Some(u) ensures u == s {
      InterruptedCompensationIsFinal(s, more, u);
    }
  }

  /** Lock, reserve, unlock; then another caller locks. */
  lemma ReservedThenLocked() returns (journal: seq<Event>, t: Shared)
    ensures LeadsTo(map[7 := Row(1, 0, 1)], journal, t)
    ensures Writes(journal, 0) == [Reserved(0, 7, 1)] && OthersEffect(journal, 0, 7) == 0
    ensures t.stock == map[7 := Row(0, 1, 2)] && 7 in t.holder && t.holder[7] == 1
  {
    var base := map[7 := Row(1, 0, 1)];
    journal, t := [], Shared(base, map[]);
    journal, t := Happens(base, journal, t, Locked(0, 7));
    journal, t := Happens(base, journal, t, Reserved(0, 7, 1));
    journal, t := Happens(base, journal, t, Unlocked(0, 7));
    journal, t := Happens(base, journal, t, Locked(1, 7));
  }
}

/** What one saga does to the stock rows, at every point where it can stop and
    however many other callers write the same rows meanwhile. */
module SagaStock {
  import opened Runs
  import opened Inventory
  import opened Sorting
  import opened Discipline
  import opened JournalLedger
  import opened Saga
  import opened SagaTheorems

  /** How many items a stock call wrote, 0 when there was none. */
  function Count(call: Option<StockCall>): nat {
    if call.Some? then call.value.count else 0
  }

  /** The outcome of a reservation or release is exact, whatever the saga's state. */
  ghost predicate CallsExact(s: State) {
    && (s.reservation.Some? ==>
         s.reservation.value.count <= s.size && (s.reservation.value.ok ==> s.reservation.value.count == s.size))
    && (s.release.Some? ==>
         s.release.value.count <= s.size && (s.release.value.ok ==> s.release.value.count == s.size))
  }

  lemma ReachedCalls(size: nat, acts: seq<Action>, s: State)
    requires Exec(Next, Initial(size), acts) == Some(s)
    ensures CallsExact(s)
  {
    forall t, a | CallsExact(t) && Anything(a) && Next(t, a).Some? ensures CallsExact(Next(t, a).value) {
      CallsStayExact(t, a);
    }
    Invariant(Next, Initial(size), acts, Anything, CallsExact);
  }

  lemma CallsStayExact(s: State, a: Action)
    requires CallsExact(s) && Next(s, a).Some?
    ensures CallsExact(Next(s, a).value)
  {
    if a == Write { WritesCallNothing(s); }
  }

  lemma WritesCallNothing(s: State)
    requires NextWrite(s).Some?
    ensures var t := NextWrite(s).value;
      t.reservation == s.reservation && t.release == s.release && t.size == s.size
  {
  }

  /** Nothing is charged, let alone completed, before the whole list is reserved. */
  lemma ChargeFollowsReservation(s: State)
    requires Inv(s) && CallsExact(s)
    requires s.charge.Some? || s.saga == Some(Completed)
    ensures Count(s.reservation) == s.size
    ensures s.saga == Some(Completed) ==> Count(s.release) == 0
    ensures s.release.Some? && s.release.value.ok ==> Count(s.release) == s.size
  {
  }

  lemma ChargedState(size: nat, acts: seq<Action>, s: State)
    requires Exec(Next, Initial(size), acts) == Some(s)
    requires s.charge.Some? || s.saga == Some(Completed)
    ensures Count(s.reservation) == s.size
    ensures s.saga == Some(Completed) ==> Count(s.release) == 0
    ensures s.release.Some? && s.release.value.ok ==> Count(s.release) == s.size
  {
    Reached(size, acts, s);
    ReachedCalls(size, acts, s);
    ChargeFollowsReservation(s);
  }

  // -------------------------------------------------------- on the real rows

  /** The journal of all callers, with this saga's stock calls as its writes. */
  ghost predicate StockOf(s: State, sorted: seq<Item>, base: Table, journal: seq<Event>, me: nat, t: Shared) {
    && s.size == |sorted|
    && LeadsTo(base, journal, t)
    && Footprint(journal, me, sorted, Count(s.reservation), Count(s.release))
  }

  /** What the rows would hold if this saga had never touched them. */
  function WithoutUs(base: Table, journal: seq<Event>, me: nat, sku: Sku): int
    requires sku in base
  {
    base[sku].available + OthersEffect(journal, me, sku)
  }

  /** The exact available stock at every point where a saga can stop. */
  lemma NetEffect(s: State, sorted: seq<Item>, base: Table, journal: seq<Event>, me: nat, t: Shared, sku: Sku)
    requires StockOf(s, sorted, base, journal, me, t) && sku in base
    ensures sku in t.stock
    ensures t.stock[sku].available == WithoutUs(base, journal, me, sku)
      - Quantity(sorted[..Count(s.reservation)], sku) + Quantity(sorted[..Count(s.release)], sku)
  {
    NetAvailable(base, journal, t, me, sorted, Count(s.reservation), Count(s.release), sku);
  }

  /** A completed saga has taken every quantity out of available stock; and it has
      put it into reserved exactly when nobody over-released the row. */
  lemma CompletionMovesStock(size: nat, acts: seq<Action>, s: State, sorted: seq<Item>,
                             base: Table, journal: seq<Event>, me: nat, t: Shared, sku: Sku)
    requires Exec(Next, Initial(size), acts) == Some(s) && s.saga == Some(Completed)
    requires StockOf(s, sorted, base, journal, me, t) && sku in base
    ensures sku in t.stock
    ensures t.stock[sku].available == WithoutUs(base, journal, me, sku) - Quantity(sorted, sku)
    ensures t.stock[sku].reserved == base[sku].reserved - OthersEffect(journal, me, sku) + Quantity(sorted, sku)
       <==> !OverReleased(base[sku], CallsOn(journal, sku))
  {
    ChargedState(size, acts, s);
    NetEffect(s, sorted, base, journal, me, t, sku);
    NetReservedIff(base, journal, t, me, sorted, |sorted|, 0, sku);
    assert sorted[..|sorted|] == sorted;
  }

  /** A saga that failed after it had tried to charge, and whose release returned
      true, leaves available stock as if it had never been; and reserved stock
      too, exactly when nobody over-released the row. */
  lemma PaymentFailureRestoresStock(size: nat, acts: seq<Action>, s: State, sorted: seq<Item>,
                                    base: Table, journal: seq<Event>, me: nat, t: Shared, sku: Sku)
    requires Exec(Next, Initial(size), acts) == Some(s)
    requires s.charge.Some? && s.release.Some? && s.release.value.ok
    requires StockOf(s, sorted, base, journal, me, t) && sku in base
    ensures sku in t.stock
    ensures t.stock[sku].available == WithoutUs(base, journal, me, sku)
    ensures t.stock[sku].reserved == base[sku].reserved - OthersEffect(journal, me, sku)
       <==> !OverReleased(base[sku], CallsOn(journal, sku))
  {
    ChargedState(size, acts, s);
    NetEffect(s, sorted, base, journal, me, t, sku);
    NetReservedIff(base, journal, t, me, sorted, |sorted|, |sorted|, sku);
  }

  /** In a list of different SKUs, a prefix asks for an item's own quantity or nothing. */
  lemma {:induction false} QuantityWhenDistinct(items: seq<Item>, k: nat, i: nat)
    requires DistinctSkus(items) && k <= |items| && i < |items|
    ensures Quantity(items[..k], items[i].sku) == if i < k then items[i].quantity else 0
  {
    if k > 0 {
      assert items[..k][..k - 1] == items[..k - 1];
      QuantityWhenDistinct(items, k - 1, i);
    }
  }

  /** A reservation that stopped at sorted index k, then a release that returned
      true: items before k are restored; from k on, the quantity that was never
      reserved is added to available, and on a row that nobody else wrote it is
      taken from reserved as far as that goes. */
  lemma ReservationFailureInflatesStock(size: nat, acts: seq<Action>, s: State, sorted: seq<Item>, i: nat,
                                        base: Table, journal: seq<Event>, me: nat, t: Shared)
    requires Exec(Next, Initial(size), acts) == Some(s)
    requires s.release.Some? && s.release.value.ok
    requires StockOf(s, sorted, base, journal, me, t) && DistinctSkus(sorted) && i < |sorted|
    ensures sorted[i].sku in base && sorted[i].sku in t.stock
    ensures var sku := sorted[i].sku;
      var lost := if i < Count(s.reservation) then 0 else sorted[i].quantity;
      && t.stock[sku].available == WithoutUs(base, journal, me, sku) + lost
      && (Quiet(journal, me, sku) ==> t.stock[sku].reserved == Max(0, base[sku].reserved - lost))
  {
    var sku, k := sorted[i].sku, Count(s.reservation);
    ReachedCalls(size, acts, s);
    WrittenSkusExist(base, journal, t, me, sorted, k, |sorted|, i);
    NetEffect(s, sorted, base, journal, me, t, sku);
    QuantityWhenDistinct(sorted, k, i);
    QuantityWhenDistinct(sorted, |sorted|, i);
    if Quiet(journal, me, sku) { QuietReserved(base, journal, t, me, sorted, k, |sorted|, sku); }
  }

  /** The available stock is what the other callers alone would have left; a SKU
      without a row has nothing to restore. */
  ghost predicate Restored(base: Table, journal: seq<Event>, me: nat, t: Shared, sku: Sku) {
    sku in base ==> sku in t.stock && t.stock[sku].available == WithoutUs(base, journal, me, sku)
  }

  /** Every item of the order is restored. */
  ghost predicate AllRestored(sorted: seq<Item>, base: Table, journal: seq<Event>, me: nat, t: Shared) {
    forall i :: 0 <= i < |sorted| ==> Restored(base, journal, me, t, sorted[i].sku)
  }

  /** A longer prefix asks for more, by at least the quantity of its next item. */
  lemma {:induction false} QuantityGrows(items: seq<Item>, k: nat, m: nat, sku: Sku)
    requires k <= m <= |items|
    ensures Quantity(items[..k], sku) <= Quantity(items[..m], sku)
    ensures k < m && items[k].sku == sku ==>
      Quantity(items[..k], sku) + items[k].quantity <= Quantity(items[..m], sku)
  {
    if k < m {
      assert items[..m][..k] == items[..k] && items[..m][k] == items[k];
      QuantityOfPrefix(items[..m], k, sku);
    }
  }

  /** The one item that tells a reservation from a release that wrote more or less. */
  lemma UnevenIsNotRestored(s: State, sorted: seq<Item>, base: Table, journal: seq<Event>, me: nat, t: Shared)
    requires StockOf(s, sorted, base, journal, me, t) && Count(s.reservation) != Count(s.release)
    requires forall i :: 0 <= i < |sorted| ==> sorted[i].quantity > 0
    ensures !AllRestored(sorted, base, journal, me, t)
  {
    var r, m := Count(s.reservation), Count(s.release);
    var k := if r < m then r else m;
    var sku := sorted[k].sku;
    WrittenSkusExist(base, journal, t, me, sorted, r, m, k);
    NetEffect(s, sorted, base, journal, me, t, sku);
    QuantityGrows(sorted, k, if r < m then m else r, sku);
    assert !Restored(base, journal, me, t, sku);
  }

  /** The intended "compensation restores the previous state", and when it holds, at
      every point where a saga can stop: the available stock of every item is what
      the other callers alone would have left, exactly when the release wrote as
      many items as the reservation. */
  lemma RestoredIff(s: State, sorted: seq<Item>, base: Table, journal: seq<Event>, me: nat, t: Shared)
    requires StockOf(s, sorted, base, journal, me, t)
    requires forall i :: 0 <= i < |sorted| ==> sorted[i].quantity > 0
    ensures AllRestored(sorted, base, journal, me, t) <==> Count(s.reservation) == Count(s.release)
  {
    if Count(s.reservation) == Count(s.release) {
      forall i | 0 <= i < |sorted| ensures Restored(base, journal, me, t, sorted[i].sku) {
        if sorted[i].sku in base { NetEffect(s, sorted, base, journal, me, t, sorted[i].sku); }
      }
    } else {
      UnevenIsNotRestored(s, sorted, base, journal, me, t);
    }
  }

  /** "If the reservation completed, inventory is always released", and when it
      holds: a FAILED saga whose reservation step is completed has restored every
      item exactly when its one release returned true. */
  lemma ReleasedIff(size: nat, acts: seq<Action>, s: State, sorted: seq<Item>,
                    base: Table, journal: seq<Event>, me: nat, t: Shared)
    requires Exec(Next, Initial(size), acts) == Some(s) && s.saga == Some(Failed) && Done(s, 0)
    requires StockOf(s, sorted, base, journal, me, t)
    requires forall i :: 0 <= i < |sorted| ==> sorted[i].quantity > 0
    ensures s.release.Some?
    ensures AllRestored(sorted, base, journal, me, t) <==> s.release.value.ok
  {
    ReleaseAttempted(size, acts, s);
    ReservedAll(size, acts, s);
    RestoredIff(s, sorted, base, journal, me, t);
  }

  lemma ReservedAll(size: nat, acts: seq<Action>, s: State)
    requires Exec(Next, Initial(size), acts) == Some(s) && Done(s, 0)
    ensures Count(s.reservation) == s.size
  {
    Reached(size, acts, s);
    ReachedCalls(size, acts, s);
  }
}

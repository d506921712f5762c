/** What holds over every interleaving of concurrent service calls. */
module ContentionTheorems {
  import opened Runs
  import opened Inventory
  import opened Sorting
  import opened Contention

  // ---------------------------------------------------------------- reaching

  lemma ReachedCallers(w0: World, acts: seq<Action>, w: World)
    requires Init(w0) && Exec(Next, w0, acts) == Some(w)
    ensures CallersInv(w)
  {
    forall t, a | CallersInv(t) && Anything(a) && Next(t, a).Some? ensures CallersInv(Next(t, a).value) {
      StepKeepsCallers(t, a);
    }
    Invariant(Next, w0, acts, Anything, CallersInv);
  }

  lemma ReachedLocks(w0: World, acts: seq<Action>, w: World)
    requires Init(w0) && Exec(Next, w0, acts) == Some(w)
    requires forall i :: 0 <= i < |acts| ==> Untampered(acts[i])
    ensures LockInv(w)
  {
    forall t, a | LockInv(t) && Untampered(a) && Next(t, a).Some? ensures LockInv(Next(t, a).value) {
      StepKeepsLocks(t, a);
    }
    Invariant(Next, w0, acts, Untampered, LockInv);
  }

  ghost predicate LedgerAndCallers(base: Table, w: World) {
    CallersInv(w) && LedgerInv(base, w)
  }

  lemma ReachedLedger(w0: World, acts: seq<Action>, w: World)
    requires Init(w0) && Exec(Next, w0, acts) == Some(w)
    ensures LedgerInv(w0.stock, w)
  {
    var inv := (t: World) => LedgerAndCallers(w0.stock, t);
    forall s, kind { NothingMovedYet(w0.callers, kind, s); }
    forall t, a | inv(t) && Anything(a) && Next(t, a).Some? ensures inv(Next(t, a).value) {
      StepKeepsCallers(t, a);
      StepKeepsLedger(w0.stock, t, a);
    }
    Invariant(Next, w0, acts, Anything, inv);
  }

  // ------------------------------------------------------------------ safety

  /** At most one caller holds the lock of a SKU. */
  lemma MutualExclusion(w0: World, acts: seq<Action>, w: World, i: nat, j: nat, sku: Sku)
    requires Init(w0) && Exec(Next, w0, acts) == Some(w)
    requires forall k :: 0 <= k < |acts| ==> Untampered(acts[k])
    requires i < |w.callers| && j < |w.callers|
    requires sku in w.callers[i].held && sku in w.callers[j].held
    ensures i == j
  {
    ReachedLocks(w0, acts, w);
    assert w.holder[sku] == i;
    assert w.holder[sku] == j;
  }

  /** Check-then-act is sound under the lock: the row that a caller checked is
      unchanged when its UPDATE runs, so the UPDATE never affects 0 rows. */
  lemma CheckThenActIsSound(w0: World, acts: seq<Action>, w: World, i: nat)
    requires Init(w0) && Exec(Next, w0, acts) == Some(w)
    requires forall k :: 0 <= k < |acts| ==> Untampered(acts[k])
    requires i < |w.callers| && w.callers[i].pc == Updating && w.callers[i].kind == Reserving
    ensures w.callers[i].done < |w.callers[i].items|
    ensures var item := w.callers[i].items[w.callers[i].done];
      && item.sku in w.stock
      && w.callers[i].seen == Some(w.stock[item.sku])
      && Statement(w.stock, Reserving, item).Some?
  {
    ReachedLocks(w0, acts, w);
    assert ReadStillValid(w, w.callers[i]);
  }

  /** While one caller holds the lock of a SKU, no step of another caller changes
      the row of that SKU or who holds its lock. */
  lemma OthersLeaveLockedRowsAlone(w0: World, acts: seq<Action>, w: World, a: Action, i: nat, sku: Sku)
    requires Init(w0) && Exec(Next, w0, acts) == Some(w)
    requires forall k :: 0 <= k < |acts| ==> Untampered(acts[k])
    requires Untampered(a) && Next(w, a).Some? && i < |w.callers| && a.i != i
    requires sku in w.callers[i].held
    ensures var w' := Next(w, a).value;
      && sku in w'.holder && w'.holder[sku] == i
      && (sku in w'.stock <==> sku in w.stock)
      && (sku in w.stock ==> w'.stock[sku] == w.stock[sku])
  {
    ReachedLocks(w0, acts, w);
    StepIsDisciplined(w, a);
    assert CallerInv(w.callers[i]);
  }

  /** No overselling, with no trust in the locks at all: whatever happens to the
      lock table, stock never goes below zero and what was granted on a SKU is at
      most its initial stock plus what was given back. */
  lemma NoOverselling(w0: World, acts: seq<Action>, w: World, sku: Sku)
    requires Init(w0) && Exec(Next, w0, acts) == Some(w) && sku in w0.stock
    ensures sku in w.stock
    ensures w.stock[sku].available
         == w0.stock[sku].available + Moved(w.callers, Releasing, sku) - Moved(w.callers, Reserving, sku)
    ensures Moved(w.callers, Reserving, sku)
         <= w0.stock[sku].available + Moved(w.callers, Releasing, sku)
  {
    ReachedLedger(w0, acts, w);
    assert w.stock[sku].available >= 0;
  }

  /** What each way of returning says about how far the caller got: true means that
      the UPDATE of every item committed, false that those of a strict prefix of
      the sorted list did. It holds no lock by then. */
  lemma VerdictIsExact(w0: World, acts: seq<Action>, w: World, i: nat)
    requires Init(w0) && Exec(Next, w0, acts) == Some(w)
    requires i < |w.callers| && w.callers[i].pc == Returned
    ensures var c := w.callers[i];
      && c.held == {}
      && c.done <= |c.items|
      && (c.verdict == Succeeded ==> c.done == |c.items|)
      && (c.verdict == Contended || c.verdict == Refused ==> c.done < |c.items|)
  {
    ReachedCallers(w0, acts, w);
    assert CallerInv(w.callers[i]);
  }

  /** A second acquire of a lock already held answers null, so only a list of
      pairwise distinct SKUs can succeed. */
  lemma SuccessMeansDistinct(w0: World, acts: seq<Action>, w: World, i: nat)
    requires Init(w0) && Exec(Next, w0, acts) == Some(w)
    requires forall k :: 0 <= k < |acts| ==> Untampered(acts[k])
    requires i < |w.callers| && w.callers[i].verdict == Succeeded
    ensures StrictlySorted(w.callers[i].items)
  {
    ReachedLocks(w0, acts, w);
    var c := w.callers[i];
    assert CallerInv(c);
    assert c.items[..c.acquired] == c.items;
  }

  // --------------------------------------------------------- global progress

  /** The caller took the lock of the SKU at some time. */
  ghost predicate Took(c: Caller, sku: Sku) {
    c.acquired <= |c.items| && sku in Skus(c.items[..c.acquired])
  }

  /** Somebody took the lock that made this caller give up. */
  ghost predicate Explained(w: World, c: Caller) {
    c.verdict.Contended? && c.done < |c.items| ==>
      exists j :: 0 <= j < |w.callers| && Took(w.callers[j], c.items[c.done].sku)
  }

  /** Every order names each SKU once, every SKU asked for has a row, and there
      is stock for the sum of all demands. */
  ghost predicate Supplied(base: Table, callers: seq<Caller>) {
    && (forall i :: 0 <= i < |callers| ==> DistinctSkus(callers[i].items))
    && (forall i, m :: 0 <= i < |callers| && 0 <= m < |callers[i].items| ==> callers[i].items[m].sku in base)
    && (forall s :: s in base ==> Asked(callers, Reserving, s) <= base[s].available)
  }

  ghost predicate NobodyFailedOtherwise(w: World) {
    forall i :: 0 <= i < |w.callers| ==>
      w.callers[i].verdict != Refused && w.callers[i].verdict != Threw && Explained(w, w.callers[i])
  }

  ghost predicate ProgressInv(base: Table, w: World) {
    && LockInv(w)
    && LedgerInv(base, w)
    && Supplied(base, w.callers)
    && NobodyFailedOtherwise(w)
  }

  lemma {:induction false} MovedWithinAsked(callers: seq<Caller>, kind: Kind, sku: Sku)
    requires forall i :: 0 <= i < |callers| ==> CallerInv(callers[i])
    ensures Moved(callers, kind, sku) <= Asked(callers, kind, sku)
  {
    if callers != [] {
      var last := callers[|callers| - 1];
      assert CallerInv(last);
      QuantityOfPrefix(last.items, last.done, sku);
      MovedWithinAsked(callers[..|callers| - 1], kind, sku);
    }
  }

  /** What a caller is about to reserve has not been counted as moved yet. */
  lemma {:induction false} RoomForNext(callers: seq<Caller>, i: nat, sku: Sku)
    requires forall j :: 0 <= j < |callers| ==> CallerInv(callers[j])
    requires i < |callers| && callers[i].kind == Reserving
    requires callers[i].done < |callers[i].items| && callers[i].items[callers[i].done].sku == sku
    ensures Moved(callers, Reserving, sku) + callers[i].items[callers[i].done].quantity
         <= Asked(callers, Reserving, sku)
  {
    var n := |callers| - 1;
    var last := callers[n];
    assert CallerInv(last);
    QuantityOfPrefix(last.items, last.done, sku);
    if i == n {
      MovedWithinAsked(callers[..n], Reserving, sku);
    } else {
      RoomForNext(callers[..n], i, sku);
    }
  }

  lemma TookGrows(c: Caller, c': Caller, sku: Sku)
    requires Took(c, sku) && c'.items == c.items && c.acquired <= c'.acquired <= |c'.items|
    ensures Took(c', sku)
  {
    var m :| 0 <= m < c.acquired && c.items[..c.acquired][m].sku == sku;
    assert c'.items[..c'.acquired][m].sku == sku;
  }

  /** A step changes one caller, keeps its list and never forgets a lock it took. */
  lemma ActorAdvances(w: World, a: Action)
    requires CallersInv(w) && Untampered(a) && Next(w, a).Some?
    ensures var w' := Next(w, a).value;
      && w'.callers == w.callers[a.i := w'.callers[a.i]]
      && w'.callers[a.i].items == w.callers[a.i].items
      && w'.callers[a.i].kind == w.callers[a.i].kind
      && w.callers[a.i].acquired <= w'.callers[a.i].acquired <= |w'.callers[a.i].items|
      && (w.callers[a.i].verdict != Undecided ==>
           w'.callers[a.i].verdict == w.callers[a.i].verdict && w'.callers[a.i].done == w.callers[a.i].done)
  {
    ActorKeeps(w, a);
    assert CallerInv(w.callers[a.i]);
    match a
    case Acquire(i) =>
    case Check(i) =>
    case Update(i) =>
    case Finish(i) =>
    case Unlock(i, sku) =>
    case Return(i) =>
    case Throw(i, committed) =>
  }

  lemma StepKeepsSupply(base: Table, w: World, a: Action)
    requires CallersInv(w) && Supplied(base, w.callers) && Untampered(a) && Next(w, a).Some?
    ensures Supplied(base, Next(w, a).value.callers)
  {
    ActorAdvances(w, a);
    forall s { AskedAfter(w.callers, a.i, Next(w, a).value.callers[a.i], Reserving, s); }
  }

  /** With stock for everybody, a caller that moves can only fail on a lock, and
      then somebody took that lock. */
  lemma ActorFailsOnLocksOnly(base: Table, w: World, a: Action)
    requires ProgressInv(base, w) && FaultFree(a) && Next(w, a).Some?
    requires w.callers[a.i].verdict == Undecided
    ensures var c' := Next(w, a).value.callers[a.i];
      && c'.verdict != Refused && c'.verdict != Threw
      && Explained(w, c')
  {
    var c := w.callers[a.i];
    assert CallerInv(c) && ReadStillValid(w, c);
    match a
    case Acquire(i) =>
      var sku := c.items[c.acquired].sku;
      if sku in w.holder {
        assert CallerInv(w.callers[w.holder[sku]]);
        assert Took(w.callers[w.holder[sku]], sku);
      }
    case Check(i) =>
      var sku := c.items[c.done].sku;
      RoomForNext(w.callers, i, sku);
      assert sku in base;
    case Update(i) =>
      assert c.items[c.done].sku in base;
    case Finish(i) =>
    case Unlock(i, sku) =>
    case Return(i) =>
  }

  lemma ExplainedStays(w: World, a: Action, c: Caller)
    requires CallersInv(w) && Untampered(a) && Next(w, a).Some? && Explained(w, c)
    ensures Explained(Next(w, a).value, c)
  {
    ActorAdvances(w, a);
    var w' := Next(w, a).value;
    if c.verdict.Contended? && c.done < |c.items| {
      var sku := c.items[c.done].sku;
      var j :| 0 <= j < |w.callers| && Took(w.callers[j], sku);
      if j == a.i { TookGrows(w.callers[j], w'.callers[j], sku); }
      assert Took(w'.callers[j], sku);
    }
  }

  lemma StepKeepsProgress(base: Table, w: World, a: Action)
    requires ProgressInv(base, w) && FaultFree(a) && Next(w, a).Some?
    ensures ProgressInv(base, Next(w, a).value)
  {
    var w' := Next(w, a).value;
    StepKeepsLocks(w, a);
    StepKeepsLedger(base, w, a);
    StepKeepsSupply(base, w, a);
    ActorAdvances(w, a);
    forall i | 0 <= i < |w'.callers|
      ensures w'.callers[i].verdict != Refused && w'.callers[i].verdict != Threw && Explained(w', w'.callers[i])
    {
      if i == a.i {
        if w.callers[i].verdict == Undecided { ActorFailsOnLocksOnly(base, w, a); }
        assert Explained(w, w'.callers[i]);
      }
      ExplainedStays(w, a, w'.callers[i]);
    }
  }

  /** Among callers that all gave up on a lock, one gave up on the greatest SKU. */
  lemma {:induction false} GreatestFailure(callers: seq<Caller>) returns (i: nat)
    requires callers != []
    requires forall k :: 0 <= k < |callers| ==> callers[k].done < |callers[k].items|
    ensures i < |callers|
    ensures forall k :: 0 <= k < |callers| ==>
      callers[k].items[callers[k].done].sku <= callers[i].items[callers[i].done].sku
  {
    var n := |callers| - 1;
    if n == 0 {
      i := 0;
    } else {
      i := GreatestFailure(callers[..n]);
      if callers[i].items[callers[i].done].sku < callers[n].items[callers[n].done].sku {
        i := n;
      }
    }
  }

  /** A sorted caller that took a lock and gave up on another gave up on a greater SKU. */
  lemma WinnerFailedLater(c: Caller, sku: Sku)
    requires CallerInv(c) && c.verdict == Contended && Took(c, sku) && DistinctSkus(c.items)
    ensures c.items[c.done].sku > sku
  {
    var m :| 0 <= m < c.acquired && c.items[..c.acquired][m].sku == sku;
    assert c.items[m].sku == sku;
  }

  /** A caller that has returned without success gave up on a lock. */
  lemma ReturnedContended(base: Table, w: World, i: nat)
    requires ProgressInv(base, w) && i < |w.callers| && w.callers[i].pc == Returned
    ensures w.callers[i].verdict == Succeeded || w.callers[i].verdict == Contended
  {
    assert CallerInv(w.callers[i]);
  }

  /** The caller that gave up on the greatest SKU contradicts sorted acquisition:
      whoever took that lock gave up later, on a greater one. */
  lemma NotEverybodyContended(base: Table, w: World)
    requires ProgressInv(base, w) && w.callers != []
    ensures exists i :: 0 <= i < |w.callers| && w.callers[i].verdict != Contended
  {
    if forall i :: 0 <= i < |w.callers| ==> w.callers[i].verdict == Contended {
      forall i | 0 <= i < |w.callers| ensures w.callers[i].done < |w.callers[i].items| {
        assert CallerInv(w.callers[i]);
      }
      var i := GreatestFailure(w.callers);
      var sku := w.callers[i].items[w.callers[i].done].sku;
      assert Explained(w, w.callers[i]);
      var j :| 0 <= j < |w.callers| && Took(w.callers[j], sku);
      WinnerFailedLater(w.callers[j], sku);
      assert false;
    }
  }

  /** Sorted try-locking makes global progress: when every call has returned, no
      port call rejected and there was stock for everybody, at least one call
      returned true. */
  lemma SortedLockingMakesProgress(w0: World, acts: seq<Action>, w: World)
    requires Init(w0) && Exec(Next, w0, acts) == Some(w)
    requires forall k :: 0 <= k < |acts| ==> FaultFree(acts[k])
    requires w.callers != [] && Supplied(w0.stock, w0.callers)
    requires forall i :: 0 <= i < |w.callers| ==> w.callers[i].pc == Returned
    ensures exists i :: 0 <= i < |w.callers| && w.callers[i].verdict == Succeeded
  {
    ReachedProgress(w0, acts, w);
    NotEverybodyContended(w0.stock, w);
    var i :| 0 <= i < |w.callers| && w.callers[i].verdict != Contended;
    ReturnedContended(w0.stock, w, i);
  }

  lemma ReachedProgress(w0: World, acts: seq<Action>, w: World)
    requires Init(w0) && Exec(Next, w0, acts) == Some(w)
    requires forall k :: 0 <= k < |acts| ==> FaultFree(acts[k])
    requires Supplied(w0.stock, w0.callers)
    ensures ProgressInv(w0.stock, w)
  {
    var inv := (t: World) => ProgressInv(w0.stock, t);
    forall s, kind { NothingMovedYet(w0.callers, kind, s); }
    forall t, a | inv(t) && FaultFree(a) && Next(t, a).Some? ensures inv(Next(t, a).value) {
      StepKeepsProgress(w0.stock, t, a);
    }
    Invariant(Next, w0, acts, FaultFree, inv);
  }

  // ------------------------------------------------------------- termination

  /** The steps a caller may still take. */
  function Work(c: Caller): int {
    match c.pc
    case Returned => 0
    case Unlocking => |c.held| + 1
    case Locking => 4 * |c.items| - 3 * c.done + 2
    case Checking => 4 * |c.items| - 3 * c.done + 1
    case Updating => 4 * |c.items| - 3 * c.done
  }

  function TotalWork(callers: seq<Caller>): int {
    if callers == [] then 0
    else TotalWork(callers[..|callers| - 1]) + Work(callers[|callers| - 1])
  }

  lemma {:induction false} TotalWorkAfter(callers: seq<Caller>, i: nat, c: Caller)
    requires i < |callers|
    ensures TotalWork(callers[i := c]) == TotalWork(callers) - Work(callers[i]) + Work(c)
  {
    var n := |callers| - 1;
    if i == n {
      assert callers[i := c][..n] == callers[..n];
    } else {
      assert callers[i := c][..n] == callers[..n][i := c];
      TotalWorkAfter(callers[..n], i, c);
    }
  }

  lemma {:induction false} TotalWorkIsNat(callers: seq<Caller>)
    requires forall i :: 0 <= i < |callers| ==> CallerInv(callers[i])
    ensures TotalWork(callers) >= 0
  {
    if callers != [] {
      assert CallerInv(callers[|callers| - 1]);
      TotalWorkIsNat(callers[..|callers| - 1]);
    }
  }

  /** Every step of a caller uses up some of its remaining work. */
  lemma StepUsesWork(w: World, a: Action)
    requires CallersInv(w) && Untampered(a) && Next(w, a).Some?
    ensures TotalWork(Next(w, a).value.callers) < TotalWork(w.callers)
  {
    ActorKeeps(w, a);
    assert CallerInv(w.callers[a.i]);
    var w' := Next(w, a).value;
    TotalWorkAfter(w.callers, a.i, w'.callers[a.i]);
  }

  /** Try-locking never blocks: a caller that has not returned can always take a step. */
  lemma NobodyIsStuck(w: World, i: nat)
    requires CallersInv(w) && i < |w.callers| && w.callers[i].pc != Returned
    ensures exists a: Action :: Untampered(a) && a.i == i && Next(w, a).Some?
  {
    var c := w.callers[i];
    assert CallerInv(c);
    var a :=
      if c.pc == Locking then (if c.acquired < |c.items| then Acquire(i) else Finish(i))
      else if c.pc == Checking then Check(i)
      else if c.pc == Updating then Update(i)
      else if c.held != {} then (var s :| s in c.held; Unlock(i, s))
      else Return(i);
    assert Untampered(a) && a.i == i && Next(w, a).Some?;
  }

  /** Every run is finite: it has at most as many steps as the callers had work. */
  lemma {:induction false} RunsAreBounded(w0: World, acts: seq<Action>, w: World)
    requires Init(w0) && Exec(Next, w0, acts) == Some(w)
    requires forall k :: 0 <= k < |acts| ==> Untampered(acts[k])
    ensures |acts| + TotalWork(w.callers) <= TotalWork(w0.callers)
    ensures |acts| <= TotalWork(w0.callers)
  {
    if acts != [] {
      var n := |acts| - 1;
      var t := Exec(Next, w0, acts[..n]).value;
      RunsAreBounded(w0, acts[..n], t);
      ReachedCallers(w0, acts[..n], t);
      StepUsesWork(t, acts[n]);
    }
    ReachedCallers(w0, acts, w);
    TotalWorkIsNat(w.callers);
  }
}

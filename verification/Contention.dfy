/** Any number of concurrent `reserveInventory` and `releaseInventory` calls,
    interleaved at every awaited port call
    (src/domain/services/inventory-service.ts). */
module Contention {
  import opened Runs
  import opened Inventory
  import opened Sorting

  datatype Kind = Reserving | Releasing

  /** The awaited call a caller is about to make. */
  datatype Pc = Locking | Checking | Updating | Unlocking | Returned

  /** How the body of the `try` block ended. Contended and Refused both return
      false to the service's caller. */
  datatype Verdict = Undecided | Succeeded | Contended | Refused | Threw

  /** One call in flight. `acquired` counts the locks it ever took, `done` the
      UPDATEs that committed; `seen` is the row that `findBySku` answered. */
  datatype Caller = Caller(
    kind: Kind, items: seq<Item>, acquired: nat, done: nat,
    held: set<Sku>, seen: Option<Row>, pc: Pc, verdict: Verdict)

  /** `holder` is the lock table: which caller holds the lock of a SKU. */
  datatype World = World(stock: Table, holder: map<Sku, nat>, callers: seq<Caller>)

  datatype Action =
    | Acquire(i: nat)
    | Check(i: nat)
    | Update(i: nat)
    | Finish(i: nat)
    | Unlock(i: nat, sku: Sku)
    | Return(i: nat)
      // an awaited port call rejects; an UPDATE may have committed all the same
    | Throw(i: nat, committed: bool)
      // the lock table changes behind the callers' backs: a TTL timer force-releases
      // a lock, a stale release frees somebody else's, two SKUs hash to one key
    | Tamper(holder: map<Sku, nat>)

  function Start(kind: Kind, items: seq<Item>): Caller {
    Caller(kind, items, 0, 0, {}, None, Locking, Undecided)
  }

  ghost predicate Init(w: World) {
    && w.holder == map[]
    && forall i :: 0 <= i < |w.callers| ==>
         Sorted(w.callers[i].items) && w.callers[i] == Start(w.callers[i].kind, w.callers[i].items)
  }

  /** Leave the `try` block. */
  function Stop(c: Caller, v: Verdict): Caller {
    c.(pc := Unlocking, verdict := v, seen := None)
  }

  /** The table after the caller's current UPDATE, or None when it affects 0 rows. */
  function Statement(stock: Table, kind: Kind, item: Item): Option<Table> {
    if kind.Reserving? then ReserveIn(stock, item.sku, item.quantity)
    else ReleaseIn(stock, item.sku, item.quantity)
  }

  function Put(w: World, i: nat, c: Caller): World
    requires i < |w.callers|
  {
    w.(callers := w.callers[i := c])
  }

  function Next(w: World, a: Action): Option<World> {
    if a.Tamper? then Some(w.(holder := a.holder))
    else if a.i >= |w.callers| then None
    else CallerStep(w, a)
  }

  function CallerStep(w: World, a: Action): Option<World>
    requires !a.Tamper? && a.i < |w.callers|
  {
    match a
    case Acquire(i) => AcquireStep(w, i)
    case Check(i) => CheckStep(w, i)
    case Update(i) => UpdateStep(w, i)
    case Finish(i) => FinishStep(w, i)
    case Unlock(i, sku) => UnlockStep(w, i, sku)
    case Return(i) => ReturnStep(w, i)
    case Throw(i, committed) => ThrowStep(w, i, committed)
  }

  /** `lockManager.acquire`: the lock is taken, or was already held by anyone. */
  function AcquireStep(w: World, i: nat): Option<World>
    requires i < |w.callers|
  {
    var c := w.callers[i];
    if c.pc != Locking || c.acquired >= |c.items| then None
    else
      var sku := c.items[c.acquired].sku;
      if sku in w.holder then Some(Put(w, i, Stop(c, Contended)))
      else Some(Put(w.(holder := w.holder[sku := i]), i, Locked(c)))
  }

  function Locked(c: Caller): Caller
    requires c.acquired < |c.items|
  {
    c.(acquired := c.acquired + 1, held := c.held + {c.items[c.acquired].sku},
       pc := if c.kind.Reserving? then Checking else Updating)
  }

  /** `findBySku` and the comparison with the quantity asked for. */
  function CheckStep(w: World, i: nat): Option<World>
    requires i < |w.callers|
  {
    var c := w.callers[i];
    if c.pc != Checking || c.done >= |c.items| then None
    else
      var item := c.items[c.done];
      if item.sku !in w.stock || w.stock[item.sku].available < item.quantity
      then Some(Put(w, i, Stop(c, Refused)))
      else Some(Put(w, i, c.(pc := Updating, seen := Some(w.stock[item.sku]))))
  }

  /** The reserving or releasing UPDATE. */
  function UpdateStep(w: World, i: nat): Option<World>
    requires i < |w.callers|
  {
    var c := w.callers[i];
    if c.pc != Updating || c.done >= |c.items| then None
    else
      var after := Statement(w.stock, c.kind, c.items[c.done]);
      if after.None? then Some(Put(w, i, Stop(c, Refused)))
      else Some(Put(w.(stock := after.value), i, Updated(c)))
  }

  function Updated(c: Caller): Caller {
    c.(done := c.done + 1, pc := Locking, seen := None)
  }

  /** The loop is through: the `try` block returns true. */
  function FinishStep(w: World, i: nat): Option<World>
    requires i < |w.callers|
  {
    var c := w.callers[i];
    if c.pc != Locking || c.acquired < |c.items| then None else Some(Put(w, i, Stop(c, Succeeded)))
  }

  /** One of the releases that `finally` starts, in any order. */
  function UnlockStep(w: World, i: nat, sku: Sku): Option<World>
    requires i < |w.callers|
  {
    var c := w.callers[i];
    if c.pc != Unlocking || sku !in c.held then None
    else Some(Put(w.(holder := w.holder - {sku}), i, c.(held := c.held - {sku})))
  }

  function ReturnStep(w: World, i: nat): Option<World>
    requires i < |w.callers|
  {
    var c := w.callers[i];
    if c.pc != Unlocking || c.held != {} then None else Some(Put(w, i, c.(pc := Returned)))
  }

  function ThrowStep(w: World, i: nat, committed: bool): Option<World>
    requires i < |w.callers|
  {
    var c := w.callers[i];
    if c.pc == Unlocking || c.pc == Returned || c.done >= |c.items| then None
    else
      var after := Statement(w.stock, c.kind, c.items[c.done]);
      if committed && c.pc == Updating && after.Some?
      then Some(Put(w.(stock := after.value), i, Stop(Updated(c), Threw)))
      else Some(Put(w, i, Stop(c, Threw)))
  }

  /** Runs in which the lock table is changed by nobody but the callers. */
  predicate Untampered(a: Action) { !a.Tamper? }

  /** Runs in which, besides, no port call rejects. */
  predicate FaultFree(a: Action) { !a.Tamper? && !a.Throw? }

  // ------------------------------------------------- what each caller keeps

  /** What a caller knows about itself, whatever the others and the lock table do. */
  ghost predicate CallerInv(c: Caller) {
    && Sorted(c.items)
    && c.done <= c.acquired <= |c.items|
    && c.acquired <= c.done + 1
    && c.held <= Skus(c.items[..c.acquired])
    && |c.held| <= c.acquired
    && (c.pc.Locking? ==> c.acquired == c.done)
    && (c.pc.Checking? ==> c.kind.Reserving?)
    && (c.pc.Checking? || c.pc.Updating? ==> c.acquired == c.done + 1)
    && (c.pc.Returned? ==> c.held == {})
    && (c.verdict.Undecided? <==> !c.pc.Unlocking? && !c.pc.Returned?)
    && (c.verdict.Undecided? ==> c.held == Skus(c.items[..c.acquired]))
    && (c.verdict.Succeeded? ==> c.done == |c.items|)
    && (c.verdict.Contended? ==> c.done == c.acquired < |c.items|)
    && (c.verdict.Refused? ==> c.done < |c.items|)
  }

  ghost predicate CallersInv(w: World) {
    forall i :: 0 <= i < |w.callers| ==> CallerInv(w.callers[i])
  }

  lemma SkusGrow(items: seq<Item>, k: nat)
    requires k < |items|
    ensures Skus(items[..k + 1]) == Skus(items[..k]) + {items[k].sku}
  {
    assert forall s :: s in Skus(items[..k + 1]) ==> s in Skus(items[..k]) + {items[k].sku};
    forall s | s in Skus(items[..k]) ensures s in Skus(items[..k + 1]) {
      var m :| 0 <= m < k && items[..k][m].sku == s;
      assert items[..k + 1][m].sku == s;
    }
    assert items[..k + 1][k].sku == items[k].sku;
  }

  lemma LockingKeeps(c: Caller)
    requires CallerInv(c) && c.pc.Locking? && c.acquired < |c.items|
    ensures CallerInv(Locked(c))
  {
    SkusGrow(c.items, c.acquired);
  }

  /** The caller that moves keeps what it knows, and no other caller changes. */
  lemma ActorKeeps(w: World, a: Action)
    requires !a.Tamper? && a.i < |w.callers| && CallerInv(w.callers[a.i]) && CallerStep(w, a).Some?
    ensures var w' := CallerStep(w, a).value;
      && w'.callers == w.callers[a.i := w'.callers[a.i]]
      && CallerInv(w'.callers[a.i])
  {
    if a.Acquire? && w.callers[a.i].items[w.callers[a.i].acquired].sku !in w.holder {
      LockingKeeps(w.callers[a.i]);
    }
  }

  lemma StepKeepsCallers(w: World, a: Action)
    requires CallersInv(w) && Next(w, a).Some?
    ensures CallersInv(Next(w, a).value)
  {
    if !a.Tamper? {
      ActorKeeps(w, a);
    }
  }

  // --------------------------------------------------------- mutual exclusion

  /** The lock table says exactly who holds what. */
  ghost predicate LocksAgree(w: World) {
    && (forall s :: s in w.holder ==> w.holder[s] < |w.callers| && s in w.callers[w.holder[s]].held)
    && (forall i, s :: 0 <= i < |w.callers| && s in w.callers[i].held ==> s in w.holder && w.holder[s] == i)
  }

  /** The row read by a caller that is about to reserve is still the row in the table. */
  ghost predicate ReadStillValid(w: World, c: Caller)
    requires CallerInv(c)
  {
    c.pc.Updating? && c.kind.Reserving? ==>
      var item := c.items[c.done];
      && item.sku in w.stock
      && c.seen == Some(w.stock[item.sku])
      && w.stock[item.sku].available >= item.quantity
  }

  ghost predicate LockInv(w: World) {
    && CallersInv(w)
    && LocksAgree(w)
    && forall i :: 0 <= i < |w.callers| ==>
         && ReadStillValid(w, w.callers[i])
         && StrictlySorted(w.callers[i].items[..w.callers[i].acquired])
  }

  lemma StrictGrows(items: seq<Item>, k: nat)
    requires k < |items| && Sorted(items) && StrictlySorted(items[..k])
    requires items[k].sku !in Skus(items[..k])
    ensures StrictlySorted(items[..k + 1])
  {
    var longer := items[..k + 1];
    forall i, j | 0 <= i < j < |longer| ensures longer[i].sku < longer[j].sku {
      if j < k {
        assert longer[i] == items[..k][i] && longer[j] == items[..k][j];
      } else {
        assert items[..k][i].sku in Skus(items[..k]);
      }
    }
  }

  /** What a step of caller i may do without breaking the agreement: change rows
      only under locks it holds, take only free locks, give back only its own. */
  ghost predicate Disciplined(w: World, w': World, i: nat)
    requires i < |w.callers|
  {
    && |w'.callers| == |w.callers|
    && w'.callers == w.callers[i := w'.callers[i]]
    && (forall s :: s !in w.callers[i].held ==>
         (s in w'.stock <==> s in w.stock) && (s in w.stock ==> w'.stock[s] == w.stock[s]))
    && (forall s :: s in w'.callers[i].held ==> s in w.callers[i].held || s !in w.holder)
    && (forall s :: s in w'.holder <==>
         s in w'.callers[i].held || (s in w.holder && w.holder[s] != i))
    && (forall s :: s in w'.holder ==>
         w'.holder[s] == if s in w'.callers[i].held then i else w.holder[s])
  }

  lemma DisciplineKeepsOthers(w: World, w': World, i: nat, j: nat)
    requires LockInv(w) && i < |w.callers| && Disciplined(w, w', i)
    requires j < |w.callers| && j != i
    ensures ReadStillValid(w', w'.callers[j])
  {
    var c := w.callers[j];
    if c.pc.Updating? && c.kind.Reserving? {
      SkusGrow(c.items, c.done);
      assert c.items[c.done].sku in c.held;
    }
  }

  lemma DisciplineKeepsAgreement(w: World, w': World, i: nat)
    requires LocksAgree(w) && i < |w.callers| && Disciplined(w, w', i)
    ensures LocksAgree(w')
  {
  }

  /** A caller about to run its UPDATE holds the lock of the row. */
  lemma UpdaterHoldsLock(c: Caller)
    requires CallerInv(c) && c.pc.Updating?
    ensures c.done < |c.items| && c.items[c.done].sku in c.held
  {
    SkusGrow(c.items, c.done);
  }

  lemma UpdateIsDisciplined(w: World, i: nat, c': Caller)
    requires LocksAgree(w) && i < |w.callers| && CallerInv(w.callers[i]) && w.callers[i].pc.Updating?
    requires w.callers[i].done < |w.callers[i].items|
    requires Statement(w.stock, w.callers[i].kind, w.callers[i].items[w.callers[i].done]).Some?
    requires c'.held == w.callers[i].held
    ensures Disciplined(w, Put(w.(stock :=
      Statement(w.stock, w.callers[i].kind, w.callers[i].items[w.callers[i].done]).value), i, c'), i)
  {
    UpdaterHoldsLock(w.callers[i]);
  }

  lemma LocalStepIsDisciplined(w: World, i: nat, c': Caller)
    requires LocksAgree(w) && i < |w.callers| && c'.held == w.callers[i].held
    ensures Disciplined(w, Put(w, i, c'), i)
  {
  }

  lemma TakingIsDisciplined(w: World, i: nat)
    requires LocksAgree(w) && i < |w.callers| && AcquireStep(w, i).Some?
    ensures Disciplined(w, AcquireStep(w, i).value, i)
  {
  }

  lemma UnlockingIsDisciplined(w: World, i: nat, sku: Sku)
    requires LocksAgree(w) && i < |w.callers| && UnlockStep(w, i, sku).Some?
    ensures Disciplined(w, UnlockStep(w, i, sku).value, i)
  {
  }

  lemma ThrowingIsDisciplined(w: World, i: nat, committed: bool)
    requires LocksAgree(w) && i < |w.callers| && CallerInv(w.callers[i]) && ThrowStep(w, i, committed).Some?
    ensures Disciplined(w, ThrowStep(w, i, committed).value, i)
  {
    var c := w.callers[i];
    var w' := ThrowStep(w, i, committed).value;
    var after := Statement(w.stock, c.kind, c.items[c.done]);
    if committed && c.pc == Updating && after.Some? {
      UpdateIsDisciplined(w, i, Stop(Updated(c), Threw));
    } else {
      LocalStepIsDisciplined(w, i, Stop(c, Threw));
    }
  }

  lemma UpdatingIsDisciplined(w: World, i: nat)
    requires LocksAgree(w) && i < |w.callers| && CallerInv(w.callers[i]) && UpdateStep(w, i).Some?
    ensures Disciplined(w, UpdateStep(w, i).value, i)
  {
    var c := w.callers[i];
    if Statement(w.stock, c.kind, c.items[c.done]).Some? {
      UpdateIsDisciplined(w, i, Updated(c));
    } else {
      LocalStepIsDisciplined(w, i, Stop(c, Refused));
    }
  }

  /** Every step of a caller follows the discipline while nobody tampers with the locks. */
  lemma StepIsDisciplined(w: World, a: Action)
    requires LocksAgree(w) && CallersInv(w) && Untampered(a) && Next(w, a).Some?
    ensures Disciplined(w, Next(w, a).value, a.i)
  {
    match a
    case Acquire(i) => TakingIsDisciplined(w, i);
    case Check(i) => LocalStepIsDisciplined(w, i, CheckStep(w, i).value.callers[i]);
    case Update(i) => UpdatingIsDisciplined(w, i);
    case Finish(i) => LocalStepIsDisciplined(w, i, Stop(w.callers[i], Succeeded));
    case Unlock(i, sku) => UnlockingIsDisciplined(w, i, sku);
    case Return(i) => LocalStepIsDisciplined(w, i, w.callers[i].(pc := Returned));
    case Throw(i, committed) => ThrowingIsDisciplined(w, i, committed);
  }

  lemma ActorKeepsOrder(w: World, a: Action)
    requires LocksAgree(w) && Untampered(a) && a.i < |w.callers| && Next(w, a).Some?
    requires CallerInv(w.callers[a.i])
    requires StrictlySorted(w.callers[a.i].items[..w.callers[a.i].acquired])
    ensures var c' := Next(w, a).value.callers[a.i];
      && c'.items == w.callers[a.i].items
      && c'.acquired <= |c'.items|
      && StrictlySorted(c'.items[..c'.acquired])
  {
    var c := w.callers[a.i];
    if a.Acquire? && c.items[c.acquired].sku !in w.holder {
      StrictGrows(c.items, c.acquired);
    }
  }

  /** Only the check makes a caller ready to reserve, and it has just read the row. */
  lemma ActorReadIsValid(w: World, a: Action)
    requires LockInv(w) && Untampered(a) && Next(w, a).Some? && CallersInv(Next(w, a).value)
    ensures a.i < |w.callers| == |Next(w, a).value.callers|
    ensures ReadStillValid(Next(w, a).value, Next(w, a).value.callers[a.i])
  {
  }

  lemma StepKeepsLocks(w: World, a: Action)
    requires LockInv(w) && Untampered(a) && Next(w, a).Some?
    ensures LockInv(Next(w, a).value)
  {
    var w' := Next(w, a).value;
    StepIsDisciplined(w, a);
    DisciplineKeepsAgreement(w, w', a.i);
    StepKeepsCallers(w, a);
    ActorKeepsOrder(w, a);
    ActorReadIsValid(w, a);
    forall j | 0 <= j < |w.callers| && j != a.i
      ensures ReadStillValid(w', w'.callers[j])
    {
      DisciplineKeepsOthers(w, w', a.i, j);
    }
  }

  // ------------------------------------------------------------ stock ledger

  /** What the callers of one kind have moved on one SKU so far. */
  function Moved(callers: seq<Caller>, kind: Kind, sku: Sku): nat {
    if callers == [] then 0
    else
      var last := callers[|callers| - 1];
      Moved(callers[..|callers| - 1], kind, sku) + MovedBy(last, kind, sku)
  }

  function MovedBy(c: Caller, kind: Kind, sku: Sku): nat {
    if c.kind == kind && c.done <= |c.items| then Quantity(c.items[..c.done], sku) else 0
  }

  /** What the callers of one kind ask for of one SKU in all. */
  function Asked(callers: seq<Caller>, kind: Kind, sku: Sku): nat {
    if callers == [] then 0
    else
      var last := callers[|callers| - 1];
      Asked(callers[..|callers| - 1], kind, sku) + if last.kind == kind then Quantity(last.items, sku) else 0
  }

  lemma {:induction false} MovedAfter(callers: seq<Caller>, i: nat, c: Caller, kind: Kind, sku: Sku)
    requires i < |callers|
    ensures Moved(callers[i := c], kind, sku)
         == Moved(callers, kind, sku) - MovedBy(callers[i], kind, sku) + MovedBy(c, kind, sku)
  {
    var n := |callers| - 1;
    if i == n {
      assert callers[i := c][..n] == callers[..n];
    } else {
      assert callers[i := c][..n] == callers[..n][i := c];
      MovedAfter(callers[..n], i, c, kind, sku);
    }
  }

  lemma {:induction false} AskedAfter(callers: seq<Caller>, i: nat, c: Caller, kind: Kind, sku: Sku)
    requires i < |callers| && c.kind == callers[i].kind && c.items == callers[i].items
    ensures Asked(callers[i := c], kind, sku) == Asked(callers, kind, sku)
  {
    var n := |callers| - 1;
    if i == n {
      assert callers[i := c][..n] == callers[..n];
    } else {
      assert callers[i := c][..n] == callers[..n][i := c];
      AskedAfter(callers[..n], i, c, kind, sku);
    }
  }

  lemma {:induction false} NothingMovedYet(callers: seq<Caller>, kind: Kind, sku: Sku)
    requires forall i :: 0 <= i < |callers| ==> callers[i].done == 0
    ensures Moved(callers, kind, sku) == 0
  {
    if callers != [] {
      NothingMovedYet(callers[..|callers| - 1], kind, sku);
    }
  }

  /** Stock on hand is initial stock, less what was granted, plus what came back. */
  ghost predicate LedgerInv(base: Table, w: World) {
    && w.stock.Keys == base.Keys
    && forall s :: s in base ==>
         w.stock[s].available
         == base[s].available - Moved(w.callers, Reserving, s) + Moved(w.callers, Releasing, s)
  }

  lemma StatementChanges(stock: Table, kind: Kind, item: Item, s: Sku)
    requires Statement(stock, kind, item).Some? && s in stock
    ensures var t := Statement(stock, kind, item).value;
      && t.Keys == stock.Keys
      && t[s].available == stock[s].available
           + if s != item.sku then 0 else if kind == Reserving then 0 - item.quantity else item.quantity
  {
  }

  lemma StatementCounts(w: World, i: nat, c': Caller, kind: Kind, s: Sku)
    requires i < |w.callers| && w.callers[i].done < |w.callers[i].items|
    requires c'.kind == w.callers[i].kind && c'.items == w.callers[i].items && c'.done == w.callers[i].done + 1
    ensures var item := c'.items[w.callers[i].done];
      Moved(w.callers[i := c'], kind, s)
      == Moved(w.callers, kind, s) + if c'.kind == kind && item.sku == s then item.quantity else 0
  {
    MovedAfter(w.callers, i, c', kind, s);
    var c := w.callers[i];
    assert c'.items[..c'.done][..c.done] == c.items[..c.done];
  }

  lemma StatementMoves(base: Table, w: World, i: nat, c': Caller)
    requires LedgerInv(base, w) && i < |w.callers| && CallerInv(w.callers[i])
    requires w.callers[i].done < |w.callers[i].items|
    requires c'.kind == w.callers[i].kind && c'.items == w.callers[i].items && c'.done == w.callers[i].done + 1
    requires Statement(w.stock, c'.kind, c'.items[w.callers[i].done]).Some?
    ensures LedgerInv(base, Put(w.(stock :=
      Statement(w.stock, c'.kind, c'.items[w.callers[i].done]).value), i, c'))
  {
    var item := c'.items[w.callers[i].done];
    var stock, callers := Statement(w.stock, c'.kind, item).value, w.callers[i := c'];
    forall s | s in base
      ensures stock[s].available
           == base[s].available - Moved(callers, Reserving, s) + Moved(callers, Releasing, s)
    {
      StatementChanges(w.stock, c'.kind, item, s);
      StatementCounts(w, i, c', Reserving, s);
      StatementCounts(w, i, c', Releasing, s);
    }
  }

  lemma LocalStepMovesNothing(base: Table, w: World, i: nat, c': Caller, holder: map<Sku, nat>)
    requires LedgerInv(base, w) && i < |w.callers|
    requires c'.kind == w.callers[i].kind && c'.items == w.callers[i].items && c'.done == w.callers[i].done
    ensures LedgerInv(base, Put(w.(holder := holder), i, c'))
  {
    forall s, kind {
      MovedAfter(w.callers, i, c', kind, s);
    }
  }

  lemma StepKeepsLedger(base: Table, w: World, a: Action)
    requires CallersInv(w) && LedgerInv(base, w) && Next(w, a).Some?
    ensures LedgerInv(base, Next(w, a).value)
  {
    if !a.Tamper? {
      var w' := Next(w, a).value;
      var c' := w'.callers[a.i];
      assert CallerInv(w.callers[a.i]);
      if c'.done == w.callers[a.i].done {
        LocalStepMovesNothing(base, w, a.i, c', w'.holder);
      } else {
        StatementMoves(base, w, a.i, c');
      }
    }
  }
}

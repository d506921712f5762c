/** One `reserveInventory` or `releaseInventory` call as the service runs it,
    with other callers acting at every await
    (src/domain/services/inventory-service.ts:35-114). */
module InventoryService {
  import opened Runs
  import opened Inventory
  import opened Sorting
  import opened Contention
  import opened Discipline

  /** src/domain/repositories/inventory-repository.ts:11-49 */
  class InventoryRepository {
    const fate: nat -> Outcome   // what becomes of the i-th statement
    var calls: nat
    var table: Table

    constructor (rows: Table, fate: nat -> Outcome)
      ensures table == rows && this.fate == fate
    {
      table, calls := rows, 0;
      this.fate := fate;
    }

    method FindBySku(sku: Sku) returns (r: Reply<Option<Row>>)
      modifies this`calls
      ensures calls == old(calls) + 1 && (r.Answer? <==> fate(old(calls)) == Fine)
      ensures r.Answer? ==> r.value == if sku in table then Some(table[sku]) else None
    {
      var outcome := fate(calls);
      calls := calls + 1;
      if outcome != Fine { return Rejected; }
      r := Answer(if sku in table then Some(table[sku]) else None);
    }

    /** The guarded UPDATE; the reply can be lost after it has committed. */
    method Reserve(sku: Sku, quantity: nat) returns (r: Reply<bool>)
      modifies this`calls, this`table
      ensures calls == old(calls) + 1 && (r.Answer? <==> fate(old(calls)) == Fine)
      ensures r.Answer? ==> r.value == ReserveIn(old(table), sku, quantity).Some?
      ensures table == if fate(old(calls)) != NoEffect && ReserveIn(old(table), sku, quantity).Some?
                       then ReserveIn(old(table), sku, quantity).value else old(table)
    {
      var outcome := fate(calls);
      calls := calls + 1;
      if outcome == NoEffect { return Rejected; }
      var matched := sku in table && table[sku].available >= quantity;
      if matched {
        var row := table[sku];
        table := table[sku := Row(row.available - quantity, row.reserved + quantity, row.version + 1)];
      }
      r := if outcome == Fine then Answer(matched) else Rejected;
    }

    /** The clamped UPDATE; the reply can be lost after it has committed. */
    method Release(sku: Sku, quantity: nat) returns (r: Reply<bool>)
      modifies this`calls, this`table
      ensures calls == old(calls) + 1 && (r.Answer? <==> fate(old(calls)) == Fine)
      ensures r.Answer? ==> r.value == ReleaseIn(old(table), sku, quantity).Some?
      ensures table == if fate(old(calls)) != NoEffect && ReleaseIn(old(table), sku, quantity).Some?
                       then ReleaseIn(old(table), sku, quantity).value else old(table)
    {
      var outcome := fate(calls);
      calls := calls + 1;
      if outcome == NoEffect { return Rejected; }
      var matched := sku in table;
      if matched {
        var row := table[sku];
        table := table[sku := Row(row.available + quantity,
                                  Max(0, row.reserved - quantity), row.version + 1)];
      }
      r := if outcome == Fine then Answer(matched) else Rejected;
    }
  }

  /** The lock manager port (src/domain/ports/lock-manager.ts:10-16). */
  class LockManager {
    const fate: nat -> Outcome     // what becomes of the i-th acquire
    const unlockFails: nat -> bool // and of the i-th unlock
    var calls: nat
    var unlocks: nat
    var holder: map<Sku, nat>

    constructor (fate: nat -> Outcome, unlockFails: nat -> bool)
      ensures holder == map[] && this.fate == fate && this.unlockFails == unlockFails
    {
      holder, calls, unlocks := map[], 0, 0;
      this.fate, this.unlockFails := fate, unlockFails;
    }

    /** Take the lock if it is free; null if it is already held. An acquire that
        rejects has not taken it. */
    method Acquire(who: nat, sku: Sku) returns (r: Reply<bool>)
      modifies this`calls, this`holder
      ensures calls == old(calls) + 1 && (r.Answer? <==> fate(old(calls)) == Fine)
      ensures r.Answer? ==> r.value == (sku !in old(holder))
      ensures holder == if r == Answer(true) then old(holder)[sku := who] else old(holder)
    {
      var outcome := fate(calls);
      calls := calls + 1;
      if outcome != Fine { return Rejected; }
      if sku in holder { return Answer(false); }
      holder := holder[sku := who];
      r := Answer(true);
    }

    /** The release function that a granted acquire hands out. It never rejects: an
        unlock that fails is logged, and the lock stays taken. */
    method Release(sku: Sku) returns (ghost freed: bool)
      modifies this`unlocks, this`holder
      ensures unlocks == old(unlocks) + 1 && freed == !unlockFails(old(unlocks))
      ensures holder == if freed then old(holder) - {sku} else old(holder)
    {
      var fails := unlockFails(unlocks);
      unlocks := unlocks + 1;
      if !fails { holder := holder - {sku}; }
      freed := !fails;
    }

    /** How many of the first n unlocks failed. */
    function FailedUnlocks(n: nat): nat {
      if n == 0 then 0 else FailedUnlocks(n - 1) + if unlockFails(n - 1) then 1 else 0
    }
  }

  class InventoryService {
    const repo: InventoryRepository
    const locks: LockManager
    ghost const base: Table
    ghost var journal: seq<Event>

    /** The tables are what the journal makes of the initial stock, so every event so
        far was within the rules. */
    ghost predicate Explains(tables: Shared)
      reads this
    {
      Exec(Follow, Shared(base, map[]), journal) == Some(tables)
    }

    /** Said of whatever the tables are, so that it is unfolded only where it is used. */
    ghost predicate Valid()
      reads this, repo, locks
    {
      forall tables :: tables == Tables() ==> Explains(tables)
    }

    constructor (repo: InventoryRepository, locks: LockManager)
      requires locks.holder == map[]
      ensures Valid() && journal == [] && this.repo == repo && this.locks == locks
    {
      this.repo := repo;
      this.locks := locks;
      base := repo.table;
      journal := [];
    }

    ghost function Tables(): Shared
      reads repo, locks
    {
      Shared(repo.table, locks.holder)
    }

    /** How many port calls of this service's caller rejected. */
    ghost function Rejections(): nat
      reads repo, locks
    {
      Troubles(repo.fate, repo.calls) + Troubles(locks.fate, locks.calls)
    }

    /** Note an event that has just happened to the tables. */
    ghost method Record(s: Shared, e: Event)
      requires Explains(s)
      requires Follow(s, e) == Some(Tables())
      modifies this
      ensures Valid() && journal == old(journal) + [e]
    {
      ExecAppend(Follow, Shared(base, map[]), journal, e);
      journal := journal + [e];
    }

    /** One event of somebody else, if the rules allow it now. */
    method Act(me: nat, e: Event)
      requires Valid() && e.who != me
      modifies this, repo`table, locks`holder
      ensures Valid() && old(journal) <= journal
      ensures Writes(journal, me) == Writes(old(journal), me)
      ensures Undisturbed(me, old(Tables()), Tables())
    {
      var next := Follow(Shared(repo.table, locks.holder), e);
      if next.Some? {
        ghost var s := Tables();
        assert Explains(s);
        OthersDoNotDisturb(me, s, e);
        WritesAppend(journal, e, me);
        repo.table, locks.holder := next.value.stock, next.value.holder;
        Record(s, e);
      }
    }

    /** Any number of events of other callers, in any order, within the rules. */
    method Interfere(me: nat)
      requires Valid()
      modifies this, repo`table, locks`holder
      ensures Valid() && old(journal) <= journal
      ensures Writes(journal, me) == Writes(old(journal), me)
      ensures Undisturbed(me, old(Tables()), Tables())
    {
      var n: nat := *;
      while n > 0
        invariant Valid() && old(journal) <= journal
        invariant Writes(journal, me) == Writes(old(journal), me)
        invariant Undisturbed(me, old(Tables()), Tables())
      {
        var e: Event := *;
        if e.who != me { Act(me, e); }
        n := n - 1;
      }
    }

    /** At some moment between two journals the item could not be had. */
    ghost predicate WasBlocked(before: seq<Event>, after: seq<Event>, kind: Kind, item: Item, verdict: Verdict) {
      exists k :: |before| <= k <= |after|
        && var s := Exec(Follow, Shared(base, map[]), after[..k]);
           s.Some? && Blocks(s.value, kind, item, verdict)
    }

    /** The locks a caller holds. */
    ghost predicate HoldsExactly(me: nat, skus: set<Sku>)
      reads repo, locks
    {
      forall s :: Holds(Tables(), me, s) <==> s in skus
    }

    /** `lockManager.acquire` for one item. */
    method Lock(me: nat, sku: Sku, ghost held: set<Sku>) returns (r: Reply<bool>)
      requires Valid() && HoldsExactly(me, held)
      modifies this, repo, locks`holder, locks`calls
      ensures Valid() && old(journal) <= journal
      ensures Writes(journal, me) == Writes(old(journal), me)
      ensures if r == Answer(true) then sku !in held && HoldsExactly(me, held + {sku}) else HoldsExactly(me, held)
      ensures r == Answer(false) ==> sku in locks.holder
      ensures Rejections() == old(Rejections()) + if r.Rejected? then 1 else 0
    {
      Interfere(me);
      ghost var s := Tables();
      assert Explains(s);
      r := locks.Acquire(me, sku);
      if r == Answer(true) {
        WritesAppend(journal, Locked(me, sku), me);
        Record(s, Locked(me, sku));
      }
    }

    /** The release function of one lock. */
    method Unlock(me: nat, sku: Sku, ghost held: set<Sku>) returns (ghost freed: bool)
      requires Valid() && HoldsExactly(me, held) && sku in held
      modifies this, repo`table, locks`holder, locks`unlocks
      ensures Valid() && old(journal) <= journal && HoldsExactly(me, if freed then held - {sku} else held)
      ensures Writes(journal, me) == Writes(old(journal), me)
      ensures locks.FailedUnlocks(locks.unlocks) == locks.FailedUnlocks(old(locks.unlocks)) + if freed then 0 else 1
    {
      Interfere(me);
      ghost var s := Tables();
      assert Explains(s);
      UnlockFollows(s, me, sku);
      freed := locks.Release(sku);
      if freed {
        WritesAppend(journal, Unlocked(me, sku), me);
        Record(s, Unlocked(me, sku));
      }
    }

    /** `finally`: give back every lock taken, in any order and while others go on.
        Exactly those whose unlock failed stay taken. */
    method UnlockAll(me: nat, releases: seq<Sku>, ghost before: set<Sku>) returns (ghost stuck: set<Sku>)
      requires Valid() && HoldsExactly(me, before + ToSet(releases)) && before !! ToSet(releases)
      modifies this, repo`table, locks`holder, locks`unlocks
      ensures Valid() && old(journal) <= journal && HoldsExactly(me, before + stuck)
      ensures stuck <= ToSet(releases) && |stuck| == locks.FailedUnlocks(locks.unlocks) - locks.FailedUnlocks(old(locks.unlocks))
      ensures Writes(journal, me) == Writes(old(journal), me)
    {
      var left := ToSet(releases);
      ghost var held := before + left;
      stuck := {};
      while left != {}
        invariant Valid() && old(journal) <= journal && HoldsExactly(me, held)
        invariant Parts(held, before, left, stuck) && left + stuck <= ToSet(releases)
        invariant |stuck| == locks.FailedUnlocks(locks.unlocks) - locks.FailedUnlocks(old(locks.unlocks))
        invariant Writes(journal, me) == Writes(old(journal), me)
      {
        var sku := AnyOf(left);
        ghost var freed := Unlock(me, sku, held);
        PartsAfter(held, before, left, stuck, sku);
        left := left - {sku};
        if freed { held := held - {sku}; } else { stuck := stuck + {sku}; }
      }
      assert held == before + stuck;
    }

    /** `inventoryRepo.reserve` or `inventoryRepo.release`. */
    method Run(kind: Kind, item: Item) returns (r: Reply<bool>, ghost wrote: bool)
      modifies repo
      ensures Rejections() == old(Rejections()) + if r.Rejected? then 1 else 0
      ensures wrote ==> Statement(old(repo.table), kind, item) == Some(repo.table)
      ensures !wrote ==> repo.table == old(repo.table)
      ensures r.Answer? ==> r.value == wrote && wrote == Statement(old(repo.table), kind, item).Some?
    {
      wrote := repo.fate(repo.calls) != NoEffect && Statement(repo.table, kind, item).Some?;
      if kind == Reserving {
        r := repo.Reserve(item.sku, item.quantity);
      } else {
        r := repo.Release(item.sku, item.quantity);
      }
    }

    /** The guarded UPDATE of one item under its lock. */
    method Write(me: nat, kind: Kind, item: Item, ghost held: set<Sku>) returns (r: Reply<bool>, ghost wrote: bool)
      requires Valid() && HoldsExactly(me, held) && item.sku in held
      modifies this, repo, locks`holder, locks`calls
      ensures Valid() && old(journal) <= journal && HoldsExactly(me, held)
      ensures Writes(journal, me) == Writes(old(journal), me) + if wrote then [WriteOf(me, kind, item)] else []
      ensures r.Answer? ==> r.value == wrote
      ensures r == Answer(false) ==> Statement(repo.table, kind, item).None?
      ensures r == Answer(false) ==> Statement(old(repo.table), kind, item).None?
      ensures Rejections() == old(Rejections()) + if r.Rejected? then 1 else 0
    {
      Interfere(me);
      ghost var s := Tables();
      assert Explains(s);
      r, wrote := Run(kind, item);
      if wrote {
        WritesAppend(journal, WriteOf(me, kind, item), me);
        Record(s, WriteOf(me, kind, item));
      }
    }

    /** `inventoryRepo.findBySku` and the comparison with the quantity asked for. */
    method Check(me: nat, item: Item, ghost held: set<Sku>) returns (enough: Reply<bool>)
      requires Valid() && HoldsExactly(me, held)
      modifies this, repo, locks`holder
      ensures Valid() && old(journal) <= journal && HoldsExactly(me, held)
      ensures Writes(journal, me) == Writes(old(journal), me)
      ensures enough.Answer? ==> enough.value == Statement(repo.table, Reserving, item).Some?
      ensures Rejections() == old(Rejections()) + if enough.Rejected? then 1 else 0
    {
      Interfere(me);
      var inventory := repo.FindBySku(item.sku);
      if inventory.Rejected? { return Rejected; }
      enough := Answer(inventory.value.Some? && inventory.value.value.available >= item.quantity);
    }

    /** One pass of the reserving loop: lock, check, UPDATE. Undecided means: go on. */
    method ReserveOne(me: nat, item: Item, ghost held: set<Sku>)
      returns (verdict: Verdict, locked: bool, ghost wrote: bool)
      requires Valid() && HoldsExactly(me, held)
      modifies this, repo, locks`holder, locks`calls
      ensures Valid() && old(journal) <= journal
      ensures HoldsExactly(me, if locked then held + {item.sku} else held)
      ensures locked ==> item.sku !in held
      ensures Writes(journal, me) == Writes(old(journal), me) + if wrote then [WriteOf(me, Reserving, item)] else []
      ensures verdict == Undecided ==> locked && wrote
      ensures verdict == Contended || verdict == Refused ==> !wrote && Blocks(Tables(), Reserving, item, verdict)
      ensures Rejections() == old(Rejections()) + if verdict == Threw then 1 else 0
      ensures verdict != Succeeded && (wrote ==> locked)
      ensures (verdict == Contended ==> !locked) && (verdict == Refused ==> locked)
    {
      wrote := false;
      var release := Lock(me, item.sku, held);
      if release.Rejected? { return Threw, false, false; }
      if !release.value { return Contended, false, false; }
      ghost var mine := held + {item.sku};
      var enough := Check(me, item, mine);
      if enough.Rejected? { return Threw, true, false; }
      if !enough.value { return Refused, true, false; }
      var success;
      success, wrote := Write(me, Reserving, item, mine);
      if success.Rejected? { return Threw, true, wrote; }
      // the row was checked under the lock, so the UPDATE cannot have affected 0 rows
      assert success.value;
      return Undecided, true, wrote;
    }

    /** The `try` block: `releases` are the locks to give back in `finally`. */
    method ReserveLoop(me: nat, sorted: seq<Item>, ghost held: set<Sku>)
      returns (verdict: Verdict, releases: seq<Sku>, ghost done: nat)
      requires Valid() && HoldsExactly(me, held)
      modifies this, repo, locks`holder, locks`calls
      ensures Valid() && old(journal) <= journal
      ensures LockedFrom(sorted, releases) && held !! ToSet(releases) && HoldsExactly(me, held + ToSet(releases))
      ensures done <= |sorted|
      ensures Writes(journal, me) == Writes(old(journal), me) + WritesOf(me, Reserving, sorted[..done])
      ensures verdict == Succeeded ==> done == |sorted| == |releases|
      ensures verdict == Contended || verdict == Refused ==>
        done < |sorted| && Blocks(Tables(), Reserving, sorted[done], verdict)
      ensures Rejections() == old(Rejections()) + if verdict == Threw then 1 else 0
      ensures verdict != Undecided
    {
      releases, done := [], 0;
      for i := 0 to |sorted|
        invariant Valid() && old(journal) <= journal && Rejections() == old(Rejections())
        invariant done == i == |releases|
        invariant LockedFrom(sorted, releases) && held !! ToSet(releases) && HoldsExactly(me, held + ToSet(releases))
        invariant Writes(journal, me) == Writes(old(journal), me) + WritesOf(me, Reserving, sorted[..i])
      {
        var locked;
        ghost var wrote;
        ghost var before := Writes(journal, me);
        verdict, locked, wrote := ReserveOne(me, sorted[i], held + ToSet(releases));
        if locked {
          AddLock(sorted, releases);
          releases := releases + [sorted[i].sku];
        }
        if wrote {
          OneMoreWrite(Writes(old(journal), me), before, me, Reserving, sorted, i);
          done := i + 1;
        }
        if verdict != Undecided { return; }
      }
      assert sorted[..done] == sorted;
      verdict := Succeeded;
    }

    /** Reserve every item, in SKU order. `done` is the number of items whose
        UPDATE committed: all of them on true, a strict prefix of the sorted list
        on false, some prefix when a port call rejected. It is false only if the next
        item's lock was taken or its row too low at some moment of the call, and it
        throws exactly when one of its port calls rejected. On every exit the call
        holds no more locks than before, except those whose unlock failed, and every
        unlock it made was of a lock it held. */
    method ReserveInventory(me: nat, items: seq<Item>, ghost held: set<Sku>)
      returns (verdict: Verdict, ghost done: nat, ghost stuck: set<Sku>)
      requires Valid() && HoldsExactly(me, held)
      modifies this, repo, locks
      ensures Valid() && old(journal) <= journal && HoldsExactly(me, held + stuck)
      ensures |stuck| == locks.FailedUnlocks(locks.unlocks) - locks.FailedUnlocks(old(locks.unlocks))
      ensures done <= |items|
      ensures Writes(journal, me)
           == Writes(old(journal), me) + WritesOf(me, Reserving, SortBySku(items)[..done])
      ensures verdict == Succeeded ==> done == |items| && DistinctSkus(SortBySku(items))
      ensures verdict == Contended || verdict == Refused ==>
        done < |items| && WasBlocked(old(journal), journal, Reserving, SortBySku(items)[done], verdict)
      ensures Rejections() == old(Rejections()) + if verdict == Threw then 1 else 0
      ensures verdict != Undecided
    {
      var releases;
      verdict, releases, done := ReserveLoop(me, SortBySku(items), held);
      ghost var soFar := journal;
      assert Explains(Tables());
      stuck := UnlockAll(me, releases, held);
      assert journal[..|soFar|] == soFar;
    }

    /** One pass of the releasing loop: lock, UPDATE. Undecided means: go on. */
    method ReleaseOne(me: nat, item: Item, ghost held: set<Sku>)
      returns (verdict: Verdict, locked: bool, ghost wrote: bool)
      requires Valid() && HoldsExactly(me, held)
      modifies this, repo, locks`holder, locks`calls
      ensures Valid() && old(journal) <= journal
      ensures HoldsExactly(me, if locked then held + {item.sku} else held)
      ensures locked ==> item.sku !in held
      ensures Writes(journal, me) == Writes(old(journal), me) + if wrote then [WriteOf(me, Releasing, item)] else []
      ensures verdict == Undecided ==> locked && wrote
      ensures verdict == Contended || verdict == Refused ==> !wrote && Blocks(Tables(), Releasing, item, verdict)
      ensures Rejections() == old(Rejections()) + if verdict == Threw then 1 else 0
      ensures verdict != Succeeded && (wrote ==> locked)
      ensures (verdict == Contended ==> !locked) && (verdict == Refused ==> locked)
    {
      var release := Lock(me, item.sku, held);
      if release.Rejected? { return Threw, false, false; }
      if !release.value { return Contended, false, false; }
      var success;
      success, wrote := Write(me, Releasing, item, held + {item.sku});
      if success.Rejected? { return Threw, true, wrote; }
      if !success.value { return Refused, true, wrote; }
      return Undecided, true, wrote;
    }

    method ReleaseLoop(me: nat, sorted: seq<Item>, ghost held: set<Sku>)
      returns (verdict: Verdict, releases: seq<Sku>, ghost done: nat)
      requires Valid() && HoldsExactly(me, held)
      modifies this, repo, locks`holder, locks`calls
      ensures Valid() && old(journal) <= journal
      ensures LockedFrom(sorted, releases) && held !! ToSet(releases) && HoldsExactly(me, held + ToSet(releases))
      ensures done <= |sorted|
      ensures Writes(journal, me) == Writes(old(journal), me) + WritesOf(me, Releasing, sorted[..done])
      ensures verdict == Succeeded ==> done == |sorted| == |releases|
      ensures verdict == Contended || verdict == Refused ==>
        done < |sorted| && Blocks(Tables(), Releasing, sorted[done], verdict)
      ensures Rejections() == old(Rejections()) + if verdict == Threw then 1 else 0
      ensures verdict != Undecided
    {
      releases, done := [], 0;
      for i := 0 to |sorted|
        invariant Valid() && old(journal) <= journal && Rejections() == old(Rejections())
        invariant done == i == |releases|
        invariant LockedFrom(sorted, releases) && held !! ToSet(releases) && HoldsExactly(me, held + ToSet(releases))
        invariant Writes(journal, me) == Writes(old(journal), me) + WritesOf(me, Releasing, sorted[..i])
      {
        var locked;
        ghost var wrote;
        ghost var before := Writes(journal, me);
        verdict, locked, wrote := ReleaseOne(me, sorted[i], held + ToSet(releases));
        if locked {
          AddLock(sorted, releases);
          releases := releases + [sorted[i].sku];
        }
        if wrote {
          OneMoreWrite(Writes(old(journal), me), before, me, Releasing, sorted, i);
          done := i + 1;
        }
        if verdict != Undecided { return; }
      }
      assert sorted[..done] == sorted;
      verdict := Succeeded;
    }

    /** Give back every item, in SKU order; exact in the same way as reserving. */
    method ReleaseInventory(me: nat, items: seq<Item>, ghost held: set<Sku>)
      returns (verdict: Verdict, ghost done: nat, ghost stuck: set<Sku>)
      requires Valid() && HoldsExactly(me, held)
      modifies this, repo, locks
      ensures Valid() && old(journal) <= journal && HoldsExactly(me, held + stuck)
      ensures |stuck| == locks.FailedUnlocks(locks.unlocks) - locks.FailedUnlocks(old(locks.unlocks))
      ensures done <= |items|
      ensures Writes(journal, me)
           == Writes(old(journal), me) + WritesOf(me, Releasing, SortBySku(items)[..done])
      ensures verdict == Succeeded ==> done == |items| && DistinctSkus(SortBySku(items))
      ensures verdict == Contended || verdict == Refused ==>
        done < |items| && WasBlocked(old(journal), journal, Releasing, SortBySku(items)[done], verdict)
      ensures Rejections() == old(Rejections()) + if verdict == Threw then 1 else 0
      ensures verdict != Undecided
    {
      var releases;
      verdict, releases, done := ReleaseLoop(me, SortBySku(items), held);
      ghost var soFar := journal;
      assert Explains(Tables());
      stuck := UnlockAll(me, releases, held);
      assert journal[..|soFar|] == soFar;
    }
  }

  /** Why an item could not be had: its lock was taken, or the UPDATE would match no row. */
  ghost predicate Blocks(s: Shared, kind: Kind, item: Item, verdict: Verdict) {
    if verdict == Contended then item.sku in s.holder else Statement(s.stock, kind, item).None?
  }

  function ToSet(skus: seq<Sku>): set<Sku> {
    set s | s in skus
  }

  lemma UnlockFollows(s: Shared, me: nat, sku: Sku)
    requires Holds(s, me, sku)
    ensures var t := Shared(s.stock, s.holder - {sku});
      Follow(s, Unlocked(me, sku)) == Some(t) && forall k :: Holds(t, me, k) <==> Holds(s, me, k) && k != sku
  {
  }

  /** Any lock of the set: the unlocks are under way at once. */
  method AnyOf(skus: set<Sku>) returns (sku: Sku)
    requires skus != {}
    ensures sku in skus
  {
    assert (forall s: Sku :: s !in skus) ==> skus == {};
    sku :| sku in skus;
  }

  /** The locks held are those from before, those to be given back and those stuck. */
  ghost predicate Parts(held: set<Sku>, before: set<Sku>, left: set<Sku>, stuck: set<Sku>) {
    held == before + left + stuck && before !! left && left !! stuck && before !! stuck
  }

  lemma PartsAfter(held: set<Sku>, before: set<Sku>, left: set<Sku>, stuck: set<Sku>, sku: Sku)
    requires Parts(held, before, left, stuck) && sku in left
    ensures Parts(held - {sku}, before, left - {sku}, stuck)
    ensures Parts(held, before, left - {sku}, stuck + {sku}) && |stuck + {sku}| == |stuck| + 1
  {
  }

  /** The locks taken so far are those of the first items, all different. */
  ghost predicate LockedFrom(sorted: seq<Item>, releases: seq<Sku>) {
    && |releases| <= |sorted|
    && (forall k :: 0 <= k < |releases| ==> releases[k] == sorted[k].sku)
    && (forall i, j :: 0 <= i < j < |releases| ==> releases[i] != releases[j])
  }

  lemma OneMoreWrite(first: seq<Event>, sofar: seq<Event>, me: nat, kind: Kind, sorted: seq<Item>, i: nat)
    requires i < |sorted| && sofar == first + WritesOf(me, kind, sorted[..i])
    ensures sofar + [WriteOf(me, kind, sorted[i])] == first + WritesOf(me, kind, sorted[..i + 1])
  {
    WritesOfLonger(me, kind, sorted, i);
  }

  lemma AddLock(sorted: seq<Item>, releases: seq<Sku>)
    requires LockedFrom(sorted, releases) && |releases| < |sorted|
    requires sorted[|releases|].sku !in releases
    ensures LockedFrom(sorted, releases + [sorted[|releases|].sku])
    ensures ToSet(releases + [sorted[|releases|].sku]) == ToSet(releases) + {sorted[|releases|].sku}
  {
  }
}

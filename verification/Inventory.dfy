/** The inventory table and its two guarded UPDATE statements
    (src/domain/repositories/inventory-repository.ts). */
module Inventory {
  import opened Runs

  /** A SKU is represented by its rank in the collation order that the service
      sorts by, so `<` on ranks is that order. */
  type Sku = int

  datatype Item = Item(sku: Sku, quantity: nat)
  datatype Row = Row(available: nat, reserved: nat, version: nat)
  type Table = map<Sku, Row>

  /** One UPDATE on one row: what was asked for. */
  datatype Call = Reserve(quantity: nat) | Release(quantity: nat)

  /** The row after a reserving UPDATE that matched, or None when the guard
      `quantity_available >= quantity` rejected it. */
  function ReserveRow(r: Row, q: nat): Option<Row> {
    if r.available >= q then Some(Row(r.available - q, r.reserved + q, r.version + 1)) else None
  }

  /** The row after a releasing UPDATE: `reserved` is clamped at zero. */
  function ReleaseRow(r: Row, q: nat): Row {
    Row(r.available + q, if r.reserved >= q then r.reserved - q else 0, r.version + 1)
  }

  /** The table after `reserve(sku, q)`, or None when the UPDATE affected 0 rows. */
  function ReserveIn(t: Table, sku: Sku, q: nat): Option<Table> {
    if sku in t && ReserveRow(t[sku], q).Some? then Some(t[sku := ReserveRow(t[sku], q).value]) else None
  }

  /** The table after `release(sku, q)`, or None when the UPDATE affected 0 rows. */
  function ReleaseIn(t: Table, sku: Sku, q: nat): Option<Table> {
    if sku in t then Some(t[sku := ReleaseRow(t[sku], q)]) else None
  }

  // ------------------------------------------------------------------ ledger

  /** The row after one repository call; a rejected reserve leaves it as it was. */
  function Apply(r: Row, c: Call): Row {
    match c
    case Reserve(q) => if ReserveRow(r, q).Some? then ReserveRow(r, q).value else r
    case Release(q) => ReleaseRow(r, q)
  }

  /** The row after a sequence of calls. */
  function Replay(r: Row, calls: seq<Call>): Row {
    if calls == [] then r else Apply(Replay(r, calls[..|calls| - 1]), calls[|calls| - 1])
  }

  /** The net amount the calls asked to move from available to reserved, counting
      a reserve only when its guard let it through. */
  function Net(r: Row, calls: seq<Call>): int {
    if calls == [] then 0
    else
      var n := |calls| - 1;
      match calls[n]
      case Reserve(q) => Net(r, calls[..n]) + if Replay(r, calls[..n]).available >= q then q else 0
      case Release(q) => Net(r, calls[..n]) - q
  }

  /** The lowest value that initial reserved plus net change ever had. */
  function Lowest(r: Row, calls: seq<Call>): int {
    var here := r.reserved + Net(r, calls);
    if calls == [] then here
    else
      var before := Lowest(r, calls[..|calls| - 1]);
      if here < before then here else before
  }

  /** Some release asked for more than was reserved at that moment. */
  ghost predicate OverReleased(r: Row, calls: seq<Call>) {
    exists k :: 0 <= k < |calls| && calls[k].Release? && Replay(r, calls[..k]).reserved < calls[k].quantity
  }

  function Max(a: int, b: int): int { if a < b then b else a }

  /** Reserved stock is the reflected ledger: available follows the net change
      exactly, reserved follows it reflected at zero. */
  lemma {:induction false} ReflectedLedger(r: Row, calls: seq<Call>)
    ensures Replay(r, calls).available == r.available - Net(r, calls)
    ensures Replay(r, calls).available + Replay(r, calls).reserved
         == r.available + r.reserved + Max(0, -Lowest(r, calls))
  {
    if calls != [] {
      ReflectedLedger(r, calls[..|calls| - 1]);
    }
  }

  /** The calls that matched the row: every release, and the reserves let through. */
  function Matched(r: Row, calls: seq<Call>): nat {
    if calls == [] then 0
    else
      var n := |calls| - 1;
      Matched(r, calls[..n]) +
      if calls[n].Release? || Replay(r, calls[..n]).available >= calls[n].quantity then 1 else 0
  }

  /** The version counts them. */
  lemma {:induction false} VersionCountsWrites(r: Row, calls: seq<Call>)
    ensures Replay(r, calls).version == r.version + Matched(r, calls)
  {
    if calls != [] { VersionCountsWrites(r, calls[..|calls| - 1]); }
  }

  lemma OverReleasedByLast(r: Row, calls: seq<Call>)
    requires calls != []
    ensures var n := |calls| - 1;
      OverReleased(r, calls) <==>
        OverReleased(r, calls[..n])
        || (calls[n].Release? && Replay(r, calls[..n]).reserved < calls[n].quantity)
  {
    var n := |calls| - 1;
    assert forall k :: 0 <= k < n ==> calls[..n][k] == calls[k] && calls[..n][..k] == calls[..k];
  }

  /** The sum of the two counters never falls, and it is what it was at the
      start exactly when no release exceeded what was reserved. */
  lemma {:induction false} SumConstantIff(r: Row, calls: seq<Call>)
    ensures Replay(r, calls).available + Replay(r, calls).reserved >= r.available + r.reserved
    ensures Replay(r, calls).available + Replay(r, calls).reserved == r.available + r.reserved
       <==> !OverReleased(r, calls)
  {
    if calls != [] {
      SumConstantIff(r, calls[..|calls| - 1]);
      OverReleasedByLast(r, calls);
    }
  }
}

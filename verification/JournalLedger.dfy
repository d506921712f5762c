/** What the journal of all callers says about each stock row: how much of its
    change is one caller's own, and how much the others'. */
module JournalLedger {
  import opened Runs
  import opened Inventory
  import opened Sorting
  import opened Contention
  import opened Discipline

  /** What an event adds to the available stock of a SKU. */
  function Effect(e: Event, sku: Sku): int {
    match e
    case Reserved(_, s, q) => if s == sku then 0 - q else 0
    case Released(_, s, q) => if s == sku then q else 0
    case _ => 0
  }

  function TotalEffect(events: seq<Event>, sku: Sku): int {
    if events == [] then 0
    else TotalEffect(events[..|events| - 1], sku) + Effect(events[|events| - 1], sku)
  }

  /** What everybody but one caller added to the available stock of a SKU. */
  function OthersEffect(journal: seq<Event>, me: nat, sku: Sku): int {
    if journal == [] then 0
    else
      var e := journal[|journal| - 1];
      OthersEffect(journal[..|journal| - 1], me, sku) + if e.who == me then 0 else Effect(e, sku)
  }

  /** The UPDATE statements that the journal ran on one row. */
  function CallsOn(journal: seq<Event>, sku: Sku): seq<Call> {
    if journal == [] then []
    else CallsOn(journal[..|journal| - 1], sku) + CallOn(journal[|journal| - 1], sku)
  }

  function CallOn(e: Event, sku: Sku): seq<Call> {
    match e
    case Reserved(_, s, q) => if s == sku then [Call.Reserve(q)] else []
    case Released(_, s, q) => if s == sku then [Call.Release(q)] else []
    case _ => []
  }

  /** The tables that a journal within the rules leads to. */
  ghost predicate LeadsTo(base: Table, journal: seq<Event>, s: Shared) {
    Exec(Follow, Shared(base, map[]), journal) == Some(s)
  }

  /** Every row is what its own statements made of it, whoever ran them. */
  lemma {:induction false} RowIsReplay(base: Table, journal: seq<Event>, s: Shared, sku: Sku)
    requires LeadsTo(base, journal, s)
    ensures s.stock.Keys == base.Keys
    ensures sku in base ==> s.stock[sku] == Replay(base[sku], CallsOn(journal, sku))
  {
    if journal != [] {
      var n := |journal| - 1;
      var before := Exec(Follow, Shared(base, map[]), journal[..n]).value;
      RowIsReplay(base, journal[..n], before, sku);
      var calls := CallsOn(journal[..n], sku);
      assert calls + [] == calls;
      if CallOn(journal[n], sku) != [] {
        assert CallsOn(journal, sku)[..|calls|] == calls;
      }
    }
  }

  /** Nobody can write a row that does not exist. */
  lemma {:induction false} WrittenRowsExist(base: Table, journal: seq<Event>, s: Shared, i: nat)
    requires LeadsTo(base, journal, s) && i < |journal| && (journal[i].Reserved? || journal[i].Released?)
    ensures journal[i].sku in base
  {
    var n := |journal| - 1;
    var before := Exec(Follow, Shared(base, map[]), journal[..n]).value;
    if i < n {
      WrittenRowsExist(base, journal[..n], before, i);
    } else {
      RowIsReplay(base, journal[..n], before, journal[n].sku);
    }
  }

  lemma {:induction false} AvailableFollowsJournal(base: Table, journal: seq<Event>, s: Shared, sku: Sku)
    requires LeadsTo(base, journal, s) && sku in base
    ensures sku in s.stock && s.stock[sku].available == base[sku].available + TotalEffect(journal, sku)
  {
    if journal != [] {
      var n := |journal| - 1;
      AvailableFollowsJournal(base, journal[..n], Exec(Follow, Shared(base, map[]), journal[..n]).value, sku);
    }
  }

  /** One caller's part and the others' part make up the whole. */
  lemma {:induction false} EffectSplits(journal: seq<Event>, me: nat, sku: Sku)
    ensures TotalEffect(journal, sku) == OthersEffect(journal, me, sku) + TotalEffect(Writes(journal, me), sku)
  {
    if journal != [] {
      var n := |journal| - 1;
      EffectSplits(journal[..n], me, sku);
      var mine := Writes(journal[..n], me);
      assert mine + [] == mine;
      assert (mine + [journal[n]])[..|mine|] == mine;
    }
  }

  lemma {:induction false} EffectConcat(first: seq<Event>, second: seq<Event>, sku: Sku)
    ensures TotalEffect(first + second, sku) == TotalEffect(first, sku) + TotalEffect(second, sku)
  {
    if second == [] {
      assert first + second == first;
    } else {
      var n := |second| - 1;
      assert (first + second)[..|first| + n] == first + second[..n];
      EffectConcat(first, second[..n], sku);
    }
  }

  lemma {:induction false} EffectOfWrites(me: nat, kind: Kind, items: seq<Item>, sku: Sku)
    ensures TotalEffect(WritesOf(me, kind, items), sku)
         == if kind == Reserving then 0 - Quantity(items, sku) else Quantity(items, sku)
  {
    if items != [] {
      var init := WritesOf(me, kind, items[..|items| - 1]);
      EffectOfWrites(me, kind, items[..|items| - 1], sku);
      assert WritesOf(me, kind, items)[..|init|] == init;
    }
  }

  /** A caller reserved the first r of its sorted items and then released the first m. */
  ghost predicate Footprint(journal: seq<Event>, me: nat, sorted: seq<Item>, r: nat, m: nat) {
    && r <= |sorted| && m <= |sorted|
    && Writes(journal, me) == WritesOf(me, Reserving, sorted[..r]) + WritesOf(me, Releasing, sorted[..m])
  }

  /** How the two calls of the inventory service leave that footprint. */
  lemma FootprintReserves(before: seq<Event>, after: seq<Event>, me: nat, sorted: seq<Item>, r: nat)
    requires Footprint(before, me, sorted, 0, 0) && r <= |sorted|
    requires Writes(after, me) == Writes(before, me) + WritesOf(me, Reserving, sorted[..r])
    ensures Footprint(after, me, sorted, r, 0)
  {
  }

  lemma FootprintReleases(before: seq<Event>, after: seq<Event>, me: nat, sorted: seq<Item>, r: nat, m: nat)
    requires Footprint(before, me, sorted, r, 0) && m <= |sorted|
    requires Writes(after, me) == Writes(before, me) + WritesOf(me, Releasing, sorted[..m])
    ensures Footprint(after, me, sorted, r, m)
  {
    assert WritesOf(me, Releasing, sorted[..0]) == [];
  }

  /** The exact available stock of every row, however many other callers wrote it. */
  lemma NetAvailable(base: Table, journal: seq<Event>, s: Shared, me: nat, sorted: seq<Item>, r: nat, m: nat, sku: Sku)
    requires LeadsTo(base, journal, s) && Footprint(journal, me, sorted, r, m) && sku in base
    ensures sku in s.stock
    ensures s.stock[sku].available == base[sku].available + OthersEffect(journal, me, sku)
                                    - Quantity(sorted[..r], sku) + Quantity(sorted[..m], sku)
  {
    AvailableFollowsJournal(base, journal, s, sku);
    EffectSplits(journal, me, sku);
    EffectConcat(WritesOf(me, Reserving, sorted[..r]), WritesOf(me, Releasing, sorted[..m]), sku);
    EffectOfWrites(me, Reserving, sorted[..r], sku);
    EffectOfWrites(me, Releasing, sorted[..m], sku);
  }

  /** Reserved stock mirrors it exactly when no release on the row, by anyone,
      ever exceeded what was reserved at that moment. */
  lemma NetReservedIff(base: Table, journal: seq<Event>, s: Shared, me: nat, sorted: seq<Item>, r: nat, m: nat, sku: Sku)
    requires LeadsTo(base, journal, s) && Footprint(journal, me, sorted, r, m) && sku in base
    ensures sku in s.stock
    ensures s.stock[sku].reserved == base[sku].reserved - OthersEffect(journal, me, sku)
                                   + Quantity(sorted[..r], sku) - Quantity(sorted[..m], sku)
       <==> !OverReleased(base[sku], CallsOn(journal, sku))
  {
    NetAvailable(base, journal, s, me, sorted, r, m, sku);
    RowIsReplay(base, journal, s, sku);
    SumConstantIff(base[sku], CallsOn(journal, sku));
  }

  /** A caller's writes of a sequence of items are events of its journal. */
  lemma {:induction false} WritesAreEvents(journal: seq<Event>, who: nat, k: nat) returns (i: nat)
    requires k < |Writes(journal, who)|
    ensures i < |journal| && journal[i] == Writes(journal, who)[k]
    ensures journal[i].Reserved? || journal[i].Released?
  {
    var n := |journal| - 1;
    if k < |Writes(journal[..n], who)| {
      i := WritesAreEvents(journal[..n], who, k);
    } else {
      i := n;
    }
  }

  lemma {:induction false} WriteAt(who: nat, kind: Kind, items: seq<Item>, k: nat)
    requires k < |items|
    ensures |WritesOf(who, kind, items)| == |items| && WritesOf(who, kind, items)[k] == WriteOf(who, kind, items[k])
  {
    if k < |items| - 1 {
      WriteAt(who, kind, items[..|items| - 1], k);
    } else if |items| > 1 {
      WriteAt(who, kind, items[..|items| - 1], 0);
    }
  }

  /** So every SKU that was reserved or released has a row. */
  lemma WrittenSkusExist(base: Table, journal: seq<Event>, s: Shared, me: nat, sorted: seq<Item>, r: nat, m: nat, k: nat)
    requires LeadsTo(base, journal, s) && Footprint(journal, me, sorted, r, m) && (k < r || k < m)
    ensures sorted[k].sku in base
  {
    var reserves, releases := WritesOf(me, Reserving, sorted[..r]), WritesOf(me, Releasing, sorted[..m]);
    if r > 0 { WriteAt(me, Reserving, sorted[..r], 0); }
    var at;
    if k < r {
      WriteAt(me, Reserving, sorted[..r], k);
      at := k;
    } else {
      WriteAt(me, Releasing, sorted[..m], k);
      at := |reserves| + k;
    }
    assert Writes(journal, me)[at].sku == sorted[k].sku;
    var i := WritesAreEvents(journal, me, at);
    WrittenRowsExist(base, journal, s, i);
  }

  // -------------------------------------------- rows that nobody else writes

  ghost predicate Quiet(journal: seq<Event>, me: nat, sku: Sku) {
    forall i :: 0 <= i < |journal| && journal[i].who != me ==> CallOn(journal[i], sku) == []
  }

  /** Every reserving call of the list was let through. */
  ghost predicate Granted(r: Row, calls: seq<Call>) {
    calls == [] ||
      var n := |calls| - 1;
      Granted(r, calls[..n]) && (calls[n].Reserve? ==> Replay(r, calls[..n]).available >= calls[n].quantity)
  }

  lemma GrantedOneMore(r: Row, calls: seq<Call>, c: Call)
    requires Granted(r, calls) && (c.Reserve? ==> Replay(r, calls).available >= c.quantity)
    ensures Granted(r, calls + [c])
  {
    assert (calls + [c])[..|calls|] == calls;
  }

  lemma {:induction false} JournalIsGranted(base: Table, journal: seq<Event>, s: Shared, sku: Sku)
    requires LeadsTo(base, journal, s) && sku in base
    ensures Granted(base[sku], CallsOn(journal, sku))
  {
    if journal != [] {
      var n := |journal| - 1;
      var before := Exec(Follow, Shared(base, map[]), journal[..n]).value;
      JournalIsGranted(base, journal[..n], before, sku);
      RowIsReplay(base, journal[..n], before, sku);
      var calls, more := CallsOn(journal[..n], sku), CallOn(journal[n], sku);
      if more == [] {
        assert calls + more == calls;
      } else {
        GrantedOneMore(base[sku], calls, more[0]);
        assert more == [more[0]];
      }
    }
  }

  lemma {:induction false} GrantedPrefix(r: Row, first: seq<Call>, second: seq<Call>)
    requires Granted(r, first + second)
    ensures Granted(r, first)
  {
    if second == [] {
      assert first + second == first;
    } else {
      var n := |second| - 1;
      assert (first + second)[..|first| + n] == first + second[..n];
      GrantedPrefix(r, first, second[..n]);
    }
  }

  lemma {:induction false} ReplayConcat(r: Row, first: seq<Call>, second: seq<Call>)
    ensures Replay(r, first + second) == Replay(Replay(r, first), second)
  {
    if second == [] {
      assert first + second == first;
    } else {
      var n := |second| - 1;
      assert (first + second)[..|first| + n] == first + second[..n];
      ReplayConcat(r, first, second[..n]);
    }
  }

  lemma CallsOneMore(events: seq<Event>, e: Event, sku: Sku)
    ensures CallsOn(events + [e], sku) == CallsOn(events, sku) + CallOn(e, sku)
  {
    assert (events + [e])[..|events|] == events;
  }

  lemma LastOfConcat<T>(first: seq<T>, second: seq<T>)
    requires second != []
    ensures first + second == first + second[..|second| - 1] + [second[|second| - 1]]
  {
  }

  lemma Associative<T>(a: seq<T>, b: seq<T>, c: seq<T>)
    ensures a + b + c == a + (b + c)
  {
  }

  lemma {:induction false} CallsConcat(first: seq<Event>, second: seq<Event>, sku: Sku)
    ensures CallsOn(first + second, sku) == CallsOn(first, sku) + CallsOn(second, sku)
  {
    if second == [] {
      assert first + second == first && CallsOn(second, sku) == [];
    } else {
      var init, last := second[..|second| - 1], second[|second| - 1];
      LastOfConcat(first, second);
      CallsOneMore(first + init, last, sku);
      CallsConcat(first, init, sku);
      Associative(CallsOn(first, sku), CallsOn(init, sku), CallOn(last, sku));
    }
  }

  lemma {:induction false} QuietCalls(journal: seq<Event>, me: nat, sku: Sku)
    requires Quiet(journal, me, sku)
    ensures CallsOn(journal, sku) == CallsOn(Writes(journal, me), sku)
  {
    if journal != [] {
      var n := |journal| - 1;
      QuietCalls(journal[..n], me, sku);
      var mine := Writes(journal[..n], me);
      assert mine + [] == mine && (mine + [journal[n]])[..|mine|] == mine;
      assert CallsOn(mine, sku) + [] == CallsOn(mine, sku);
    }
  }

  lemma ReplayOneMore(r: Row, calls: seq<Call>, c: Call)
    ensures Replay(r, calls + [c]) == Apply(Replay(r, calls), c)
    ensures Granted(r, calls + [c]) ==>
      Granted(r, calls) && (c.Reserve? ==> Replay(r, calls).available >= c.quantity)
  {
    assert (calls + [c])[..|calls|] == calls;
  }

  /** One item more is one call more on its row, and none on another. */
  lemma CallsOfItem(me: nat, kind: Kind, items: seq<Item>, sku: Sku)
    requires items != []
    ensures var last, before := items[|items| - 1], CallsOn(WritesOf(me, kind, items[..|items| - 1]), sku);
      CallsOn(WritesOf(me, kind, items), sku)
      == if last.sku != sku then before
         else before + [if kind == Reserving then Call.Reserve(last.quantity) else Call.Release(last.quantity)]
  {
    CallsOneMore(WritesOf(me, kind, items[..|items| - 1]), WriteOf(me, kind, items[|items| - 1]), sku);
  }

  lemma {:induction false} ReplayReserves(r: Row, me: nat, items: seq<Item>, sku: Sku)
    requires Granted(r, CallsOn(WritesOf(me, Reserving, items), sku))
    ensures Replay(r, CallsOn(WritesOf(me, Reserving, items), sku)).reserved == r.reserved + Quantity(items, sku)
  {
    if items != [] {
      var init, last := items[..|items| - 1], items[|items| - 1];
      CallsOfItem(me, Reserving, items, sku);
      ReplayOneMore(r, CallsOn(WritesOf(me, Reserving, init), sku), Call.Reserve(last.quantity));
      ReplayReserves(r, me, init, sku);
    }
  }

  lemma {:induction false} ReplayReleases(r: Row, me: nat, items: seq<Item>, sku: Sku)
    ensures Replay(r, CallsOn(WritesOf(me, Releasing, items), sku)).reserved == Max(0, r.reserved - Quantity(items, sku))
  {
    if items != [] {
      var init, last := items[..|items| - 1], items[|items| - 1];
      CallsOfItem(me, Releasing, items, sku);
      ReplayOneMore(r, CallsOn(WritesOf(me, Releasing, init), sku), Call.Release(last.quantity));
      ReplayReleases(r, me, init, sku);
    }
  }

  /** On a row that nobody else writes, reserved stock is clamped once, at the end. */
  lemma QuietReserved(base: Table, journal: seq<Event>, s: Shared, me: nat, sorted: seq<Item>, r: nat, m: nat, sku: Sku)
    requires LeadsTo(base, journal, s) && Footprint(journal, me, sorted, r, m) && sku in base
    requires Quiet(journal, me, sku)
    ensures sku in s.stock
    ensures s.stock[sku].reserved
         == Max(0, base[sku].reserved + Quantity(sorted[..r], sku) - Quantity(sorted[..m], sku))
  {
    var reserves, releases := WritesOf(me, Reserving, sorted[..r]), WritesOf(me, Releasing, sorted[..m]);
    RowIsReplay(base, journal, s, sku);
    JournalIsGranted(base, journal, s, sku);
    QuietCalls(journal, me, sku);
    CallsConcat(reserves, releases, sku);
    GrantedPrefix(base[sku], CallsOn(reserves, sku), CallsOn(releases, sku));
    ReplayConcat(base[sku], CallsOn(reserves, sku), CallsOn(releases, sku));
    ReplayReserves(base[sku], me, sorted[..r], sku);
    ReplayReleases(Replay(base[sku], CallsOn(reserves, sku)), me, sorted[..m], sku);
  }
}

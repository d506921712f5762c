/** The rules by which callers share the inventory table and the lock table, as
    a journal of lock and row events: a lock is taken only while free and given
    back only by its holder, and a row is written only under its lock. */
module Discipline {
  import opened Runs
  import opened Inventory
  import opened Contention

  datatype Event =
    | Locked(who: nat, sku: Sku)
    | Unlocked(who: nat, sku: Sku)
    | Reserved(who: nat, sku: Sku, quantity: nat)
    | Released(who: nat, sku: Sku, quantity: nat)

  datatype Shared = Shared(stock: Table, holder: map<Sku, nat>)

  /** What an event does to the two tables, or None when it breaks the rules. */
  function Follow(s: Shared, e: Event): Option<Shared> {
    match e
    case Locked(who, sku) =>
      if sku in s.holder then None else Some(s.(holder := s.holder[sku := who]))
    case Unlocked(who, sku) =>
      if Holds(s, who, sku) then Some(s.(holder := s.holder - {sku})) else None
    case Reserved(who, sku, q) =>
      if Holds(s, who, sku) && ReserveIn(s.stock, sku, q).Some?
      then Some(s.(stock := ReserveIn(s.stock, sku, q).value)) else None
    case Released(who, sku, q) =>
      if Holds(s, who, sku) && ReleaseIn(s.stock, sku, q).Some?
      then Some(s.(stock := ReleaseIn(s.stock, sku, q).value)) else None
  }

  predicate Holds(s: Shared, who: nat, sku: Sku) {
    sku in s.holder && s.holder[sku] == who
  }

  /** What a caller can rely on while others act: the locks it holds stay its
      own, it is handed no others, and the rows under its locks do not change. */
  ghost predicate Undisturbed(me: nat, s: Shared, s': Shared) {
    && (forall k :: Holds(s, me, k) <==> Holds(s', me, k))
    && (forall k :: Holds(s, me, k) ==>
         && (k in s.stock <==> k in s'.stock)
         && (k in s.stock ==> s'.stock[k] == s.stock[k]))
  }

  lemma OthersDoNotDisturb(me: nat, s: Shared, e: Event)
    requires e.who != me && Follow(s, e).Some?
    ensures Undisturbed(me, s, Follow(s, e).value)
  {
  }

  /** The rows one caller wrote, in order. */
  function Writes(journal: seq<Event>, who: nat): seq<Event> {
    if journal == [] then []
    else
      var e := journal[|journal| - 1];
      Writes(journal[..|journal| - 1], who) +
      if e.who == who && (e.Reserved? || e.Released?) then [e] else []
  }

  lemma WritesAppend(journal: seq<Event>, e: Event, who: nat)
    ensures Writes(journal + [e], who)
         == Writes(journal, who) + if e.who == who && (e.Reserved? || e.Released?) then [e] else []
  {
    assert (journal + [e])[..|journal|] == journal;
  }

  /** The writes of a caller that reserved (or released) these items, in order. */
  function WritesOf(who: nat, kind: Kind, items: seq<Item>): seq<Event> {
    if items == [] then []
    else WritesOf(who, kind, items[..|items| - 1]) + [WriteOf(who, kind, items[|items| - 1])]
  }

  function WriteOf(who: nat, kind: Kind, item: Item): Event {
    if kind == Reserving then Reserved(who, item.sku, item.quantity) else Released(who, item.sku, item.quantity)
  }

  lemma WritesOfLonger(who: nat, kind: Kind, items: seq<Item>, k: nat)
    requires k < |items|
    ensures WritesOf(who, kind, items[..k + 1]) == WritesOf(who, kind, items[..k]) + [WriteOf(who, kind, items[k])]
  {
    assert items[..k + 1][..k] == items[..k];
  }

  /** The event, if any, by which a step of the interleaved system changes the tables. */
  function EventOf(w: World, a: Action): Option<Event>
    requires !a.Tamper? && a.i < |w.callers|
  {
    var c := w.callers[a.i];
    match a
    case Acquire(i) =>
      if c.acquired < |c.items| && c.items[c.acquired].sku !in w.holder
      then Some(Locked(i, c.items[c.acquired].sku)) else None
    case Unlock(i, sku) => Some(Unlocked(i, sku))
    case Update(i) =>
      if c.done < |c.items| && Statement(w.stock, c.kind, c.items[c.done]).Some?
      then Some(WriteOf(i, c.kind, c.items[c.done])) else None
    case Throw(i, committed) =>
      if committed && c.pc == Updating && c.done < |c.items|
         && Statement(w.stock, c.kind, c.items[c.done]).Some?
      then Some(WriteOf(i, c.kind, c.items[c.done])) else None
    case _ => None
  }

  lemma StatementFollows(w: World, i: nat)
    requires LocksAgree(w) && i < |w.callers| && CallerInv(w.callers[i]) && w.callers[i].pc.Updating?
    requires Statement(w.stock, w.callers[i].kind, w.callers[i].items[w.callers[i].done]).Some?
    ensures var c := w.callers[i];
      Follow(Shared(w.stock, w.holder), WriteOf(i, c.kind, c.items[c.done]))
      == Some(Shared(Statement(w.stock, c.kind, c.items[c.done]).value, w.holder))
  {
    UpdaterHoldsLock(w.callers[i]);
  }

  /** The interleaved callers keep the rules: while nobody tampers with the lock
      table, every step is one event that the rules allow, or changes neither table. */
  lemma CallersFollowTheRules(w: World, a: Action)
    requires LockInv(w) && Untampered(a) && Next(w, a).Some?
    ensures var s, s' := Shared(w.stock, w.holder), Shared(Next(w, a).value.stock, Next(w, a).value.holder);
      if EventOf(w, a).Some? then Follow(s, EventOf(w, a).value) == Some(s') else s' == s
  {
    var c := w.callers[a.i];
    assert CallerInv(c);
    if c.pc.Updating? && Statement(w.stock, c.kind, c.items[c.done]).Some? { StatementFollows(w, a.i); }
  }
}

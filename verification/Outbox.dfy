/** The transactional outbox: creators write events beside their orders, and any
    number of pollers enqueue and mark them from snapshots that may be stale
    (src/events/outbox/outbox-processor.ts, src/domain/repositories/outbox-repository.ts,
    src/domain/services/order-service.ts:78-100). */
module Outbox {
  import opened Runs

  datatype Status = Pending | Published | Failed

  /** What the event announces: the creation of an order, or something later. */
  datatype Kind = Created(order: nat) | Other

  /** A row's id is its index; rows stand in order of creation. */
  datatype Row = Row(kind: Kind, status: Status, retry: nat)

  /** What a poll remembers of a row. */
  datatype Snap = Snap(id: nat, retry: nat)

  /** Where a poller is with the first event of its batch. */
  datatype At = Fresh | Enqueued | Caught

  datatype Poller = Poller(todo: seq<Snap>, at: At)

  const IDLE := Poller([], Fresh)
  const BATCH := 100

  datatype State = State(max: nat, rows: seq<Row>, orders: set<nat>, jobs: set<nat>, pollers: seq<Poller>)

  datatype Action =
    | CreateOrder(order: nat)                   // order row and order.created event, one transaction
    | Emit                                      // order.paid or order.failed, in its own transaction
    | Poll(i: nat, batch: seq<Snap>)            // getPending
    | GiveUp(i: nat, outcome: Outcome)          // markFailed: the snapshot has used up its retries
    | Enqueue(i: nat, outcome: Outcome)         // queue.add under the event's own id
    | MarkPublished(i: nat, outcome: Outcome)
    | ResetForRetry(i: nat, outcome: Outcome)   // in the catch block
    | Crash(i: nat)

  // ---------------------------------------------------- the UPDATE statements

  function SetPublished(r: Row): Row { r.(status := Published) }

  /** markFailed(id, false) */
  function SetFailed(r: Row): Row { r.(status := Failed) }

  function SetForRetry(r: Row): Row { r.(status := Pending, retry := r.retry + 1) }

  // ------------------------------------------------------------------- steps

  /** What `getPending(100)` may answer: pending rows, each once, oldest first. A
      row that a concurrent statement has locked is skipped. */
  ghost predicate PendingBatch(rows: seq<Row>, batch: seq<Snap>) {
    && |batch| <= BATCH
    && (forall k :: 0 <= k < |batch| ==>
         batch[k].id < |rows| && rows[batch[k].id].status == Pending && rows[batch[k].id].retry == batch[k].retry)
    && (forall j, k :: 0 <= j < k < |batch| ==> batch[j].id < batch[k].id)
  }

  /** On to the next event of the batch. */
  function Advance(p: Poller): Poller
    requires p.todo != []
  {
    Poller(p.todo[1..], Fresh)
  }

  function PutPoller(s: State, i: nat, p: Poller): State
    requires i < |s.pollers|
  {
    s.(pollers := s.pollers[i := p])
  }

  /** The state after an UPDATE of one row, if it had an effect. */
  function Updated(s: State, id: nat, row: Row, outcome: Outcome): State
    requires id < |s.rows|
  {
    if outcome == NoEffect then s else s.(rows := s.rows[id := row])
  }

  ghost function Next(s: State, a: Action): Option<State> {
    match a
    case CreateOrder(o) =>
      if o in s.orders then None
      else Some(s.(orders := s.orders + {o}, rows := s.rows + [Row(Created(o), Pending, 0)]))
    case Emit => Some(s.(rows := s.rows + [Row(Other, Pending, 0)]))
    case Poll(i, batch) =>
      if i >= |s.pollers| || s.pollers[i].todo != [] || !PendingBatch(s.rows, batch) then None
      else Some(PutPoller(s, i, Poller(batch, Fresh)))
    case Crash(i) => if i >= |s.pollers| then None else Some(PutPoller(s, i, IDLE))
    case _ =>
      if a.i >= |s.pollers| || s.pollers[a.i].todo == [] || s.pollers[a.i].todo[0].id >= |s.rows| then None
      else Handle(s, a)
  }

  /** A step on the first event of a batch. */
  function Handle(s: State, a: Action): Option<State>
    requires a.GiveUp? || a.Enqueue? || a.MarkPublished? || a.ResetForRetry?
    requires a.i < |s.pollers| && s.pollers[a.i].todo != [] && s.pollers[a.i].todo[0].id < |s.rows|
  {
    var p := s.pollers[a.i];
    var snap := p.todo[0];
    var row := s.rows[snap.id];
    match a
    case GiveUp(i, outcome) =>
      if p.at != Fresh || snap.retry < s.max then None
      else Some(PutPoller(Updated(s, snap.id, SetFailed(row), outcome), i,
                          if outcome == Fine then Advance(p) else IDLE))
    case Enqueue(i, outcome) =>
      if p.at != Fresh || snap.retry >= s.max then None
      else Some(PutPoller(if outcome == NoEffect then s else s.(jobs := s.jobs + {snap.id}), i,
                          p.(at := if outcome == Fine then Enqueued else Caught)))
    case MarkPublished(i, outcome) =>
      if p.at != Enqueued then None
      else Some(PutPoller(Updated(s, snap.id, SetPublished(row), outcome), i,
                          if outcome == Fine then Advance(p) else p.(at := Caught)))
    case ResetForRetry(i, outcome) =>
      if p.at != Caught then None
      else Some(PutPoller(Updated(s, snap.id, SetForRetry(row), outcome), i,
                          if outcome == Fine then Advance(p) else IDLE))
  }

  ghost predicate Init(s: State) {
    && s.rows == [] && s.orders == {} && s.jobs == {}
    && forall i :: 0 <= i < |s.pollers| ==> s.pollers[i] == IDLE
  }

  // -------------------------------------------------------------- invariants

  ghost predicate RowInv(s: State, id: nat)
    requires id < |s.rows|
  {
    && (s.rows[id].status == Published ==> id in s.jobs)
    && (s.rows[id].status == Failed ==> s.rows[id].retry >= s.max)
  }

  /** A snapshot is never ahead of its row, and an event to be marked is enqueued. */
  ghost predicate PollerInv(s: State, p: Poller) {
    && (forall k :: 0 <= k < |p.todo| ==>
         p.todo[k].id < |s.rows| && p.todo[k].retry <= s.rows[p.todo[k].id].retry)
    && (forall j, k :: 0 <= j < k < |p.todo| ==> p.todo[j].id < p.todo[k].id)
    && (p.at == Enqueued ==> p.todo != [] && p.todo[0].id in s.jobs)
    && (p.at != Fresh ==> p.todo != [] && p.todo[0].retry < s.max)
  }

  ghost predicate EventsInv(s: State) {
    && (forall id :: 0 <= id < |s.rows| ==> RowInv(s, id))
    && (forall i :: 0 <= i < |s.pollers| ==> PollerInv(s, s.pollers[i]))
  }

  /** Orders and order.created events correspond one to one. */
  ghost predicate OrdersInv(s: State) {
    && (forall o :: o in s.orders <==> exists id :: 0 <= id < |s.rows| && s.rows[id].kind == Created(o))
    && (forall j, k :: 0 <= j < k < |s.rows| && s.rows[j].kind.Created? ==> s.rows[j].kind != s.rows[k].kind)
  }
}

/** Idempotent order creation: a Redis cache that may lose or refuse anything, in
    front of a UNIQUE key in the database (src/api/middleware/idempotency.ts,
    src/infrastructure/redis/idempotency-store.ts, src/api/server.ts:98-117,
    src/domain/services/order-service.ts:66-121). */
module Idempotency {
  import opened Runs

  type Client = nat
  type Key = nat
  type Hash = nat

  /** A row of `orders`; `hash` is the body it was created from. An order's id is
      the index of the request that drew it. */
  datatype Placed = Placed(order: nat, hash: Hash)

  /** A cached 2xx response: the order it names and the hash of the body it answered. */
  datatype Record = Record(order: nat, hash: Hash)

  datatype Response =
    | Created(order: nat)    // 201
    | Replayed(order: nat)   // the cached 201, with X-Idempotent-Replay
    | Mismatch               // 409
    | Invalid                // 422
    | Error                  // 500
    | Nothing                // the process died

  predicate Success(r: Response) { r.Created? || r.Replayed? }

  /** The awaited call a request is about to make, or its reply. */
  datatype Stage = Looking | Tagged | Inserted | Enqueued | Answering | Finished(reply: Response)

  datatype Request = Request(client: Client, key: Key, hash: Hash, stage: Stage)

  datatype State = State(
    orders: map<Key, Placed>, cache: map<(Client, Key), Record>, jobs: seq<nat>, requests: seq<Request>)

  const START := State(map[], map[], [], [])

  datatype Action =
    | Arrive(client: Client, key: Key, hash: Hash)
    | Lookup(i: nat, visible: bool)   // store.get: a failed or expired read is a miss
    | Refuse(i: nat)                  // body validation
    | Insert(i: nat, replies: bool)   // the order transaction; its reply can be lost
    | Abort(i: nat)                   // the order transaction fails, without effect
    | Enqueue(i: nat, ok: bool)       // sagaEnqueuer.enqueue, failure logged
    | Store(i: nat, ok: bool)         // onSend: store.set, failure swallowed
    | Send(i: nat)
    | Die(i: nat)
    | Evict(client: Client, key: Key) // expiry or deletion of a record

  function Put(s: State, i: nat, stage: Stage): State
    requires i < |s.requests|
  {
    s.(requests := s.requests[i := s.requests[i].(stage := stage)])
  }

  function Next(s: State, a: Action): Option<State> {
    match a
    case Arrive(client, key, hash) => Some(s.(requests := s.requests + [Request(client, key, hash, Looking)]))
    case Evict(client, key) => Some(s.(cache := s.cache - {(client, key)}))
    case _ => if a.i < |s.requests| then RequestStep(s, a, s.requests[a.i]) else None
  }

  function RequestStep(s: State, a: Action, r: Request): Option<State>
    requires !a.Arrive? && !a.Evict? && a.i < |s.requests|
  {
    match a
    case Lookup(i, visible) =>
      if r.stage != Looking then None
      else if visible && (r.client, r.key) in s.cache then
        var existing := s.cache[(r.client, r.key)];
        Some(Put(s, i, Finished(if existing.hash != r.hash then Mismatch else Replayed(existing.order))))
      else Some(Put(s, i, Tagged))
    case Refuse(i) => if r.stage != Tagged then None else Some(Put(s, i, Finished(Invalid)))
    case Insert(i, replies) =>
      if r.stage != Tagged then None
      else if r.key in s.orders then Some(Put(s, i, Finished(Error)))
      else Some(Put(s.(orders := s.orders[r.key := Placed(i, r.hash)]), i,
                    if replies then Inserted else Finished(Error)))
    case Abort(i) => if r.stage != Tagged then None else Some(Put(s, i, Finished(Error)))
    case Enqueue(i, ok) =>
      if r.stage != Inserted then None
      else Some(Put(if ok then s.(jobs := s.jobs + [i]) else s, i, Enqueued))
    case Store(i, ok) =>
      if r.stage != Enqueued then None
      else Some(Put(if ok then s.(cache := s.cache[(r.client, r.key) := Record(i, r.hash)]) else s, i, Answering))
    case Send(i) => if r.stage != Answering then None else Some(Put(s, i, Finished(Created(i))))
    case Die(i) => if r.stage.Finished? then None else Some(Put(s, i, Finished(Nothing)))
  }

  // -------------------------------------------------------------- invariants

  /** The request has created the order of its key. */
  ghost predicate Owns(s: State, i: nat)
    requires i < |s.requests|
  {
    s.requests[i].key in s.orders && s.orders[s.requests[i].key] == Placed(i, s.requests[i].hash)
  }

  ghost predicate RequestInv(s: State, i: nat)
    requires i < |s.requests|
  {
    var r := s.requests[i];
    match r.stage
    case Inserted => Owns(s, i) && i !in s.jobs
    case Enqueued => Owns(s, i)
    case Answering => Owns(s, i)
    case Finished(Created(o)) => o == i && Owns(s, i)
    case Finished(Replayed(o)) => r.key in s.orders && s.orders[r.key] == Placed(o, r.hash)
    case Looking => i !in s.jobs && !Owns(s, i)
    case Tagged => i !in s.jobs && !Owns(s, i)
    case _ => true
  }

  ghost predicate Inv(s: State) {
    && (forall i :: 0 <= i < |s.requests| ==> RequestInv(s, i))
    && (forall k :: k in s.orders ==>
         && s.orders[k].order < |s.requests|
         && s.requests[s.orders[k].order].key == k && s.requests[s.orders[k].order].hash == s.orders[k].hash)
    && (forall c :: c in s.cache ==>
         c.1 in s.orders && s.orders[c.1] == Placed(s.cache[c].order, s.cache[c].hash))
    && (forall j :: 0 <= j < |s.jobs| ==> s.jobs[j] < |s.requests| && Owns(s, s.jobs[j]))
    && (forall j, k :: 0 <= j < k < |s.jobs| ==> s.jobs[j] != s.jobs[k])
  }

  /** Orders are never changed or removed. */
  ghost predicate OrdersKept(s: State, t: State) {
    forall k :: k in s.orders ==> k in t.orders && t.orders[k] == s.orders[k]
  }

  lemma StepKeepsOrders(s: State, a: Action)
    requires Next(s, a).Some?
    ensures OrdersKept(s, Next(s, a).value)
    ensures |s.requests| <= |Next(s, a).value.requests|
    ensures forall i :: 0 <= i < |s.requests| ==>
      Next(s, a).value.requests[i].(stage := Looking) == s.requests[i].(stage := Looking)
  {
  }
}

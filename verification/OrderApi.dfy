/** One POST /orders request as the server runs it, with other requests, evictions
    and Redis failures at every await (src/api/middleware/idempotency.ts:22-75,
    src/api/server.ts:87-120, src/domain/services/order-service.ts:66-121). */
module OrderApi {
  import opened Runs
  import opened Idempotency
  import opened IdempotencyTheorems

  /** A step of this request. */
  predicate StepOf(me: nat, a: Action) {
    OnRequest(a) && a.i == me
  }

  /** What the environment does with one request: whether the cache can be read, the
      body is valid, what becomes of the order transaction, whether the queue accepts
      the job, and whether the cache can be written. */
  datatype Env = Env(cacheReads: bool, valid: bool, insert: Outcome, queueAccepts: bool, cacheWrites: bool)

  class OrderApi {
    var orders: map<Key, Placed>
    var cache: map<(Client, Key), Record>
    var jobs: seq<nat>
    var requests: seq<Request>   // every request so far, with the stage it has got to

    ghost var acts: seq<Action>
    ghost var trace: seq<State>

    ghost function Snapshot(): State
      reads this
    {
      State(orders, cache, jobs, requests)
    }

    /** The server's data are what a run of the request system makes of them. */
    ghost predicate Valid()
      reads this
    {
      Trace(Next, trace, acts) && trace[0] == START && trace[|acts|] == Snapshot()
    }

    lemma IsRun()
      requires Valid()
      ensures Exec(Next, START, acts) == Some(Snapshot())
    {
      TraceIsRun(Next, trace, acts);
    }

    constructor ()
      ensures Valid() && Snapshot() == START
    {
      orders, cache, jobs, requests := map[], map[], [], [];
      acts, trace := [], [START];
    }

    /** Note a step that has just happened. */
    ghost method Did(before: State, a: Action)
      requires Trace(Next, trace, acts) && trace[0] == START && trace[|acts|] == before
      requires Next(before, a) == Some(Snapshot())
      modifies this`acts, this`trace
      ensures Valid()
    {
      TraceAppend(Next, trace, acts, a, Snapshot());
      acts, trace := acts + [a], trace + [Snapshot()];
    }

    /** One step of somebody else, if it is possible now. */
    method Act(me: nat, a: Action)
      requires Valid() && me < |requests| && !StepOf(me, a)
      modifies this
      ensures Valid() && me < |requests| && requests[me] == old(requests)[me]
      ensures OrdersKept(old(Snapshot()), Snapshot()) && (me in jobs <==> me in old(jobs))
    {
      ghost var before := Snapshot();
      var next := Next(State(orders, cache, jobs, requests), a);
      if next.Some? {
        orders, cache, jobs, requests := next.value.orders, next.value.cache, next.value.jobs, next.value.requests;
        Did(before, a);
        Idempotency.StepKeepsOrders(before, a);
        if OnRequest(a) { StepFrame(before, a); }
      }
    }

    /** Any number of steps of others, evictions included. */
    method Interfere(me: nat)
      requires Valid() && me < |requests|
      modifies this
      ensures Valid() && me < |requests| && requests[me] == old(requests)[me]
      ensures OrdersKept(old(Snapshot()), Snapshot()) && (me in jobs <==> me in old(jobs))
    {
      var n: nat := *;
      while n > 0
        invariant Valid() && me < |requests| && requests[me] == old(requests)[me]
        invariant OrdersKept(old(Snapshot()), Snapshot()) && (me in jobs <==> me in old(jobs))
      {
        var a: Action := *;
        if !StepOf(me, a) { Act(me, a); }
        n := n - 1;
      }
    }

    /** The request reaches its next stage by one step of its own. */
    method Reach(me: nat, stage: Stage, ghost before: State, ghost a: Action)
      requires Trace(Next, trace, acts) && trace[0] == START && trace[|acts|] == before
      requires before.requests == requests && me < |requests|
      requires Next(before, a) == Some(Put(Snapshot(), me, stage))
      modifies this`requests, this`acts, this`trace
      ensures Valid() && requests == old(requests)[me := old(requests)[me].(stage := stage)]
    {
      requests := requests[me := requests[me].(stage := stage)];
      Did(before, a);
    }

    /** The middleware: replay, refuse, or tag the request and go on (None). When
        Redis is down, store.get swallows the error and answers null. */
    method IdempotencyMiddleware(me: nat, redisUp: bool) returns (reply: Option<Response>)
      requires Valid() && me < |requests| && requests[me].stage == Looking
      modifies this`requests, this`acts, this`trace
      ensures Valid() && |requests| == |old(requests)|
      ensures requests[me] == old(requests)[me].(stage := if reply.Some? then Finished(reply.value) else Tagged)
      ensures var r := old(requests)[me];
        reply == if !redisUp || (r.client, r.key) !in cache then None
                 else if cache[(r.client, r.key)].hash != r.hash then Some(Mismatch)
                 else Some(Replayed(cache[(r.client, r.key)].order))
    {
      var r := requests[me];
      var existing := if redisUp && (r.client, r.key) in cache then Some(cache[(r.client, r.key)]) else None;
      if existing.Some? {
        reply := Some(if existing.value.hash != r.hash then Mismatch else Replayed(existing.value.order));
        Reach(me, Finished(reply.value), Snapshot(), Lookup(me, true));
      } else {
        reply := None;
        Reach(me, Tagged, Snapshot(), Lookup(me, redisUp));
      }
    }

    /** The order transaction under the UNIQUE key; its reply can be lost. */
    method CreateOrder(me: nat, insert: Outcome) returns (created: bool)
      requires Valid() && me < |requests| && requests[me].stage == Tagged
      modifies this`orders, this`requests, this`acts, this`trace
      ensures Valid() && |requests| == |old(requests)|
      ensures requests[me] == old(requests)[me].(stage := if created then Inserted else Finished(Error))
      ensures var r := requests[me];
        && created == (insert == Fine && r.key !in old(orders))
        && orders == if insert != NoEffect && r.key !in old(orders)
                     then old(orders)[r.key := Placed(me, r.hash)] else old(orders)
    {
      var r := requests[me];
      ghost var before := Snapshot();
      if insert == NoEffect {
        Reach(me, Finished(Error), before, Abort(me));
        return false;
      }
      created := r.key !in orders && insert == Fine;
      if r.key !in orders { orders := orders[r.key := Placed(me, r.hash)]; }
      Reach(me, if created then Inserted else Finished(Error), before, Insert(me, insert == Fine));
    }

    /** Enqueue the saga; a failure is logged and the order stands. */
    method EnqueueSaga(me: nat, accepts: bool)
      requires Valid() && me < |requests| && requests[me].stage == Inserted
      modifies this`jobs, this`requests, this`acts, this`trace
      ensures Valid() && |requests| == |old(requests)|
      ensures requests[me] == old(requests)[me].(stage := Enqueued)
      ensures jobs == if accepts then old(jobs) + [me] else old(jobs)
    {
      ghost var before := Snapshot();
      if accepts { jobs := jobs + [me]; }
      Reach(me, Enqueued, before, Action.Enqueue(me, accepts));
    }

    /** onSend: cache the 2xx response under the tag; a failure is swallowed. */
    method OnSend(me: nat, redisUp: bool)
      requires Valid() && me < |requests| && requests[me].stage == Enqueued
      modifies this`cache, this`requests, this`acts, this`trace
      ensures Valid() && |requests| == |old(requests)|
      ensures requests[me] == old(requests)[me].(stage := Answering)
      ensures var r := requests[me];
        cache == if redisUp then old(cache)[(r.client, r.key) := Record(me, r.hash)] else old(cache)
    {
      var r := requests[me];
      ghost var before := Snapshot();
      if redisUp { cache := cache[(r.client, r.key) := Record(me, r.hash)]; }
      Reach(me, Answering, before, Store(me, redisUp));
    }

    /** What the handler's reply says about the order, its job and its record. */
    ghost predicate Answered(me: nat, env: Env, reply: Response)
      reads this
    {
      me < |requests| &&
      var r := requests[me];
      match reply
      case Created(o) =>
        && o == me && env.valid && env.insert == Fine
        && r.key in orders && orders[r.key] == Placed(me, r.hash)
        && (me in jobs <==> env.queueAccepts)
        && (env.cacheWrites ==> (r.client, r.key) in cache && cache[(r.client, r.key)] == Record(me, r.hash))
      case Replayed(o) =>
        env.cacheReads && me !in jobs && r.key in orders && orders[r.key] == Placed(o, r.hash) && o != me
      case Mismatch =>
        && env.cacheReads && me !in jobs
        && r.key in orders && orders[r.key].hash != r.hash && orders[r.key].order != me
      case Invalid => !env.valid && me !in jobs
      case Error =>
        && env.valid && me !in jobs
        && (env.insert != Fine || (r.key in orders && orders[r.key].order != me))
      case Nothing => false
    }

    /** The route handler after the middleware let the request pass. */
    method HandleTagged(me: nat, env: Env) returns (reply: Response)
      requires Valid() && me < |requests| && requests[me].stage == Tagged && me !in jobs
      modifies this
      ensures Valid() && Answered(me, env, reply)
      ensures requests[me] == old(requests)[me].(stage := Finished(reply))
      ensures OrdersKept(old(Snapshot()), Snapshot())
      ensures reply.Created? ==> requests[me].key !in old(orders)
      ensures reply != Mismatch && !reply.Replayed?
    {
      if !env.valid {
        reply := Invalid;
        Reach(me, Finished(reply), Snapshot(), Refuse(me));
        return;
      }
      reply := InsertAndAnswer(me, env);
    }

    method InsertAndAnswer(me: nat, env: Env) returns (reply: Response)
      requires Valid() && me < |requests| && requests[me].stage == Tagged && me !in jobs && env.valid
      modifies this
      ensures Valid() && Answered(me, env, reply)
      ensures requests[me] == old(requests)[me].(stage := Finished(reply))
      ensures OrdersKept(old(Snapshot()), Snapshot())
      ensures reply.Created? ==> requests[me].key !in old(orders)
      ensures reply.Created? || reply == Error
    {
      Interfere(me);
      NotMine(me);
      var created := CreateOrder(me, env.insert);
      if created { reply := EnqueueAndAnswer(me, env); } else { reply := Error; }
    }

    /** A request that has not inserted does not own the order of its key. */
    lemma NotMine(me: nat)
      requires Valid() && me < |requests| && (requests[me].stage == Tagged || requests[me].stage == Looking)
      ensures requests[me].key in orders ==> orders[requests[me].key].order != me
    {
      IsRun();
      Reached(acts, Snapshot());
      assert RequestInv(Snapshot(), me);
    }

    method EnqueueAndAnswer(me: nat, env: Env) returns (reply: Response)
      requires Valid() && me < |requests| && requests[me].stage == Inserted && me !in jobs
      requires env.valid && env.insert == Fine
      requires requests[me].key in orders && orders[requests[me].key] == Placed(me, requests[me].hash)
      modifies this
      ensures Valid() && Answered(me, env, reply) && reply == Created(me)
      ensures requests[me] == old(requests)[me].(stage := Finished(reply))
      ensures OrdersKept(old(Snapshot()), Snapshot())
    {
      Interfere(me);
      EnqueueSaga(me, env.queueAccepts);
      Interfere(me);
      OnSend(me, env.cacheWrites);
      reply := Created(me);
      Reach(me, Finished(reply), Snapshot(), Send(me));
    }

    /** POST /orders. A success names the one order of the key, and its body; a
        key that had an order when the request arrived gets no new one. With a valid
        body, a key that is free until the insert and no call that rejects, the answer
        is Created, the order has its job, and its record is in the cache. */
    method PostOrder(client: Client, key: Key, hash: Hash, env: Env) returns (reply: Response)
      requires Valid()
      modifies this
      ensures Valid() && OrdersKept(old(Snapshot()), Snapshot())
      ensures var me := |old(requests)|;
        && Answered(me, env, reply) && requests[me].(stage := Looking) == Request(client, key, hash, Looking)
        && (env.valid && env.insert == Fine && (key in orders ==> orders[key].order == me) ==> reply == Created(me))
      ensures key in old(orders) ==> !reply.Created?
    {
      var me := |requests|;
      ghost var before := Snapshot();
      IsRun();
      Reached(acts, before);
      requests := requests + [Request(client, key, hash, Looking)];
      Did(before, Arrive(client, key, hash));
      Interfere(me);
      NotMine(me);
      reply := Answer(me, env);
    }

    /** The middleware, and the handler behind it: a record that can be read decides. */
    method Answer(me: nat, env: Env) returns (reply: Response)
      requires Valid() && me < |requests| && requests[me].stage == Looking && me !in jobs
      requires requests[me].key in orders ==> orders[requests[me].key].order != me
      modifies this
      ensures Valid() && OrdersKept(old(Snapshot()), Snapshot())
      ensures Answered(me, env, reply) && requests[me] == old(requests)[me].(stage := Finished(reply))
      ensures reply.Created? ==> requests[me].key !in old(orders)
      ensures var r := old(requests)[me];
        var c := (r.client, r.key);
        if env.cacheReads && c in old(cache)
        then reply == if old(cache)[c].hash != r.hash then Mismatch else Replayed(old(cache)[c].order)
        else reply != Mismatch && !reply.Replayed?
    {
      CachedIsPlaced(me);
      var early := IdempotencyMiddleware(me, env.cacheReads);
      if early.Some? {
        reply := early.value;
      } else {
        reply := HandleTagged(me, env);
      }
    }

    /** A cached record is of the order of its key. */
    lemma CachedIsPlaced(me: nat)
      requires Valid() && me < |requests|
      ensures var c := (requests[me].client, requests[me].key);
        c in cache ==> c.1 in orders && orders[c.1] == Placed(cache[c].order, cache[c].hash)
    {
      IsRun();
      Reached(acts, Snapshot());
    }
  }
}

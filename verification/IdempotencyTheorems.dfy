/** At most one order per Idempotency-Key, whatever the cache does. */
module IdempotencyTheorems {
  import opened Runs
  import opened Idempotency

  predicate OnRequest(a: Action) { !a.Arrive? && !a.Evict? }

  /** What a step of request i leaves alone. */
  lemma StepFrame(s: State, a: Action)
    requires OnRequest(a) && a.i < |s.requests| && RequestStep(s, a, s.requests[a.i]).Some?
    ensures var t := RequestStep(s, a, s.requests[a.i]).value;
      && |t.requests| == |s.requests|
      && t.requests == s.requests[a.i := s.requests[a.i].(stage := t.requests[a.i].stage)]
      && (t.orders == s.orders || (a.Insert? && s.requests[a.i].key !in s.orders
            && t.orders == s.orders[s.requests[a.i].key := Placed(a.i, s.requests[a.i].hash)]))
      && (t.jobs == s.jobs || (a.Enqueue? && t.jobs == s.jobs + [a.i]))
  {
  }

  lemma OthersKeep(s: State, a: Action, j: nat)
    requires Inv(s) && OnRequest(a) && a.i < |s.requests| && RequestStep(s, a, s.requests[a.i]).Some?
    requires j < |s.requests| && j != a.i
    ensures RequestInv(RequestStep(s, a, s.requests[a.i]).value, j)
  {
    StepFrame(s, a);
    assert RequestInv(s, j);
  }

  lemma ActorKeeps(s: State, a: Action)
    requires Inv(s) && OnRequest(a) && a.i < |s.requests| && RequestStep(s, a, s.requests[a.i]).Some?
    ensures RequestInv(RequestStep(s, a, s.requests[a.i]).value, a.i)
  {
    assert RequestInv(s, a.i);
  }

  /** Orders, cache and jobs after a step. */
  lemma TablesKeep(s: State, a: Action)
    requires Inv(s) && OnRequest(a) && a.i < |s.requests| && RequestStep(s, a, s.requests[a.i]).Some?
    ensures var t := RequestStep(s, a, s.requests[a.i]).value;
      && (forall k :: k in t.orders ==>
           && t.orders[k].order < |t.requests|
           && t.requests[t.orders[k].order].key == k && t.requests[t.orders[k].order].hash == t.orders[k].hash)
      && (forall c :: c in t.cache ==>
           c.1 in t.orders && t.orders[c.1] == Placed(t.cache[c].order, t.cache[c].hash))
  {
    StepFrame(s, a);
    assert RequestInv(s, a.i);
  }

  lemma JobsKeep(s: State, a: Action)
    requires Inv(s) && OnRequest(a) && a.i < |s.requests| && RequestStep(s, a, s.requests[a.i]).Some?
    ensures var t := RequestStep(s, a, s.requests[a.i]).value;
      && (forall j :: 0 <= j < |t.jobs| ==> t.jobs[j] < |t.requests| && Owns(t, t.jobs[j]))
      && (forall j, k :: 0 <= j < k < |t.jobs| ==> t.jobs[j] != t.jobs[k])
  {
    StepFrame(s, a);
    assert RequestInv(s, a.i);
  }

  lemma StepKeeps(s: State, a: Action)
    requires Inv(s) && Next(s, a).Some?
    ensures Inv(Next(s, a).value)
  {
    var t := Next(s, a).value;
    if OnRequest(a) {
      TablesKeep(s, a);
      JobsKeep(s, a);
      forall j | 0 <= j < |t.requests| ensures RequestInv(t, j) {
        StepFrame(s, a);
        if j == a.i { ActorKeeps(s, a); } else { OthersKeep(s, a, j); }
      }
    } else {
      forall j | 0 <= j < |t.requests| ensures RequestInv(t, j) {
        if j < |s.requests| { assert RequestInv(s, j); }
      }
    }
  }

  lemma Reached(acts: seq<Action>, s: State)
    requires Exec(Next, START, acts) == Some(s)
    ensures Inv(s)
  {
    forall t, a | Inv(t) && Anything(a) && Next(t, a).Some? ensures Inv(Next(t, a).value) {
      StepKeeps(t, a);
    }
    Invariant(Next, START, acts, Anything, Inv);
  }

  /** Any two successful replies for the same key name the same order and answer
      the same body, from whichever client and however the cache behaves. */
  lemma OneOrderPerKey(acts: seq<Action>, s: State, i: nat, j: nat)
    requires Exec(Next, START, acts) == Some(s)
    requires i < |s.requests| && j < |s.requests| && s.requests[i].key == s.requests[j].key
    requires s.requests[i].stage.Finished? && Success(s.requests[i].stage.reply)
    requires s.requests[j].stage.Finished? && Success(s.requests[j].stage.reply)
    ensures s.requests[i].stage.reply.order == s.requests[j].stage.reply.order
    ensures s.requests[i].hash == s.requests[j].hash
  {
    Reached(acts, s);
    assert RequestInv(s, i) && RequestInv(s, j);
  }

  /** At most one saga job is ever enqueued for a key. */
  lemma OneJobPerKey(acts: seq<Action>, s: State, j: nat, k: nat)
    requires Exec(Next, START, acts) == Some(s) && j < |s.jobs| && k < |s.jobs|
    requires s.jobs[j] < |s.requests| && s.jobs[k] < |s.requests|
    requires s.requests[s.jobs[j]].key == s.requests[s.jobs[k]].key
    ensures j == k
  {
    Reached(acts, s);
    assert Owns(s, s.jobs[j]) && Owns(s, s.jobs[k]);
  }

  /** An order, once placed under a key, stays the order of that key. */
  lemma OrdersStay(s: State, acts: seq<Action>, t: State)
    requires Exec(Next, s, acts) == Some(t)
    ensures OrdersKept(s, t)
  {
    var inv := (u: State) => OrdersKept(s, u);
    forall u, a | inv(u) && Anything(a) && Next(u, a).Some? ensures inv(Next(u, a).value) {
      Idempotency.StepKeepsOrders(u, a);
    }
    Invariant(Next, s, acts, Anything, inv);
  }

  /** A cached record is never replaced by one for another order or another body,
      even when it was evicted and written again in between. */
  lemma CacheNeverChangesItsMind(acts: seq<Action>, s: State, more: seq<Action>, t: State, c: (Client, Key))
    requires Exec(Next, START, acts) == Some(s) && Exec(Next, START, acts + more) == Some(t)
    requires c in s.cache && c in t.cache
    ensures s.cache[c] == t.cache[c]
  {
    ExecConcat(Next, START, acts, more);
    Reached(acts, s);
    Reached(acts + more, t);
    OrdersStay(s, more, t);
  }

  /** The promise to replay, and when it holds: of a retry that arrives when its key
      already has an order, the lookup replays exactly when the record is still
      there to be read and the body is the same; a retry that misses is answered
      with an error and creates nothing. */
  lemma RetryIsReplayedIff(acts: seq<Action>, s: State, i: nat, visible: bool)
    requires Exec(Next, START, acts) == Some(s) && i < |s.requests|
    requires s.requests[i].stage == Looking && s.requests[i].key in s.orders
    ensures var placed := s.orders[s.requests[i].key];
      var c := (s.requests[i].client, s.requests[i].key);
      var t := Next(s, Lookup(i, visible)).value;
      && (t.requests[i].stage == Finished(Replayed(placed.order)) <==>
           (visible && c in s.cache && s.requests[i].hash == placed.hash))
      && (t.requests[i].stage == Tagged <==> !(visible && c in s.cache))
  {
    Reached(acts, s);
  }

  /** A request that arrives when its key already has an order, whatever happens to
      the cache meanwhile, never creates one and enqueues nothing: it is replayed
      that order or gets no success. */
  lemma LateRequestCreatesNothing(acts: seq<Action>, s: State, more: seq<Action>, t: State, i: nat)
    requires Exec(Next, START, acts) == Some(s) && Exec(Next, START, acts + more) == Some(t)
    requires |s.requests| <= i < |t.requests| && t.requests[i].key in s.orders
    ensures var r := t.requests[i];
      && r.key in t.orders && t.orders[r.key] == s.orders[r.key]
      && i !in t.jobs
      && (r.stage.Finished? && Success(r.stage.reply) ==> r.stage.reply == Replayed(s.orders[r.key].order))
  {
    ExecConcat(Next, START, acts, more);
    Reached(acts, s);
    Reached(acts + more, t);
    OrdersStay(s, more, t);
    assert RequestInv(t, i);
    assert !Owns(t, i);
  }

  // ------------------------------------------------------- the lost enqueue

  /** The request is past its one attempt to enqueue, or will never come to it. */
  predicate PastEnqueue(s: State, i: nat) {
    i < |s.requests| && (s.requests[i].stage.Finished? || s.requests[i].stage in {Enqueued, Answering})
  }

  /** An order has a job exactly when its own request enqueued it. */
  lemma {:induction false} JobIffEnqueued(acts: seq<Action>, s: State, i: nat)
    requires Exec(Next, START, acts) == Some(s)
    ensures i in s.jobs <==> Enqueue(i, true) in acts
  {
    if acts != [] {
      var n := |acts| - 1;
      JobIffEnqueued(acts[..n], Exec(Next, START, acts[..n]).value, i);
      assert acts == acts[..n] + [acts[n]];
    }
  }

  lemma StaysWithoutJob(s: State, a: Action, i: nat)
    requires PastEnqueue(s, i) && i !in s.jobs && Next(s, a).Some?
    ensures PastEnqueue(Next(s, a).value, i) && i !in Next(s, a).value.jobs
  {
    if OnRequest(a) { StepFrame(s, a); }
  }

  ghost predicate WithoutJob(s: State, i: nat) {
    PastEnqueue(s, i) && i !in s.jobs
  }

  /** "Will be recovered" is not kept: an order whose own enqueue failed has no job
      in any further run. */
  lemma LostEnqueueIsFinal(s: State, more: seq<Action>, t: State, i: nat)
    requires PastEnqueue(s, i) && i !in s.jobs && Exec(Next, s, more) == Some(t)
    ensures i !in t.jobs
  {
    var inv := (u: State) => WithoutJob(u, i);
    forall u, a | inv(u) && Anything(a) && Next(u, a).Some? ensures inv(Next(u, a).value) {
      StaysWithoutJob(u, a, i);
    }
    Invariant(Next, s, more, Anything, inv);
  }

  lemma OrderPlaced() returns (acts: seq<Action>, s: State)
    ensures Exec(Next, START, acts) == Some(s)
    ensures s.requests == [Request(1, 5, 9, Inserted)] && s.jobs == []
    ensures 5 in s.orders && s.orders[5] == Placed(0, 9)
  {
    acts, s := Then(Next, START, [], START, Arrive(1, 5, 9));
    acts, s := Then(Next, START, acts, s, Lookup(0, true));
    acts, s := Then(Next, START, acts, s, Insert(0, true));
  }

  /** And it happens: the request is answered 201, its order stands, and there is no job. */
  lemma CreatedWithoutJob() returns (acts: seq<Action>, s: State)
    ensures Exec(Next, START, acts) == Some(s)
    ensures |s.requests| == 1 && s.requests[0].stage == Finished(Created(0))
    ensures 5 in s.orders && s.orders[5] == Placed(0, 9) && s.jobs == []
    ensures forall more, t :: Exec(Next, s, more) == Some(t) ==> 0 !in t.jobs
  {
    acts, s := OrderPlaced();
    acts, s := Then(Next, START, acts, s, Enqueue(0, false));
    acts, s := Then(Next, START, acts, s, Store(0, true));
    acts, s := Then(Next, START, acts, s, Send(0));
    forall more, t | Exec(Next, s, more) == Some(t) ensures 0 !in t.jobs {
      LostEnqueueIsFinal(s, more, t, 0);
    }
  }
}

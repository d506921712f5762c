/** No event is lost and retries are bounded, over every interleaving of creators
    and pollers with crashes. */
module OutboxTheorems {
  import opened Runs
  import opened Outbox

  /** Rows are only added, retry counts only grow, jobs are never forgotten. */
  ghost predicate Grows(s: State, t: State) {
    && t.max == s.max
    && |s.rows| <= |t.rows|
    && |s.pollers| == |t.pollers|
    && s.jobs <= t.jobs
    && forall id :: 0 <= id < |s.rows| ==>
         s.rows[id].retry <= t.rows[id].retry && t.rows[id].kind == s.rows[id].kind
  }

  lemma HandleGrows(s: State, a: Action)
    requires (a.GiveUp? || a.Enqueue? || a.MarkPublished? || a.ResetForRetry?)
    requires a.i < |s.pollers| && s.pollers[a.i].todo != [] && s.pollers[a.i].todo[0].id < |s.rows|
    requires Handle(s, a).Some?
    ensures var t := Handle(s, a).value;
      && Grows(s, t) && t.orders == s.orders && |t.rows| == |s.rows|
      && t.pollers == s.pollers[a.i := t.pollers[a.i]]
      && forall id :: 0 <= id < |s.rows| && id != s.pollers[a.i].todo[0].id ==> t.rows[id] == s.rows[id]
  {
  }

  lemma StepGrows(s: State, a: Action)
    requires Next(s, a).Some?
    ensures Grows(s, Next(s, a).value)
  {
    if a.GiveUp? || a.Enqueue? || a.MarkPublished? || a.ResetForRetry? {
      HandleGrows(s, a);
    }
  }

  lemma OtherPollersKeep(s: State, t: State, p: Poller)
    requires PollerInv(s, p) && Grows(s, t)
    ensures PollerInv(t, p)
  {
  }

  lemma AdvanceKeeps(s: State, p: Poller)
    requires PollerInv(s, p) && p.todo != []
    ensures PollerInv(s, Advance(p))
  {
  }

  lemma HandleKeeps(s: State, a: Action)
    requires EventsInv(s)
    requires a.GiveUp? || a.Enqueue? || a.MarkPublished? || a.ResetForRetry?
    requires a.i < |s.pollers| && s.pollers[a.i].todo != [] && s.pollers[a.i].todo[0].id < |s.rows|
    requires Handle(s, a).Some?
    ensures EventsInv(Handle(s, a).value)
  {
    var t := Handle(s, a).value;
    HandleGrows(s, a);
    var p := s.pollers[a.i];
    assert PollerInv(s, p) && RowInv(s, p.todo[0].id);
    OtherPollersKeep(s, t, p);
    AdvanceKeeps(t, p);
    forall j | 0 <= j < |t.pollers| ensures PollerInv(t, t.pollers[j]) {
      if j != a.i { OtherPollersKeep(s, t, s.pollers[j]); }
    }
    forall id | 0 <= id < |t.rows| ensures RowInv(t, id) {
      assert RowInv(s, id);
    }
  }

  lemma StepKeepsEvents(s: State, a: Action)
    requires EventsInv(s) && Next(s, a).Some?
    ensures EventsInv(Next(s, a).value)
  {
    if a.GiveUp? || a.Enqueue? || a.MarkPublished? || a.ResetForRetry? {
      HandleKeeps(s, a);
    } else {
      var t := Next(s, a).value;
      StepGrows(s, a);
      forall j | 0 <= j < |t.pollers| ensures PollerInv(t, t.pollers[j]) {
        if t.pollers[j] == s.pollers[j] { OtherPollersKeep(s, t, s.pollers[j]); }
      }
      forall id | 0 <= id < |t.rows| ensures RowInv(t, id) {
        if id < |s.rows| { assert RowInv(s, id); }
      }
    }
  }

  lemma SameKindsKeepOrders(s: State, t: State)
    requires OrdersInv(s) && t.orders == s.orders && |t.rows| == |s.rows|
    requires forall id :: 0 <= id < |s.rows| ==> t.rows[id].kind == s.rows[id].kind
    ensures OrdersInv(t)
  {
    forall o ensures o in t.orders <==> exists id :: 0 <= id < |t.rows| && t.rows[id].kind == Created(o) {
      if o in s.orders {
        var id :| 0 <= id < |s.rows| && s.rows[id].kind == Created(o);
        assert t.rows[id].kind == Created(o);
      }
    }
  }

  lemma NewRowKeepsOrders(s: State, t: State, kind: Kind)
    requires OrdersInv(s) && t.rows == s.rows + [Row(kind, Pending, 0)]
    requires if kind.Created? then kind.order !in s.orders && t.orders == s.orders + {kind.order} else t.orders == s.orders
    ensures OrdersInv(t)
  {
    forall o ensures o in t.orders <==> exists id :: 0 <= id < |t.rows| && t.rows[id].kind == Created(o) {
      if o in s.orders {
        var id :| 0 <= id < |s.rows| && s.rows[id].kind == Created(o);
        assert t.rows[id].kind == Created(o);
      } else if kind == Created(o) {
        assert t.rows[|s.rows|].kind == Created(o);
      }
    }
  }

  lemma StepKeepsOrders(s: State, a: Action)
    requires OrdersInv(s) && Next(s, a).Some?
    ensures OrdersInv(Next(s, a).value)
  {
    var t := Next(s, a).value;
    if a.CreateOrder? {
      NewRowKeepsOrders(s, t, Created(a.order));
    } else if a.Emit? {
      NewRowKeepsOrders(s, t, Other);
    } else {
      StepGrows(s, a);
      if a.GiveUp? || a.Enqueue? || a.MarkPublished? || a.ResetForRetry? { HandleGrows(s, a); }
      SameKindsKeepOrders(s, t);
    }
  }

  // ------------------------------------------------------------- retry bound

  /** The poller still has to handle a snapshot of the event that allows a retry. */
  ghost predicate InHand(p: Poller, id: nat, max: nat) {
    exists k :: 0 <= k < |p.todo| && p.todo[k].id == id && p.todo[k].retry < max
  }

  ghost function Handlers(pollers: seq<Poller>, id: nat, max: nat): nat {
    if pollers == [] then 0
    else Handlers(pollers[..|pollers| - 1], id, max) + if InHand(pollers[|pollers| - 1], id, max) then 1 else 0
  }

  lemma {:induction false} HandlersAfter(pollers: seq<Poller>, i: nat, p: Poller, id: nat, max: nat)
    requires i < |pollers|
    ensures Handlers(pollers[i := p], id, max) == Handlers(pollers, id, max)
         - (if InHand(pollers[i], id, max) then 1 else 0) + (if InHand(p, id, max) then 1 else 0)
  {
    var n := |pollers| - 1;
    if i == n {
      assert pollers[i := p][..n] == pollers[..n];
    } else {
      assert pollers[i := p][..n] == pollers[..n][i := p];
      HandlersAfter(pollers[..n], i, p, id, max);
    }
  }

  lemma {:induction false} HandlersBounded(pollers: seq<Poller>, id: nat, max: nat)
    ensures Handlers(pollers, id, max) <= |pollers|
  {
    if pollers != [] {
      HandlersBounded(pollers[..|pollers| - 1], id, max);
    }
  }

  lemma {:induction false} NobodyHandles(pollers: seq<Poller>, id: nat, max: nat)
    requires forall i :: 0 <= i < |pollers| ==> !InHand(pollers[i], id, max)
    ensures Handlers(pollers, id, max) == 0
  {
    if pollers != [] {
      NobodyHandles(pollers[..|pollers| - 1], id, max);
    }
  }

  /** The retry count plus the snapshots that may still raise it stay within
      max - 1 + N. */
  ghost predicate RetryInv(s: State) {
    && |s.pollers| >= 1
    && forall id :: 0 <= id < |s.rows| ==>
         s.rows[id].retry + Handlers(s.pollers, id, s.max) <= s.max - 1 + |s.pollers|
  }

  /** What a handled event does to its retry count and to who has it in hand. */
  lemma HandleRetries(s: State, a: Action, id: nat)
    requires EventsInv(s) && id < |s.rows|
    requires a.GiveUp? || a.Enqueue? || a.MarkPublished? || a.ResetForRetry?
    requires a.i < |s.pollers| && s.pollers[a.i].todo != [] && s.pollers[a.i].todo[0].id < |s.rows|
    requires Handle(s, a).Some?
    ensures var t := Handle(s, a).value;
      && (InHand(t.pollers[a.i], id, s.max) ==> InHand(s.pollers[a.i], id, s.max))
      && (t.rows[id].retry == s.rows[id].retry
          || (t.rows[id].retry == s.rows[id].retry + 1
              && InHand(s.pollers[a.i], id, s.max) && !InHand(t.pollers[a.i], id, s.max)))
  {
    var t := Handle(s, a).value;
    var p, q := s.pollers[a.i], t.pollers[a.i];
    assert PollerInv(s, p);
    if InHand(q, id, s.max) {
      var k :| 0 <= k < |q.todo| && q.todo[k].id == id && q.todo[k].retry < s.max;
      if q.todo == p.todo {
        assert p.todo[k].id == id && p.todo[k].retry < s.max;
      } else {
        assert p.todo[k + 1].id == id && p.todo[k + 1].retry < s.max;
      }
    }
    if t.rows[id].retry != s.rows[id].retry {
      assert p.todo[0].id == id && p.todo[0].retry < s.max;
    }
  }

  lemma HandleKeepsRetry(s: State, a: Action)
    requires EventsInv(s) && RetryInv(s)
    requires a.GiveUp? || a.Enqueue? || a.MarkPublished? || a.ResetForRetry?
    requires a.i < |s.pollers| && s.pollers[a.i].todo != [] && s.pollers[a.i].todo[0].id < |s.rows|
    requires Handle(s, a).Some?
    ensures RetryInv(Handle(s, a).value)
  {
    var t := Handle(s, a).value;
    HandleGrows(s, a);
    forall id | 0 <= id < |t.rows|
      ensures t.rows[id].retry + Handlers(t.pollers, id, t.max) <= t.max - 1 + |t.pollers|
    {
      HandleRetries(s, a, id);
      HandlersAfter(s.pollers, a.i, t.pollers[a.i], id, s.max);
    }
  }

  lemma PollKeepsRetry(s: State, i: nat, batch: seq<Snap>)
    requires RetryInv(s) && i < |s.pollers| && s.pollers[i].todo == [] && PendingBatch(s.rows, batch)
    ensures RetryInv(PutPoller(s, i, Poller(batch, Fresh)))
  {
    var p := Poller(batch, Fresh);
    forall id | 0 <= id < |s.rows|
      ensures s.rows[id].retry + Handlers(s.pollers[i := p], id, s.max) <= s.max - 1 + |s.pollers|
    {
      HandlersAfter(s.pollers, i, p, id, s.max);
      HandlersBounded(s.pollers[i := p], id, s.max);
      if InHand(p, id, s.max) {
        assert s.rows[id].retry < s.max;
      }
    }
  }

  lemma CreateKeepsRetry(s: State, row: Row, t: State)
    requires EventsInv(s) && RetryInv(s) && row.retry == 0
    requires t.rows == s.rows + [row] && t.pollers == s.pollers && t.max == s.max
    ensures RetryInv(t)
  {
    var id := |s.rows|;
    forall i | 0 <= i < |s.pollers| ensures !InHand(s.pollers[i], id, s.max) {
      assert PollerInv(s, s.pollers[i]);
    }
    NobodyHandles(s.pollers, id, s.max);
  }

  lemma StepKeepsRetry(s: State, a: Action)
    requires EventsInv(s) && RetryInv(s) && Next(s, a).Some?
    ensures RetryInv(Next(s, a).value)
  {
    match a
    case CreateOrder(o) => CreateKeepsRetry(s, Row(Created(o), Pending, 0), Next(s, a).value);
    case Emit => CreateKeepsRetry(s, Row(Other, Pending, 0), Next(s, a).value);
    case Poll(i, batch) => PollKeepsRetry(s, i, batch);
    case Crash(i) =>
      forall id | 0 <= id < |s.rows|
        ensures s.rows[id].retry + Handlers(s.pollers[i := IDLE], id, s.max) <= s.max - 1 + |s.pollers|
      {
        HandlersAfter(s.pollers, i, IDLE, id, s.max);
      }
    case _ => HandleKeepsRetry(s, a);
  }

  // ---------------------------------------------------------------- theorems

  ghost predicate Inv(s: State) {
    EventsInv(s) && OrdersInv(s)
  }

  lemma Reached(s0: State, acts: seq<Action>, s: State)
    requires Init(s0) && Exec(Next, s0, acts) == Some(s)
    ensures Inv(s)
  {
    forall t, a | Inv(t) && Anything(a) && Next(t, a).Some? ensures Inv(Next(t, a).value) {
      StepKeepsEvents(t, a);
      StepKeepsOrders(t, a);
    }
    Invariant(Next, s0, acts, Anything, Inv);
  }

  /** No event is lost. An order row exists exactly when its order.created event
      row exists, once; and every event is still PENDING, or PUBLISHED with its job
      enqueued under its own id, or FAILED with its retries used up. */
  lemma NoEventIsLost(s0: State, acts: seq<Action>, s: State)
    requires Init(s0) && Exec(Next, s0, acts) == Some(s)
    ensures forall o :: o in s.orders <==> exists id :: 0 <= id < |s.rows| && s.rows[id].kind == Created(o)
    ensures forall j, k :: 0 <= j < k < |s.rows| && s.rows[j].kind.Created? ==> s.rows[j].kind != s.rows[k].kind
    ensures forall id :: 0 <= id < |s.rows| ==>
      || s.rows[id].status == Pending
      || (s.rows[id].status == Published && id in s.jobs)
      || (s.rows[id].status == Failed && s.rows[id].retry >= s.max)
  {
    Reached(s0, acts, s);
    forall id | 0 <= id < |s.rows|
      ensures || s.rows[id].status == Pending
              || (s.rows[id].status == Published && id in s.jobs)
              || (s.rows[id].status == Failed && s.rows[id].retry >= s.max)
    {
      assert RowInv(s, id);
    }
  }

  ghost predicate BoundedInv(n: nat, s: State) {
    EventsInv(s) && RetryInv(s) && |s.pollers| == n
  }

  /** With N pollers working from stale snapshots, an event is retried at most
      outboxMaxRetries + N - 1 times. */
  lemma RetriesAreBounded(s0: State, acts: seq<Action>, s: State, id: nat)
    requires Init(s0) && |s0.pollers| >= 1 && Exec(Next, s0, acts) == Some(s) && id < |s.rows|
    ensures s.rows[id].retry <= s.max + |s0.pollers| - 1
  {
    var n := |s0.pollers|;
    forall t, a | BoundedInv(n, t) && Anything(a) && Next(t, a).Some? ensures BoundedInv(n, Next(t, a).value) {
      StepKeepsEvents(t, a);
      StepKeepsRetry(t, a);
      StepGrows(t, a);
    }
    Invariant(Next, s0, acts, Anything, t => BoundedInv(n, t));
  }

  /** Pollers from `from` up to `to` have the event in hand, the others are idle. */
  function Hands(n: nat, seen: nat, from: nat, to: nat): seq<Poller> {
    seq(n, i => if from <= i < to then Poller([Snap(0, seen)], Fresh) else IDLE)
  }

  /** One event, retried r times, that some pollers took in hand when it had been retried `seen` times. */
  function Held(max: nat, n: nat, r: nat, seen: nat, from: nat, to: nat): State {
    State(max, [Row(Created(0), Pending, r)], {0}, {}, Hands(n, seen, from, to))
  }

  /** Another poller takes the event in hand. */
  lemma PollOnce(max: nat, n: nat, r: nat, k: nat)
    requires k < n
    ensures Next(Held(max, n, r, r, 0, k), Poll(k, [Snap(0, r)])) == Some(Held(max, n, r, r, 0, k + 1))
  {
    var s, batch := Held(max, n, r, r, 0, k), [Snap(0, r)];
    assert PendingBatch(s.rows, batch);
    assert s.pollers[k := Poller(batch, Fresh)] == Hands(n, r, 0, k + 1);
  }

  /** A poller that has the event in hand fails to enqueue it and counts a retry. */
  lemma FailOnce(max: nat, n: nat, r: nat, seen: nat, k: nat, to: nat)
    requires k < to <= n && seen < max
    ensures var s := Next(Held(max, n, r, seen, k, to), Enqueue(k, NoEffect));
      s.Some? && Next(s.value, ResetForRetry(k, Fine)) == Some(Held(max, n, r + 1, seen, k + 1, to))
  {
    var s := Held(max, n, r, seen, k, to);
    var caught := Poller([Snap(0, seen)], Caught);
    assert Next(s, Enqueue(k, NoEffect)) == Some(PutPoller(s, k, caught));
    assert Advance(caught) == IDLE;
    assert s.pollers[k := caught][k := IDLE] == Hands(n, seen, k + 1, to);
    assert s.rows[0 := SetForRetry(s.rows[0])] == [Row(Created(0), Pending, r + 1)];
  }

  ghost predicate EndsIn(s0: State, acts: seq<Action>, s: State) {
    Exec(Next, s0, acts) == Some(s)
  }

  /** The run ends there; said of whatever equals it, so that it is unfolded only
      where it is used. */
  ghost predicate Gets(s0: State, acts: seq<Action>, t: State) {
    forall s :: s == t ==> EndsIn(s0, acts, s)
  }

  lemma ThenFail(s0: State, acts: seq<Action>, max: nat, n: nat, r: nat, seen: nat, k: nat, to: nat)
    returns (longer: seq<Action>)
    requires k < to <= n && seen < max && Gets(s0, acts, Held(max, n, r, seen, k, to))
    ensures Gets(s0, longer, Held(max, n, r + 1, seen, k + 1, to))
  {
    assert EndsIn(s0, acts, Held(max, n, r, seen, k, to));
    FailOnce(max, n, r, seen, k, to);
    var s;
    longer, s := Then(Next, s0, acts, Held(max, n, r, seen, k, to), Enqueue(k, NoEffect));
    longer, s := Then(Next, s0, longer, s, ResetForRetry(k, Fine));
  }

  ghost function Begun(max: nat, n: nat): State {
    State(max, [], {}, {}, seq(n, _ => IDLE))
  }

  lemma CreateOnce(max: nat, n: nat)
    ensures Next(Begun(max, n), CreateOrder(0)) == Some(Held(max, n, 0, 0, 0, 0))
  {
    var s := Begun(max, n);
    assert s.pollers == Hands(n, 0, 0, 0);
    assert s.rows + [Row(Created(0), Pending, 0)] == [Row(Created(0), Pending, 0)];
    assert s.orders + {0} == {0};
  }

  lemma ThenPoll(s0: State, acts: seq<Action>, max: nat, n: nat, r: nat, k: nat) returns (longer: seq<Action>)
    requires k < n && Gets(s0, acts, Held(max, n, r, r, 0, k))
    ensures Gets(s0, longer, Held(max, n, r, r, 0, k + 1))
  {
    assert EndsIn(s0, acts, Held(max, n, r, r, 0, k));
    PollOnce(max, n, r, k);
    var s;
    longer, s := Then(Next, s0, acts, Held(max, n, r, r, 0, k), Poll(k, [Snap(0, r)]));
  }

  /** A poller takes the event in hand and fails, while the others are idle. */
  lemma ThenRetry(s0: State, acts: seq<Action>, max: nat, n: nat, r: nat) returns (longer: seq<Action>)
    requires n >= 1 && r < max && Gets(s0, acts, Held(max, n, r, r, 0, 0))
    ensures Gets(s0, longer, Held(max, n, r + 1, r + 1, 0, 0))
  {
    longer := ThenPoll(s0, acts, max, n, r, 0);
    longer := ThenFail(s0, longer, max, n, r, r, 0, 1);
    AllIdle(max, n, r + 1, r);
  }

  lemma AllIdle(max: nat, n: nat, r: nat, seen: nat)
    ensures Held(max, n, r, seen, 1, 1) == Held(max, n, r, r, 0, 0)
  {
    assert Hands(n, seen, 1, 1) == Hands(n, r, 0, 0);
  }

  /** One poller alone retries the event up to max times. */
  lemma {:induction false} RetryAlone(max: nat, n: nat, r: nat) returns (acts: seq<Action>)
    requires n >= 1 && r <= max
    ensures Gets(Begun(max, n), acts, Held(max, n, r, r, 0, 0))
  {
    if r == 0 {
      CreateOnce(max, n);
      var s;
      acts, s := Then(Next, Begun(max, n), [], Begun(max, n), CreateOrder(0));
    } else {
      acts := RetryAlone(max, n, r - 1);
      acts := ThenRetry(Begun(max, n), acts, max, n, r - 1);
    }
  }

  /** Then k pollers take it in hand at once. */
  lemma {:induction false} PollAll(max: nat, n: nat, r: nat, k: nat) returns (acts: seq<Action>)
    requires n >= 1 && r <= max && k <= n
    ensures Gets(Begun(max, n), acts, Held(max, n, r, r, 0, k))
  {
    if k == 0 {
      acts := RetryAlone(max, n, r);
    } else {
      acts := PollAll(max, n, r, k - 1);
      acts := ThenPoll(Begun(max, n), acts, max, n, r, k - 1);
    }
  }

  /** And those from the k-th up to the n-th fail, one after another. */
  lemma {:induction false} FailAll(s0: State, acts: seq<Action>, max: nat, n: nat, r: nat, seen: nat, k: nat)
    returns (longer: seq<Action>)
    requires k <= n && seen < max && Gets(s0, acts, Held(max, n, r, seen, k, n))
    ensures Gets(s0, longer, Held(max, n, r + n - k, seen, n, n))
    decreases n - k
  {
    if k == n {
      longer := acts;
    } else {
      longer := ThenFail(s0, acts, max, n, r, seen, k, n);
      longer := FailAll(s0, longer, max, n, r + 1, seen, k + 1);
    }
  }

  /** The retry bound is sharp for every number of pollers: some run gets there. */
  lemma RetryBoundIsReached(max: nat, n: nat) returns (acts: seq<Action>, s: State)
    requires n >= 1 && max >= 1
    ensures Init(Begun(max, n)) && Exec(Next, Begun(max, n), acts) == Some(s)
    ensures |s.rows| == 1 && s.rows[0].retry == max + n - 1
  {
    acts := PollAll(max, n, max - 1, n);
    acts := FailAll(Begun(max, n), acts, max, n, max - 1, max - 1, 0);
    s := Held(max, n, max - 1 + n, max - 1, n, n);
    assert EndsIn(Begun(max, n), acts, s);
  }

  // ------------------------------------------------------------ one processor

  /** With one processor, the rest of its batch is still PENDING, and so is the event
      it is at, unless a lost reply has left that one PUBLISHED. */
  ghost predicate SoleInv(s: State) {
    && EventsInv(s)
    && |s.pollers| == 1
    && (forall k :: 0 < k < |s.pollers[0].todo| ==> StatusAt(s, k) == Pending)
    && (s.pollers[0].todo != [] ==>
         StatusAt(s, 0) == Pending || (s.pollers[0].at == Caught && StatusAt(s, 0) == Published))
  }

  /** The status of the k-th event in the one processor's hand. */
  function StatusAt(s: State, k: nat): Status {
    if |s.pollers| == 1 && k < |s.pollers[0].todo| && s.pollers[0].todo[k].id < |s.rows|
    then s.rows[s.pollers[0].todo[k].id].status else Pending
  }

  /** A step on the first event leaves the others of the batch PENDING. */
  lemma RestStaysPending(s: State, t: State)
    requires SoleInv(s) && s.pollers[0].todo != [] && |t.rows| == |s.rows|
    requires forall id :: 0 <= id < |s.rows| && id != s.pollers[0].todo[0].id ==> t.rows[id] == s.rows[id]
    ensures forall k {:trigger s.pollers[0].todo[1..][k]} :: 0 <= k < |s.pollers[0].todo[1..]| ==>
      var id := s.pollers[0].todo[1..][k].id; id < |t.rows| && t.rows[id].status == Pending
  {
    assert PollerInv(s, s.pollers[0]);
    forall k | 0 < k < |s.pollers[0].todo|
      ensures s.pollers[0].todo[k].id < |t.rows| && t.rows[s.pollers[0].todo[k].id].status == Pending
    {
      assert s.pollers[0].todo[0].id < s.pollers[0].todo[k].id && StatusAt(s, k) == Pending;
    }
  }

  lemma SoleHandle(s: State, a: Action)
    requires SoleInv(s)
    requires a.GiveUp? || a.Enqueue? || a.MarkPublished? || a.ResetForRetry?
    requires a.i < |s.pollers| && s.pollers[a.i].todo != [] && s.pollers[a.i].todo[0].id < |s.rows|
    requires Handle(s, a).Some?
    ensures SoleInv(Handle(s, a).value)
  {
    HandleKeeps(s, a);
    HandleGrows(s, a);
    HandleEnds(s, a);
    var t := Handle(s, a).value;
    RestStaysPending(s, t);
    StillSole(s, t);
  }

  lemma StillSole(s: State, t: State)
    requires SoleInv(s) && s.pollers[0].todo != [] && |t.rows| == |s.rows| && |t.pollers| == 1
    requires EventsInv(t)
    requires forall k {:trigger s.pollers[0].todo[1..][k]} :: 0 <= k < |s.pollers[0].todo[1..]| ==>
      var id := s.pollers[0].todo[1..][k].id; id < |t.rows| && t.rows[id].status == Pending
    requires var p, q := s.pollers[0], t.pollers[0];
      || q.todo == p.todo[1..]
      || q.todo == []
      || (q.todo == p.todo && t.rows == s.rows && p.at != Caught)
      || (q.todo == p.todo && q.at == Caught && p.todo[0].id < |t.rows| && t.rows[p.todo[0].id].status == Published)
    ensures SoleInv(t)
  {
    var p, q := s.pollers[0], t.pollers[0];
    forall k | 0 < k < |q.todo| ensures StatusAt(t, k) == Pending {
      if q.todo == p.todo {
        assert p.todo[k] == p.todo[1..][k - 1];
      }
    }
  }

  /** After a step the poller moved on, or dropped its batch, or is at the same event. */
  lemma HandleEnds(s: State, a: Action)
    requires a.GiveUp? || a.Enqueue? || a.MarkPublished? || a.ResetForRetry?
    requires a.i < |s.pollers| && s.pollers[a.i].todo != [] && s.pollers[a.i].todo[0].id < |s.rows|
    requires Handle(s, a).Some?
    ensures var t := Handle(s, a).value;
      || t.pollers[a.i].todo == s.pollers[a.i].todo[1..]
      || t.pollers[a.i].todo == []
      || (t.pollers[a.i].todo == s.pollers[a.i].todo && t.rows == s.rows && s.pollers[a.i].at != Caught)
      || (t.pollers[a.i].todo == s.pollers[a.i].todo && t.pollers[a.i].at == Caught
          && t.rows[s.pollers[a.i].todo[0].id].status == Published)
  {
  }

  lemma SoleStep(s: State, a: Action)
    requires SoleInv(s) && Next(s, a).Some?
    ensures SoleInv(Next(s, a).value)
  {
    StepKeepsEvents(s, a);
    if a.GiveUp? || a.Enqueue? || a.MarkPublished? || a.ResetForRetry? {
      SoleHandle(s, a);
    } else {
      SoleOther(s, a);
    }
  }

  lemma SoleOther(s: State, a: Action)
    requires SoleInv(s) && Next(s, a).Some?
    requires !a.GiveUp? && !a.Enqueue? && !a.MarkPublished? && !a.ResetForRetry?
    ensures var t := Next(s, a).value;
      && |t.pollers| == 1
      && (forall k :: 0 < k < |t.pollers[0].todo| ==> StatusAt(t, k) == Pending)
      && (t.pollers[0].todo != [] ==>
           StatusAt(t, 0) == Pending || (t.pollers[0].at == Caught && StatusAt(t, 0) == Published))
  {
    var t := Next(s, a).value;
    assert PollerInv(s, s.pollers[0]);
    forall k | 0 <= k < |t.pollers[0].todo|
      ensures t.pollers[0] == s.pollers[0] ==> StatusAt(t, k) == StatusAt(s, k)
      ensures t.pollers[0] != s.pollers[0] ==> StatusAt(t, k) == Pending
    {
    }
  }

  lemma SoleReached(s0: State, acts: seq<Action>, s: State)
    requires Init(s0) && |s0.pollers| == 1 && Exec(Next, s0, acts) == Some(s)
    ensures SoleInv(s)
  {
    forall t, a | SoleInv(t) && Anything(a) && Next(t, a).Some? ensures SoleInv(Next(t, a).value) {
      SoleStep(t, a);
    }
    Invariant(Next, s0, acts, Anything, SoleInv);
  }

  /** Whether PUBLISHED and FAILED are terminal with one processor, over every run:
      a step changes such a row exactly when it is the reset of the event that the
      processor is at, with an effect; and a FAILED row is never changed. */
  lemma ReopenedIff(s0: State, acts: seq<Action>, s: State, a: Action, id: nat)
    requires Init(s0) && |s0.pollers| == 1 && Exec(Next, s0, acts) == Some(s)
    requires Next(s, a).Some? && id < |s.rows| && s.rows[id].status != Pending
    ensures |s.pollers| == 1 && id < |Next(s, a).value.rows|
    ensures Next(s, a).value.rows[id] != s.rows[id] <==>
      (a.ResetForRetry? && a.outcome != NoEffect && s.pollers[0].todo != [] && s.pollers[0].todo[0].id == id)
    ensures s.rows[id].status == Failed ==> Next(s, a).value.rows[id] == s.rows[id]
  {
    SoleReached(s0, acts, s);
    if a.GiveUp? || a.Enqueue? || a.MarkPublished? || a.ResetForRetry? {
      HandleGrows(s, a);
      SoleEffect(s, a, id);
    }
  }

  lemma SoleEffect(s: State, a: Action, id: nat)
    requires SoleInv(s) && id < |s.rows| && s.rows[id].status != Pending
    requires a.GiveUp? || a.Enqueue? || a.MarkPublished? || a.ResetForRetry?
    requires a.i < |s.pollers| && s.pollers[a.i].todo != [] && s.pollers[a.i].todo[0].id < |s.rows|
    requires Handle(s, a).Some? && |Handle(s, a).value.rows| == |s.rows|
    ensures Handle(s, a).value.rows[id] != s.rows[id] <==>
      (a.ResetForRetry? && a.outcome != NoEffect && s.pollers[0].todo[0].id == id)
    ensures s.rows[id].status == Failed ==> Handle(s, a).value.rows[id] == s.rows[id]
  {
    assert StatusAt(s, 0) == s.rows[s.pollers[0].todo[0].id].status;
  }

  // ------------------------------------------------------ runs that reopen

  /** One processor reopens a published event when the reply to markPublished is
      lost: the catch block resets what has already been marked. */
  lemma LostMarkReopens(max: nat) returns (acts: seq<Action>, s: State, more: seq<Action>, t: State)
    requires max >= 1
    ensures Init(Begun(max, 1)) && Exec(Next, Begun(max, 1), acts) == Some(s)
    ensures |s.rows| == 1 && s.rows[0].status == Published
    ensures acts < more && Exec(Next, Begun(max, 1), more) == Some(t)
    ensures |t.rows| == 1 && t.rows[0].status == Pending
  {
    acts := PollAll(max, 1, 0, 1);
    s := Held(max, 1, 0, 0, 0, 1);
    assert EndsIn(Begun(max, 1), acts, s);
    acts, s := Then(Next, Begun(max, 1), acts, s, Enqueue(0, Fine));
    acts, s := Then(Next, Begun(max, 1), acts, s, MarkPublished(0, LostReply));
    more, t := Then(Next, Begun(max, 1), acts, s, ResetForRetry(0, Fine));
  }

  /** Two processors reopen a published event without any reply being lost: the
      second one's enqueue fails after the first has marked the event. */
  lemma StaleSnapshotReopens(max: nat) returns (acts: seq<Action>, s: State, more: seq<Action>, t: State)
    requires max >= 1
    ensures Init(Begun(max, 2)) && Exec(Next, Begun(max, 2), acts) == Some(s)
    ensures |s.rows| == 1 && s.rows[0].status == Published
    ensures acts < more && Exec(Next, Begun(max, 2), more) == Some(t)
    ensures |t.rows| == 1 && t.rows[0].status == Pending
  {
    acts := PollAll(max, 2, 0, 2);
    s := Held(max, 2, 0, 0, 0, 2);
    assert EndsIn(Begun(max, 2), acts, s);
    acts, s := Then(Next, Begun(max, 2), acts, s, Enqueue(0, Fine));
    acts, s := Then(Next, Begun(max, 2), acts, s, MarkPublished(0, Fine));
    more, t := Then(Next, Begun(max, 2), acts, s, Enqueue(1, NoEffect));
    more, t := Then(Next, Begun(max, 2), more, t, ResetForRetry(1, Fine));
  }
}

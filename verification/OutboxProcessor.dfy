/** The outbox processor as it runs (src/events/outbox/outbox-processor.ts:76-121),
    with queue.add and every statement free to reject, before or after its effect. */
module OutboxProcessor {
  import opened Runs
  import opened Outbox
  import opened OutboxDrain
  import OutboxTheorems

  class OutboxProcessor {
    var rows: seq<Row>
    var jobs: set<nat>
    const max: nat
    const fate: nat -> Outcome        // what becomes of the i-th statement
    const queueFate: nat -> Outcome   // and of the i-th queue.add
    var calls: nat
    var adds: nat

    ghost var orders: set<nat>
    ghost var poller: Poller
    ghost var refused: set<nat>    // the events whose queue.add ever rejected
    ghost var rejections: nat      // how many statements rejected
    ghost var aborts: nat          // how many of them outside the try block
    ghost var acts: seq<Action>
    ghost var trace: seq<State>

    ghost function Snapshot(): State
      reads this
    {
      State(max, rows, orders, jobs, [poller])
    }

    /** The table is what a run of the outbox system with one poller makes of it. */
    ghost predicate Valid()
      reads this
    {
      Trace(Next, trace, acts) && Init(trace[0]) && |trace[0].pollers| == 1 && trace[|acts|] == Snapshot()
    }

    /** So whatever holds of every such run holds of this object. */
    lemma IsRun()
      requires Valid()
      ensures Exec(Next, trace[0], acts) == Some(Snapshot())
    {
      TraceIsRun(Next, trace, acts);
    }

    /** Nothing is lost, whatever rejected on the way: an event that is no longer
        PENDING has its job in the queue or has used up its retries. */
    lemma NothingIsLost(id: nat)
      requires Valid() && id < |rows| && rows[id].status != Pending
      ensures if rows[id].status == Published then id in jobs else rows[id].retry >= max
    {
      IsRun();
      OutboxTheorems.NoEventIsLost(trace[0], acts, Snapshot());
    }

    constructor (max: nat, fate: nat -> Outcome, queueFate: nat -> Outcome)
      ensures Valid() && rows == [] && jobs == {} && refused == {} && this.max == max
      ensures poller == IDLE && this.fate == fate && this.queueFate == queueFate
    {
      rows, jobs, orders, refused, rejections, aborts, calls, adds := [], {}, {}, {}, 0, 0, 0, 0;
      this.max, this.fate, this.queueFate := max, fate, queueFate;
      poller, acts, trace := IDLE, [], [State(max, [], {}, {}, [IDLE])];
    }

    /** Note a step that has just happened. */
    ghost method Did(before: State, a: Action)
      requires Trace(Next, trace, acts) && Init(trace[0]) && |trace[0].pollers| == 1 && trace[|acts|] == before
      requires Next(before, a) == Some(Snapshot())
      modifies this`acts, this`trace
      ensures Valid()
    {
      TraceAppend(Next, trace, acts, a, Snapshot());
      acts, trace := acts + [a], trace + [Snapshot()];
    }

    /** An order and its event, in one transaction. */
    method Create(order: nat)
      requires Valid() && order !in orders
      modifies this`rows, this`orders, this`acts, this`trace
      ensures Valid() && rows == old(rows) + [Row(Created(order), Pending, 0)]
    {
      ghost var before := Snapshot();
      rows, orders := rows + [Row(Created(order), Pending, 0)], orders + {order};
      Did(before, CreateOrder(order));
    }

    /** The fate of the statement that is run now. */
    method NextFate() returns (outcome: Outcome)
      modifies this`calls, this`rejections
      ensures calls == old(calls) + 1 && outcome == fate(old(calls))
      ensures rejections == old(rejections) + if outcome == Fine then 0 else 1
    {
      outcome := fate(calls);
      calls := calls + 1;
      if outcome != Fine { rejections := rejections + 1; }
    }

    /** getPending(100): scan in creation order until the limit. */
    method GetPending() returns (r: Reply<seq<Snap>>)
      requires Valid() && poller == IDLE
      modifies this`calls, this`poller, this`rejections, this`aborts, this`acts, this`trace
      ensures Valid()
      ensures rejections == old(rejections) + if r.Rejected? then 1 else 0
      ensures aborts == old(aborts) + if r.Rejected? then 1 else 0
      ensures poller == if r.Rejected? then IDLE else Poller(r.value, Fresh)
      ensures r.Answer? ==> r.value == FirstPending(rows, |rows|)
    {
      var outcome := NextFate();
      if outcome != Fine {
        aborts := aborts + 1;
        return Rejected;
      }
      var events := [];
      var found := 0;
      for i := 0 to |rows|
        invariant events == FirstPending(rows, i) && found == Pendings(rows, i)
      {
        if rows[i].status == Pending {
          if found < BATCH { events := events + [Snap(i, rows[i].retry)]; }
          found := found + 1;
        }
      }
      FirstPendingIsBatch(rows);
      ghost var before := Snapshot();
      poller := Poller(events, Fresh);
      assert before.pollers[0 := poller] == [poller];
      Did(before, Poll(0, events));
      r := Answer(events);
    }

    /** An UPDATE of the event at hand: `row` is what it makes of its row. */
    method Update(event: Snap, row: Row) returns (outcome: Outcome)
      requires event.id < |rows|
      modifies this`calls, this`rows, this`rejections
      ensures rows == if outcome == NoEffect then old(rows) else old(rows)[event.id := row]
      ensures calls == old(calls) + 1 && outcome == fate(old(calls))
      ensures rejections == old(rejections) + if outcome == Fine then 0 else 1
    {
      outcome := NextFate();
      if outcome != NoEffect { rows := rows[event.id := row]; }
    }

    ghost function Now(): Tables
      reads this
    {
      Tables(rows, jobs, refused)
    }

    ghost predicate At(todo: seq<Snap>, at: At)
      reads this
    {
      todo != [] && todo[0].id < |rows| && poller == Poller(todo, at)
    }

    /** markFailed(id, false) */
    method MarkFailed(ghost todo: seq<Snap>, event: Snap) returns (ok: bool)
      requires Valid() && At(todo, Fresh) && event == todo[0] && event.retry >= max
      modifies this`calls, this`rows, this`rejections, this`aborts, this`poller, this`acts, this`trace
      ensures Valid() && poller == if ok then Poller(todo[1..], Fresh) else IDLE
      ensures rows == old(rows)[event.id := SetFailed(old(rows)[event.id])] || (!ok && rows == old(rows))
      ensures rejections == old(rejections) + if ok then 0 else 1
      ensures aborts == old(aborts) + if ok then 0 else 1
    {
      ghost var before := Snapshot();
      var outcome := Update(event, SetFailed(rows[event.id]));
      ok := outcome == Fine;
      if !ok { aborts := aborts + 1; }
      poller := if ok then Poller(todo[1..], Fresh) else IDLE;
      assert before.pollers[0 := poller] == [poller];
      Did(before, GiveUp(0, outcome));
    }

    /** queue.add under the event's own id; it can reject after the job is in. */
    method AddJob(ghost todo: seq<Snap>, event: Snap) returns (ok: bool)
      requires Valid() && At(todo, Fresh) && event == todo[0] && event.retry < max
      modifies this`adds, this`jobs, this`refused, this`poller, this`acts, this`trace
      ensures Valid() && poller == Poller(todo, if ok then Enqueued else Caught)
      ensures adds == old(adds) + 1 && (ok <==> queueFate(old(adds)) == Fine)
      ensures jobs == if queueFate(old(adds)) == NoEffect then old(jobs) else old(jobs) + {event.id}
      ensures refused == if ok then old(refused) else old(refused) + {event.id}
    {
      var outcome := queueFate(adds);
      adds := adds + 1;
      ghost var before := Snapshot();
      if outcome != NoEffect { jobs := jobs + {event.id}; }
      ok := outcome == Fine;
      if !ok { refused := refused + {event.id}; }
      poller := Poller(todo, if ok then Enqueued else Caught);
      assert before.pollers[0 := poller] == [poller];
      Did(before, Enqueue(0, outcome));
    }

    method MarkAsPublished(ghost todo: seq<Snap>, event: Snap) returns (ok: bool)
      requires Valid() && At(todo, Enqueued) && event == todo[0]
      modifies this`calls, this`rows, this`rejections, this`poller, this`acts, this`trace
      ensures Valid() && poller == if ok then Poller(todo[1..], Fresh) else Poller(todo, Caught)
      ensures rows == old(rows)[event.id := SetPublished(old(rows)[event.id])] || (!ok && rows == old(rows))
      ensures rejections == old(rejections) + if ok then 0 else 1
    {
      ghost var before := Snapshot();
      var outcome := Update(event, SetPublished(rows[event.id]));
      ok := outcome == Fine;
      poller := if ok then Poller(todo[1..], Fresh) else Poller(todo, Caught);
      assert before.pollers[0 := poller] == [poller];
      Did(before, MarkPublished(0, outcome));
    }

    /** In the catch block. */
    method Reset(ghost todo: seq<Snap>, event: Snap) returns (ok: bool)
      requires Valid() && At(todo, Caught) && event == todo[0]
      modifies this`calls, this`rows, this`rejections, this`aborts, this`poller, this`acts, this`trace
      ensures Valid() && poller == if ok then Poller(todo[1..], Fresh) else IDLE
      ensures rows == old(rows)[event.id := SetForRetry(old(rows)[event.id])] || (!ok && rows == old(rows))
      ensures rejections == old(rejections) + if ok then 0 else 1
      ensures aborts == old(aborts) + if ok then 0 else 1
    {
      ghost var before := Snapshot();
      var outcome := Update(event, SetForRetry(rows[event.id]));
      ok := outcome == Fine;
      if !ok { aborts := aborts + 1; }
      poller := if ok then Poller(todo[1..], Fresh) else IDLE;
      assert before.pollers[0 := poller] == [poller];
      Did(before, ResetForRetry(0, outcome));
    }

    /** One event of the batch. Whatever rejects, only its own row changes; if no
        statement does, it is given up, published or kept for retry as its snapshot
        and the queue decide. `ok` is false when the rest of the batch is dropped. */
    method HandleOne(ghost todo: seq<Snap>, event: Snap) returns (ok: bool, accepted: bool)
      requires Valid() && At(todo, Fresh) && event == todo[0] && event.retry == rows[event.id].retry
      modifies this`calls, this`adds, this`rows, this`jobs, this`refused, this`rejections, this`aborts,
               this`poller, this`acts, this`trace
      ensures Valid() && poller == if ok then Poller(todo[1..], Fresh) else IDLE
      ensures |rows| == |old(rows)| && rows == old(rows)[event.id := rows[event.id]]
      ensures rejections >= old(rejections) && aborts == old(aborts) + if ok then 0 else 1
      ensures aborts - old(aborts) <= rejections - old(rejections)
      ensures rejections == old(rejections) ==> rows[event.id] == Handled(old(rows)[event.id], max, accepted)
      ensures accepted ==> event.retry < max && event.id in jobs
      ensures jobs == old(jobs) + {event.id} || (!accepted && jobs == old(jobs))
      ensures event.retry >= max ==> jobs == old(jobs)
      ensures refused == if accepted || event.retry >= max then old(refused) else old(refused) + {event.id}
    {
      accepted := false;
      if event.retry >= max {
        ok := MarkFailed(todo, event);
        return;
      }
      accepted := AddJob(todo, event);
      if accepted {
        ok := MarkAsPublished(todo, event);
        if ok { return; }
      }
      ok := Reset(todo, event);
    }

    /** The loop over a batch of different events. */
    method HandleAll(events: seq<Snap>) returns (ok: bool, ghost up: set<nat>, ghost down: set<nat>)
      requires Valid() && poller == Poller(events, Fresh) && Current(rows, events)
      modifies this`calls, this`adds, this`rows, this`jobs, this`refused, this`rejections, this`aborts,
               this`poller, this`acts, this`trace
      ensures Valid() && poller == IDLE && |rows| == |old(rows)|
      ensures rejections >= old(rejections) && aborts == old(aborts) + if ok then 0 else 1
      ensures aborts - old(aborts) <= rejections - old(rejections)
      ensures ok ==> TriedSoFar(events, |events|, max, up + down)
      ensures refused == old(refused) + down && up !! down
      ensures old(jobs) + up <= jobs <= old(jobs) + up + down
      ensures rejections == old(rejections) ==>
        Halfway(old(rows), rows, events, |events|, max, up) && TriedSoFar(events, |events|, max, up + down)
    {
      up, down, ok := {}, {}, true;
      for k := 0 to |events|
        invariant Valid() && ok && poller == Poller(events[k..], Fresh)
        invariant rejections >= old(rejections) && aborts == old(aborts)
        invariant Progress(old(Now()), Now(), events, k, max, up, down, rejections == old(rejections))
      {
        ghost var before, clean := Now(), rejections == old(rejections);
        var accepted;
        ok, accepted := HandleOne(events[k..], events[k]);
        ProgressAfter(old(Now()), before, Now(), events, k, max, up, down, clean, rejections == old(rejections), accepted);
        up, down := if accepted then up + {events[k].id} else up,
                    if !accepted && events[k].retry < max then down + {events[k].id} else down;
        if !ok { return; }
      }
    }

    /** One poll. Whatever rejects, it is a run of the outbox system, and unless a
        statement outside the try block does, every event of the batch with a retry left
        was given to the queue. If no statement rejects, the hundred oldest pending events are handled, each by its own snapshot:
        `up` are those whose job was enqueued, `down` those that the queue refused,
        and there are no others with a retry left. */
    method ProcessBatch() returns (ghost up: set<nat>, ghost down: set<nat>)
      requires Valid() && poller == IDLE
      modifies this`calls, this`adds, this`rows, this`jobs, this`refused, this`rejections, this`aborts,
               this`poller, this`acts, this`trace
      ensures Valid() && poller == IDLE && |rows| == |old(rows)|
      ensures refused == old(refused) + down && up !! down
      ensures old(jobs) + up <= jobs <= old(jobs) + up + down
      ensures aborts == old(aborts) ==> forall i :: 0 <= i < |rows| ==>
        (i in up + down <==> Taken(old(rows), i) && old(rows)[i].retry < max)
      ensures rejections == old(rejections) ==> aborts == old(aborts) && rows == AfterPoll(old(rows), max, up)
    {
      up, down := {}, {};
      var events := GetPending();
      if events.Rejected? { return; }
      BatchIsCurrent(rows);
      var ok;
      ok, up, down := HandleAll(events.value);
      if rejections == old(rejections) {
        AllHandled(old(rows), rows, events.value, max, up);
      }
      if ok { AllTried(old(rows), events.value, max, up + down); }
    }
  }

  /** The snapshots are of different rows, and agree with them. */
  ghost predicate Current(rows: seq<Row>, events: seq<Snap>) {
    && (forall j :: 0 <= j < |events| ==> events[j].id < |rows| && events[j].retry == rows[events[j].id].retry)
    && (forall i, j :: 0 <= i < j < |events| ==> events[i].id < events[j].id)
  }

  lemma BatchIsCurrent(rows: seq<Row>)
    ensures Current(rows, FirstPending(rows, |rows|))
  {
    FirstPendingIsTaken(rows, |rows|);
  }

  /** The rows of the events from the k-th on are as they were. */
  ghost predicate StillToDo(before: seq<Row>, rows: seq<Row>, events: seq<Snap>, k: nat) {
    && |rows| == |before| && Current(before, events) && k <= |events|
    && forall j :: k <= j < |events| ==> rows[events[j].id] == before[events[j].id]
  }

  lemma StillToDoAfter(before: seq<Row>, rows: seq<Row>, later: seq<Row>, events: seq<Snap>, k: nat)
    requires StillToDo(before, rows, events, k) && k < |events|
    requires |later| == |rows| && later == rows[events[k].id := later[events[k].id]]
    ensures StillToDo(before, later, events, k + 1)
  {
  }

  /** The event table, the jobs in the queue, and the events the queue ever refused. */
  datatype Tables = Tables(rows: seq<Row>, jobs: set<nat>, refused: set<nat>)

  /** What the first k events of the batch have done to the tables; `clean` as long
      as no statement has rejected. */
  ghost predicate Progress(t0: Tables, t: Tables, events: seq<Snap>, k: nat, max: nat,
                           up: set<nat>, down: set<nat>, clean: bool) {
    && StillToDo(t0.rows, t.rows, events, k)
    && t.refused == t0.refused + down && t0.jobs + up <= t.jobs <= t0.jobs + up + down
    && up !! down && TriedSoFar(events, k, max, up + down)
    && (clean ==> Halfway(t0.rows, t.rows, events, k, max, up))
  }

  lemma ProgressAfter(t0: Tables, t: Tables, u: Tables, events: seq<Snap>, k: nat, max: nat,
                      up: set<nat>, down: set<nat>, clean: bool, clean': bool, accepted: bool)
    requires Progress(t0, t, events, k, max, up, down, clean) && k < |events|
    requires |u.rows| == |t.rows| && u.rows == t.rows[events[k].id := u.rows[events[k].id]]
    requires clean' ==> clean && u.rows[events[k].id] == Handled(t.rows[events[k].id], max, accepted)
    requires accepted ==> events[k].retry < max
    requires u.jobs == t.jobs + {events[k].id} || (!accepted && u.jobs == t.jobs)
    requires events[k].retry >= max ==> u.jobs == t.jobs
    requires u.refused == if accepted || events[k].retry >= max then t.refused else t.refused + {events[k].id}
    ensures Progress(t0, u, events, k + 1, max,
                     if accepted then up + {events[k].id} else up,
                     if !accepted && events[k].retry < max then down + {events[k].id} else down, clean')
  {
    StillToDoAfter(t0.rows, t.rows, u.rows, events, k);
    OneMoreTried(events, k, max, up, down, accepted);
    if clean' { OneMore(t0.rows, t.rows, events, k, max, up, accepted); }
  }

  /** Those of the first k events that had a retry left were given to the queue. */
  ghost predicate TriedSoFar(events: seq<Snap>, k: nat, max: nat, tried: set<nat>) {
    && k <= |events|
    && forall id :: id in tried <==> exists j :: 0 <= j < k && events[j].id == id && events[j].retry < max
  }

  lemma OneMoreTried(events: seq<Snap>, k: nat, max: nat, up: set<nat>, down: set<nat>, accepted: bool)
    requires k < |events| && TriedSoFar(events, k, max, up + down) && up !! down
    requires forall i, j :: 0 <= i < j < |events| ==> events[i].id < events[j].id
    requires accepted ==> events[k].retry < max
    ensures var up', down' := if accepted then up + {events[k].id} else up,
                              if !accepted && events[k].retry < max then down + {events[k].id} else down;
      TriedSoFar(events, k + 1, max, up' + down') && up' !! down'
  {
  }

  lemma AllTried(rows: seq<Row>, events: seq<Snap>, max: nat, tried: set<nat>)
    requires TriedSoFar(events, |events|, max, tried) && events == FirstPending(rows, |rows|)
    ensures forall i :: 0 <= i < |rows| ==> (i in tried <==> Taken(rows, i) && rows[i].retry < max)
  {
    FirstPendingIsTaken(rows, |rows|);
  }

  /** The first k events of the batch are handled, every other row is as before. */
  ghost predicate Halfway(before: seq<Row>, rows: seq<Row>, events: seq<Snap>, k: nat, max: nat, up: set<nat>) {
    && k <= |events| && |rows| == |before|
    && (forall j :: 0 <= j < |events| ==> events[j].id < |before|)
    && (forall i, j :: 0 <= i < j < |events| ==> events[i].id < events[j].id)
    && (forall id :: id in up ==> exists j :: 0 <= j < k && events[j].id == id)
    && (forall i :: 0 <= i < |rows| ==>
         rows[i] == if exists j :: 0 <= j < k && events[j].id == i then Handled(before[i], max, i in up) else before[i])
  }

  lemma OneMore(before: seq<Row>, rows: seq<Row>, events: seq<Snap>, k: nat, max: nat, up: set<nat>, accepted: bool)
    requires Halfway(before, rows, events, k, max, up) && k < |events|
    ensures events[k].id < |rows| && rows[events[k].id] == before[events[k].id]
    ensures Halfway(before, rows[events[k].id := Handled(before[events[k].id], max, accepted)], events, k + 1, max,
                    if accepted then up + {events[k].id} else up)
  {
  }

  lemma AllHandled(before: seq<Row>, rows: seq<Row>, events: seq<Snap>, max: nat, up: set<nat>)
    requires Halfway(before, rows, events, |events|, max, up)
    requires events == FirstPending(before, |before|)
    ensures rows == AfterPoll(before, max, up)
  {
    FirstPendingIsTaken(before, |before|);
  }
}

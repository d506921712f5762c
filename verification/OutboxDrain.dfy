/** One processor drains the outbox without starving anybody
    (src/events/outbox/outbox-processor.ts:76-120). */
module OutboxDrain {
  import opened Runs
  import opened Outbox

  /** The pending rows among the first i. */
  function Pendings(rows: seq<Row>, i: nat): nat
    requires i <= |rows|
  {
    if i == 0 then 0 else Pendings(rows, i - 1) + if rows[i - 1].status == Pending then 1 else 0
  }

  /** A poll takes the hundred oldest pending rows. */
  predicate Taken(rows: seq<Row>, i: nat)
    requires i < |rows|
  {
    rows[i].status == Pending && Pendings(rows, i) < BATCH
  }

  /** A taken row is given up, published, or kept for retry. */
  function Handled(r: Row, max: nat, accepted: bool): Row {
    if r.retry >= max then SetFailed(r) else if accepted then SetPublished(r) else SetForRetry(r)
  }

  /** The table after one poll; `up` are the events whose enqueue succeeds. */
  function AfterPoll(rows: seq<Row>, max: nat, up: set<nat>): seq<Row> {
    seq(|rows|, i requires 0 <= i < |rows| =>
      if Taken(rows, i) then Handled(rows[i], max, i in up) else rows[i])
  }

  /** Events that arrive before a poll, and which enqueues then succeed. */
  datatype Round = Round(arrivals: seq<Kind>, up: set<nat>)

  function Arrive(rows: seq<Row>, kinds: seq<Kind>): seq<Row> {
    rows + seq(|kinds|, k requires 0 <= k < |kinds| => Row(kinds[k], Pending, 0))
  }

  function Drain(rows: seq<Row>, max: nat, rounds: seq<Round>): seq<Row>
    decreases rounds
  {
    if rounds == [] then rows
    else Drain(AfterPoll(Arrive(rows, rounds[0].arrivals), max, rounds[0].up), max, rounds[1..])
  }

  ghost predicate AllTerminal(rows: seq<Row>, p: nat)
    requires p <= |rows|
  {
    forall i :: 0 <= i < p ==> rows[i].status != Pending
  }

  /** Whatever is not pending in the first list is not pending in the second. */
  ghost predicate Settles(before: seq<Row>, after: seq<Row>) {
    && |before| <= |after|
    && forall i :: 0 <= i < |before| && before[i].status != Pending ==> after[i].status != Pending
  }

  lemma {:induction false} SettlingLowersPendings(before: seq<Row>, after: seq<Row>, q: nat, p: nat)
    requires Settles(before, after) && q <= p <= |before|
    ensures Pendings(after, p) - Pendings(after, q) <= Pendings(before, p) - Pendings(before, q)
  {
    if q < p {
      SettlingLowersPendings(before, after, q, p - 1);
    }
  }

  lemma {:induction false} PendingsGrow(rows: seq<Row>, i: nat, p: nat)
    requires i <= p <= |rows|
    ensures Pendings(rows, i) <= Pendings(rows, p)
    ensures i < p && rows[i].status == Pending ==> Pendings(rows, i) < Pendings(rows, p)
  {
    if i < p {
      PendingsGrow(rows, i, p - 1);
    }
  }

  lemma {:induction false} PendingsOfPrefix(rows: seq<Row>, longer: seq<Row>, p: nat)
    requires p <= |rows| <= |longer| && longer[..|rows|] == rows
    ensures Pendings(longer, p) == Pendings(rows, p)
  {
    if p > 0 {
      assert longer[p - 1] == longer[..|rows|][p - 1];
      PendingsOfPrefix(rows, longer, p - 1);
    }
  }

  lemma {:induction false} NonePending(rows: seq<Row>, p: nat)
    requires p <= |rows|
    ensures AllTerminal(rows, p) <==> Pendings(rows, p) == 0
  {
    if p > 0 {
      NonePending(rows, p - 1);
    }
  }

  lemma {:induction false} DrainSettles(rows: seq<Row>, max: nat, rounds: seq<Round>)
    ensures Settles(rows, Drain(rows, max, rounds))
    decreases rounds
  {
    if rounds != [] {
      DrainSettles(AfterPoll(Arrive(rows, rounds[0].arrivals), max, rounds[0].up), max, rounds[1..]);
    }
  }

  lemma {:induction false} DrainInTwo(rows: seq<Row>, max: nat, rounds: seq<Round>, k: nat)
    requires k <= |rounds|
    ensures Drain(rows, max, rounds) == Drain(Drain(rows, max, rounds[..k]), max, rounds[k..])
    decreases k
  {
    if k > 0 {
      var next := AfterPoll(Arrive(rows, rounds[0].arrivals), max, rounds[0].up);
      DrainInTwo(next, max, rounds[1..], k - 1);
      assert rounds[..k][1..] == rounds[1..][..k - 1];
      assert rounds[1..][k - 1..] == rounds[k..];
    }
  }

  /** Every row of the block is settled or has been tried j times. */
  ghost predicate Tried(rows: seq<Row>, p: nat, j: nat)
    requires p <= |rows|
  {
    forall i :: 0 <= i < p ==> rows[i].status != Pending || rows[i].retry >= j
  }

  /** The oldest rows with at most a hundred pending are all taken by a poll, so
      each is settled or tried once more; at `max` tries it is settled. */
  lemma PollTriesBlock(rows: seq<Row>, p: nat, max: nat, round: Round, j: nat)
    requires p <= |rows| && Pendings(rows, p) <= BATCH && Tried(rows, p, j)
    ensures var next := AfterPoll(Arrive(rows, round.arrivals), max, round.up);
      && |next| >= |rows|
      && (if j >= max then AllTerminal(next, p) else Tried(next, p, j + 1))
      && Pendings(next, p) <= BATCH
  {
    var arrived := Arrive(rows, round.arrivals);
    var next := AfterPoll(arrived, max, round.up);
    assert arrived[..|rows|] == rows;
    forall i | 0 <= i < p && rows[i].status == Pending ensures Taken(arrived, i) {
      PendingsOfPrefix(rows, arrived, i);
      PendingsGrow(rows, i, p);
    }
    SettlingLowersPendings(rows, next, 0, p);
  }

  /** A block of at most a hundred pending events is settled after max + 1 polls. */
  lemma {:induction false} BlockDrains(rows: seq<Row>, p: nat, max: nat, rounds: seq<Round>, j: nat)
    requires p <= |rows| && Pendings(rows, p) <= BATCH && Tried(rows, p, j)
    requires j <= max && |rounds| == max + 1 - j
    ensures p <= |Drain(rows, max, rounds)| && AllTerminal(Drain(rows, max, rounds), p)
    decreases |rounds|
  {
    var next := AfterPoll(Arrive(rows, rounds[0].arrivals), max, rounds[0].up);
    PollTriesBlock(rows, p, max, rounds[0], j);
    if j == max {
      assert rounds[1..] == [];
    } else {
      BlockDrains(next, p, max, rounds[1..], j + 1);
    }
  }

  /** The longest prefix that a single poll can cover. */
  lemma {:induction false} FirstBlock(rows: seq<Row>, p: nat) returns (q: nat)
    requires p <= |rows|
    ensures q <= p && Pendings(rows, q) == if Pendings(rows, p) <= BATCH then Pendings(rows, p) else BATCH
  {
    if Pendings(rows, p) <= BATCH {
      q := p;
    } else {
      q := FirstBlock(rows, p - 1);
    }
  }

  /** How many polls that many blocks take. */
  function Polls(max: nat, blocks: nat): nat {
    if blocks == 0 then 0 else max + 1 + Polls(max, blocks - 1)
  }

  lemma {:induction false} PollsMultiply(max: nat, blocks: nat)
    ensures Polls(max, blocks) == (max + 1) * blocks
  {
    if blocks > 0 { PollsMultiply(max, blocks - 1); }
  }

  /** The oldest p rows are settled when the rounds are over. */
  ghost predicate SettledBy(rows: seq<Row>, p: nat, max: nat, rounds: seq<Round>) {
    p <= |Drain(rows, max, rounds)| && AllTerminal(Drain(rows, max, rounds), p)
  }

  lemma TerminalStays(rows: seq<Row>, p: nat, max: nat, rounds: seq<Round>)
    requires p <= |rows| && Pendings(rows, p) == 0
    ensures SettledBy(rows, p, max, rounds)
  {
    NonePending(rows, p);
    DrainSettles(rows, max, rounds);
  }

  /** Block by block, the oldest `100 * blocks` pending events settle. */
  lemma {:induction false} BlocksDrain(rows: seq<Row>, p: nat, max: nat, rounds: seq<Round>, blocks: nat)
    requires p <= |rows| && Pendings(rows, p) <= BATCH * blocks
    requires |rounds| >= Polls(max, blocks)
    ensures SettledBy(rows, p, max, rounds)
    decreases blocks
  {
    if blocks == 0 {
      TerminalStays(rows, p, max, rounds);
    } else {
      var between, rest := FirstBlockGoes(rows, p, max, rounds, blocks);
      BlocksDrain(between, p, max, rest, blocks - 1);
    }
  }

  /** After max + 1 polls there are a hundred pending events fewer, or none. */
  lemma FirstBlockDrains(rows: seq<Row>, p: nat, max: nat, rounds: seq<Round>, blocks: nat)
    requires p <= |rows| && Pendings(rows, p) <= BATCH * blocks && |rounds| == max + 1 && blocks > 0
    ensures p <= |Drain(rows, max, rounds)|
    ensures Pendings(Drain(rows, max, rounds), p) <= BATCH * (blocks - 1)
  {
    var q := FirstBlock(rows, p);
    BlockDrains(rows, q, max, rounds, 0);
    var later := Drain(rows, max, rounds);
    DrainSettles(rows, max, rounds);
    NonePending(later, q);
    SettlingLowersPendings(rows, later, q, p);
  }

  lemma FirstBlockGoes(rows: seq<Row>, p: nat, max: nat, rounds: seq<Round>, blocks: nat)
    returns (between: seq<Row>, rest: seq<Round>)
    requires p <= |rows| && Pendings(rows, p) <= BATCH * blocks && blocks > 0 && |rounds| >= max + 1
    ensures p <= |between| && Pendings(between, p) <= BATCH * (blocks - 1)
    ensures |rest| == |rounds| - (max + 1)
    ensures SettledBy(between, p, max, rest) ==> SettledBy(rows, p, max, rounds)
  {
    between, rest := Drain(rows, max, rounds[..max + 1]), rounds[max + 1..];
    FirstBlockDrains(rows, p, max, rounds[..max + 1], blocks);
    DrainInTwo(rows, max, rounds, max + 1);
  }

  /** Bounded drain without starvation: with n events pending now, all of them are
      PUBLISHED or FAILED after (outboxMaxRetries + 1) * ceil(n / 100) polls,
      whatever newer events arrive in between and whichever enqueues fail. */
  lemma BoundedDrain(rows: seq<Row>, max: nat, rounds: seq<Round>)
    requires |rounds| >= (max + 1) * ((Pendings(rows, |rows|) + 99) / 100)
    ensures |rows| <= |Drain(rows, max, rounds)|
    ensures forall i :: 0 <= i < |rows| ==> Drain(rows, max, rounds)[i].status != Pending
  {
    var blocks := (Pendings(rows, |rows|) + 99) / 100;
    PollsMultiply(max, blocks);
    BlocksDrain(rows, |rows|, max, rounds, blocks);
  }

  // ------------------------------------------------------------- the snapshot

  /** The snapshot that getPending(100) answers, over the first i rows. */
  function FirstPending(rows: seq<Row>, i: nat): seq<Snap>
    requires i <= |rows|
  {
    if i == 0 then []
    else
      var before := FirstPending(rows, i - 1);
      if Taken(rows, i - 1) then before + [Snap(i - 1, rows[i - 1].retry)] else before
  }

  /** The snapshot holds exactly the taken rows, oldest first. */
  lemma {:induction false} FirstPendingIsTaken(rows: seq<Row>, i: nat)
    requires i <= |rows|
    ensures var batch := FirstPending(rows, i);
      && (forall k :: 0 <= k < |batch| ==>
           batch[k].id < i && Taken(rows, batch[k].id) && batch[k].retry == rows[batch[k].id].retry)
      && (forall j, k :: 0 <= j < k < |batch| ==> batch[j].id < batch[k].id)
      && (forall id :: 0 <= id < i && Taken(rows, id) ==> exists k :: 0 <= k < |batch| && batch[k].id == id)
      && |batch| == if Pendings(rows, i) <= 100 then Pendings(rows, i) else 100
  {
    if i > 0 {
      FirstPendingIsTaken(rows, i - 1);
      var before, batch := FirstPending(rows, i - 1), FirstPending(rows, i);
      forall id | 0 <= id < i && Taken(rows, id) ensures exists k :: 0 <= k < |batch| && batch[k].id == id {
        if id < i - 1 {
          var k :| 0 <= k < |before| && before[k].id == id;
          assert batch[k].id == id;
        } else {
          assert batch[|before|].id == id;
        }
      }
    }
  }

  /** So it is a batch that the interleaved system allows. */
  lemma FirstPendingIsBatch(rows: seq<Row>)
    ensures PendingBatch(rows, FirstPending(rows, |rows|))
  {
    FirstPendingIsTaken(rows, |rows|);
  }
}

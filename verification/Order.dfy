/** Order statuses and their transition table (src/domain/entities/order.ts:4-76). */
module Order {
  datatype OrderStatus = Pending | Paid | Fulfilled | Shipped | Cancelled | Compensating

  function Transitions(s: OrderStatus): set<OrderStatus> {
    match s
    case Pending => {Paid, Cancelled, Compensating}
    case Paid => {Fulfilled, Compensating}
    case Fulfilled => {Shipped, Compensating}
    case Shipped => {}
    case Cancelled => {}
    case Compensating => {Cancelled}
  }

  predicate CanTransition(from: OrderStatus, to: OrderStatus) {
    to in Transitions(from)
  }

  /** The table, pair by pair. */
  lemma TableIs(from: OrderStatus, to: OrderStatus)
    ensures CanTransition(from, to) <==> (from, to) in {
      (Pending, Paid), (Pending, Cancelled), (Pending, Compensating),
      (Paid, Fulfilled), (Paid, Compensating),
      (Fulfilled, Shipped), (Fulfilled, Compensating),
      (Compensating, Cancelled)}
  {
  }

  /** A chain of table transitions from the first status to the last. */
  ghost predicate Chain(path: seq<OrderStatus>) {
    path != [] && forall i :: 0 <= i < |path| - 1 ==> CanTransition(path[i], path[i + 1])
  }

  /** The transitive closure of the table. */
  ghost predicate Reaches(from: OrderStatus, to: OrderStatus) {
    exists path :: |path| > 1 && Chain(path) && path[0] == from && path[|path| - 1] == to
  }

  function Rank(s: OrderStatus): nat {
    match s
    case Pending => 4
    case Paid => 3
    case Fulfilled => 2
    case Compensating => 1
    case Shipped => 0
    case Cancelled => 0
  }

  /** Every chain of transitions strictly loses rank, so no status is ever
      reached twice and a chain has at most four transitions. */
  lemma {:induction false} ChainsLoseRank(path: seq<OrderStatus>)
    requires Chain(path)
    ensures Rank(path[|path| - 1]) + |path| - 1 <= Rank(path[0])
  {
    if |path| > 1 {
      var init := path[..|path| - 1];
      ChainsLoseRank(init);
      assert CanTransition(path[|path| - 2], path[|path| - 1]);
    }
  }

  /** The statuses a status can still lead to. SHIPPED and CANCELLED are the sinks. */
  function Later(s: OrderStatus): set<OrderStatus> {
    match s
    case Pending => {Paid, Fulfilled, Shipped, Compensating, Cancelled}
    case Paid => {Fulfilled, Shipped, Compensating, Cancelled}
    case Fulfilled => {Shipped, Compensating, Cancelled}
    case Compensating => {Cancelled}
    case Shipped => {}
    case Cancelled => {}
  }

  lemma {:induction false} ChainEndsLater(path: seq<OrderStatus>)
    requires Chain(path) && |path| > 1
    ensures path[|path| - 1] in Later(path[0])
  {
    assert CanTransition(path[0], path[1]);
    if |path| > 2 {
      var rest := path[1..];
      forall i | 0 <= i < |rest| - 1 ensures CanTransition(rest[i], rest[i + 1]) {
        assert rest[i] == path[i + 1] && rest[i + 1] == path[i + 2];
      }
      ChainEndsLater(rest);
    }
  }

  lemma LaterByChain(path: seq<OrderStatus>)
    requires |path| > 1 && Chain(path)
    ensures Reaches(path[0], path[|path| - 1])
  {
  }

  /** The transitive closure of the table, computed. */
  lemma ReachesExactly(from: OrderStatus, to: OrderStatus)
    ensures Reaches(from, to) <==> to in Later(from)
  {
    if Reaches(from, to) {
      var path :| |path| > 1 && Chain(path) && path[0] == from && path[|path| - 1] == to;
      ChainEndsLater(path);
    } else if CanTransition(from, to) {
      LaterByChain([from, to]);
    } else if to in Later(from) {
      var middle := if from == Pending then (if to == Shipped then [Paid, Fulfilled] else [Paid])
                    else if from == Paid && to == Shipped then [Fulfilled]
                    else [Compensating];
      LaterByChain([from] + middle + [to]);
    }
  }
}

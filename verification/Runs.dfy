/** Runs of a step system: a system is a partial function `next`, which answers
    None when the action is not possible in the state. */
module Runs {

  datatype Option<+T> = None | Some(value: T)

  /** What an awaited call answered; Rejected propagates. */
  datatype Reply<+T> = Answer(value: T) | Rejected

  /** What the environment does with an awaited call: it succeeds, rejects without
      effect, or rejects after its effect. */
  datatype Outcome = Fine | NoEffect | LostReply

  /** How many of the first n calls reject, when `fate` says what becomes of each. */
  function Troubles(fate: nat -> Outcome, n: nat): nat {
    if n == 0 then 0 else Troubles(fate, n - 1) + if fate(n - 1) == Fine then 0 else 1
  }

  /** Runs of any actions. */
  predicate Anything<A>(a: A) { true }

  /** The state after the actions, or None when one of them was not possible. */
  function Exec<S, A>(next: (S, A) -> Option<S>, s: S, acts: seq<A>): Option<S> {
    if acts == [] then Some(s)
    else
      var before := Exec(next, s, acts[..|acts| - 1]);
      if before.None? then None else next(before.value, acts[|acts| - 1])
  }

  /** A run one action longer. */
  lemma ExecAppend<S, A>(next: (S, A) -> Option<S>, s: S, acts: seq<A>, a: A)
    requires Exec(next, s, acts).Some?
    ensures Exec(next, s, acts + [a]) == next(Exec(next, s, acts).value, a)
  {
    assert (acts + [a])[..|acts|] == acts;
  }

  /** One more action of a run that ends in a known state. */
  lemma Then<S, A>(next: (S, A) -> Option<S>, s0: S, acts: seq<A>, s: S, a: A) returns (longer: seq<A>, t: S)
    requires Exec(next, s0, acts) == Some(s) && next(s, a).Some?
    ensures longer == acts + [a] && t == next(s, a).value && Exec(next, s0, longer) == Some(t)
  {
    ExecAppend(next, s0, acts, a);
    longer, t := acts + [a], next(s, a).value;
  }

  /** A predicate that holds at the start and is kept by every step that the
      run may take holds in the state the run ends in. */
  lemma {:induction false} Invariant<S(!new), A(!new)>(
      next: (S, A) -> Option<S>, s: S, acts: seq<A>, may: A -> bool, inv: S -> bool)
    requires inv(s)
    requires forall t, a :: inv(t) && may(a) && next(t, a).Some? ==> inv(next(t, a).value)
    requires forall i :: 0 <= i < |acts| ==> may(acts[i])
    requires Exec(next, s, acts).Some?
    ensures inv(Exec(next, s, acts).value)
  {
    if acts != [] {
      Invariant(next, s, acts[..|acts| - 1], may, inv);
      assert may(acts[|acts| - 1]);
    }
  }

  /** A run split in two: the second part starts where the first part ended. */
  lemma {:induction false} ExecConcat<S, A>(next: (S, A) -> Option<S>, s: S, first: seq<A>, second: seq<A>)
    requires Exec(next, s, first + second).Some?
    ensures Exec(next, s, first).Some?
    ensures Exec(next, s, first + second) == Exec(next, Exec(next, s, first).value, second)
  {
    if second == [] {
      assert first + second == first;
    } else {
      var butLast := second[..|second| - 1];
      assert (first + second)[..|first + second| - 1] == first + butLast;
      ExecConcat(next, s, first, butLast);
    }
  }

  /** The states a run goes through, one more than there are actions. */
  ghost predicate Trace<S, A>(next: (S, A) -> Option<S>, states: seq<S>, acts: seq<A>) {
    && |states| == |acts| + 1
    && forall i {:trigger acts[i]} :: 0 <= i < |acts| ==> next(states[i], acts[i]) == Some(states[i + 1])
  }

  lemma {:induction false} TraceIsRun<S, A>(next: (S, A) -> Option<S>, states: seq<S>, acts: seq<A>)
    requires Trace(next, states, acts)
    ensures Exec(next, states[0], acts) == Some(states[|acts|])
  {
    if acts != [] {
      var n := |acts| - 1;
      var butLast := acts[..n];
      forall i | 0 <= i < n ensures next(states[..n + 1][i], butLast[i]) == Some(states[..n + 1][i + 1]) {
        assert butLast[i] == acts[i];
      }
      TraceIsRun(next, states[..n + 1], butLast);
      assert acts[n] == acts[n];
    }
  }

  lemma TraceAppend<S, A>(next: (S, A) -> Option<S>, states: seq<S>, acts: seq<A>, a: A, s: S)
    requires Trace(next, states, acts) && next(states[|acts|], a) == Some(s)
    ensures Trace(next, states + [s], acts + [a])
  {
    forall i | 0 <= i < |acts + [a]|
      ensures next((states + [s])[i], (acts + [a])[i]) == Some((states + [s])[i + 1])
    {
      if i < |acts| {
        assert acts[i] == (acts + [a])[i];
      }
    }
  }
}

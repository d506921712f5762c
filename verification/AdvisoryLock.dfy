/** The lock manager on advisory locks: acquire, the release function it hands
    out, and the timer that force-releases
    (src/infrastructure/locking/postgres-advisory-lock.ts:16-65). */
module AdvisoryLock {
  import opened Runs

  type Key = int

  /** What one granted acquire captured: its `released` flag, and whether its timer went off. */
  datatype Grant = Grant(key: Key, released: bool, fired: bool)

  /** The advisory locks that are taken, and by which grant. */
  datatype Locks = Locks(owner: map<Key, nat>, grants: seq<Grant>)

  datatype Action =
    | Acquire(key: Key)
    | Fire(g: nat, fails: bool)      // the timer of a grant goes off; its unlock may fail, which is logged
    | Release(g: nat, fails: bool)   // its release function is called; likewise

  const NO_LOCKS := Locks(map[], [])

  function Next(s: Locks, a: Action): Option<Locks> {
    match a
    case Acquire(key) =>
      Some(if key in s.owner then s else Locks(s.owner[key := |s.grants|], s.grants + [Grant(key, false, false)]))
    case Fire(g, fails) =>
      if g >= |s.grants| || s.grants[g].released || s.grants[g].fired then None
      else Some(Locks(if fails then s.owner else s.owner - {s.grants[g].key},
                      s.grants[g := s.grants[g].(fired := true)]))
    case Release(g, fails) =>
      if g >= |s.grants| then None
      else if s.grants[g].released then Some(s)
      else Some(Locks(if fails then s.owner else s.owner - {s.grants[g].key},
                      s.grants[g := s.grants[g].(released := true)]))
  }

  /** The grant has been neither released nor timed out. */
  predicate Live(s: Locks, g: nat) {
    g < |s.grants| && !s.grants[g].released && !s.grants[g].fired
  }

  /** Every lock belongs to a grant of its key, and every live grant owns its lock. */
  ghost predicate Sound(s: Locks) {
    && (forall k :: k in s.owner ==> s.owner[k] < |s.grants| && s.grants[s.owner[k]].key == k)
    && (forall g: nat :: Live(s, g) ==> s.grants[g].key in s.owner && s.owner[s.grants[g].key] == g)
  }

  /** A release that comes after its own timer, when the key has been taken by
      another grant that is still live: the timer has not set `released`. */
  predicate Theft(s: Locks, a: Action) {
    && a.Release? && !a.fails && a.g < |s.grants|
    && s.grants[a.g].fired && !s.grants[a.g].released
    && s.grants[a.g].key in s.owner && s.owner[s.grants[a.g].key] != a.g && Live(s, s.owner[s.grants[a.g].key])
  }

  /** A step from a sound state leads to a sound state exactly when it is no theft. */
  lemma SoundUnlessTheft(s: Locks, a: Action)
    requires Sound(s) && Next(s, a).Some?
    ensures Sound(Next(s, a).value) <==> !Theft(s, a)
  {
    var t := Next(s, a).value;
    if Theft(s, a) {
      assert Live(t, s.owner[s.grants[a.g].key]);
    } else {
      forall g: nat | Live(t, g) ensures t.grants[g].key in t.owner && t.owner[t.grants[g].key] == g {
        assert Live(s, g) || (a.Acquire? && g == |s.grants|);
      }
    }
  }

  /** The state of a run after its first i actions. */
  function After(acts: seq<Action>, i: nat): Locks
    requires i <= |acts| && Exec(Next, NO_LOCKS, acts[..i]).Some?
  {
    Exec(Next, NO_LOCKS, acts[..i]).value
  }

  ghost predicate Possible(acts: seq<Action>) {
    forall i :: 0 <= i <= |acts| ==> Exec(Next, NO_LOCKS, acts[..i]).Some?
  }

  ghost predicate NoTheft(acts: seq<Action>)
    requires Possible(acts)
  {
    forall i :: 0 <= i < |acts| ==> !Theft(After(acts, i), acts[i])
  }

  lemma {:induction false} RunsArePossible(acts: seq<Action>)
    requires Exec(Next, NO_LOCKS, acts).Some?
    ensures Possible(acts)
  {
    if acts != [] {
      var n := |acts| - 1;
      RunsArePossible(acts[..n]);
      forall i | 0 <= i <= |acts| ensures Exec(Next, NO_LOCKS, acts[..i]).Some? {
        if i <= n { assert acts[..i] == acts[..n][..i]; } else { assert acts[..i] == acts; }
      }
    }
  }

  lemma AfterOneMore(acts: seq<Action>, i: nat)
    requires i < |acts| && Possible(acts)
    ensures Next(After(acts, i), acts[i]) == Some(After(acts, i + 1))
  {
    assert acts[..i + 1][..i] == acts[..i];
    assert Exec(Next, NO_LOCKS, acts[..i + 1]).Some?;
  }

  lemma {:induction false} SoundBefore(acts: seq<Action>, i: nat)
    requires Possible(acts) && NoTheft(acts) && i <= |acts|
    ensures Sound(After(acts, i))
  {
    if i > 0 {
      SoundBefore(acts, i - 1);
      AfterOneMore(acts, i - 1);
      SoundUnlessTheft(After(acts, i - 1), acts[i - 1]);
    }
  }

  /** The whole truth about a run: the lock table is sound at all times exactly
      when none of its releases is a theft. */
  lemma SoundIffNoTheft(acts: seq<Action>)
    requires Exec(Next, NO_LOCKS, acts).Some?
    ensures Possible(acts)
    ensures (forall i :: 0 <= i <= |acts| ==> Sound(After(acts, i))) <==> NoTheft(acts)
  {
    RunsArePossible(acts);
    if NoTheft(acts) {
      forall i | 0 <= i <= |acts| ensures Sound(After(acts, i)) { SoundBefore(acts, i); }
    } else {
      var i :| 0 <= i < |acts| && Theft(After(acts, i), acts[i]);
      AfterOneMore(acts, i);
      if Sound(After(acts, i)) { SoundUnlessTheft(After(acts, i), acts[i]); }
    }
  }

  /** Until the first theft, late releases and timers or not: an unexpired lock is
      held by the grant that took it, and by that one alone. */
  lemma LiveGrantsExclude(acts: seq<Action>, s: Locks)
    requires Exec(Next, NO_LOCKS, acts) == Some(s) && Possible(acts) && NoTheft(acts)
    ensures Sound(s)
    ensures forall g: nat, h: nat :: Live(s, g) && Live(s, h) && s.grants[g].key == s.grants[h].key ==> g == h
  {
    assert acts[..|acts|] == acts;
    SoundBefore(acts, |acts|);
  }

  /** The port's contract for acquire: null while an unexpired grant of the key is
      out, and nothing changes; a grant otherwise only when the lock is free. */
  lemma AcquireExcludes(acts: seq<Action>, s: Locks, key: Key)
    requires Exec(Next, NO_LOCKS, acts) == Some(s) && Possible(acts) && NoTheft(acts)
    ensures (exists g: nat :: Live(s, g) && s.grants[g].key == key) ==> Next(s, Acquire(key)) == Some(s)
    ensures Next(s, Acquire(key)) != Some(s) ==> Live(Next(s, Acquire(key)).value, |s.grants|)
  {
    LiveGrantsExclude(acts, s);
  }

  /** The grant loses its lock by this step. */
  ghost predicate TakesAway(s: Locks, a: Action, victim: nat) {
    && Next(s, a).Some?
    && exists k :: k in s.owner && s.owner[k] == victim && k !in Next(s, a).value.owner
  }

  /** Until the first theft, a timer or a release frees the lock of another live
      grant exactly when it is that theft. */
  lemma StealsIffLate(acts: seq<Action>, s: Locks, a: Action)
    requires Exec(Next, NO_LOCKS, acts) == Some(s) && Possible(acts) && NoTheft(acts)
    requires !a.Acquire? && a.g < |s.grants|
    ensures (exists h: nat :: h != a.g && Live(s, h) && TakesAway(s, a, h)) <==> Theft(s, a)
  {
    LiveGrantsExclude(acts, s);
    var key := s.grants[a.g].key;
    if Theft(s, a) {
      assert TakesAway(s, a, s.owner[key]);
    }
  }

  /** Such a theft, and what follows: two unexpired grants of one key. */
  lemma LateReleaseBreaksExclusion(key: Key)
    ensures var thief := [Acquire(key), Fire(0, false), Acquire(key), Release(0, false), Acquire(key)];
      && Exec(Next, NO_LOCKS, thief).Some?
      && var s := Exec(Next, NO_LOCKS, thief).value;
         Live(s, 1) && Live(s, 2) && s.grants[1].key == s.grants[2].key == key
  {
    var acts := [Acquire(key), Fire(0, false), Acquire(key), Release(0, false), Acquire(key)];
    var s1 := Next(NO_LOCKS, acts[0]).value;
    var s2 := Next(s1, acts[1]).value;
    var s3 := Next(s2, acts[2]).value;
    var s4 := Next(s3, acts[3]).value;
    var s5 := Next(s4, acts[4]).value;
    var states := [NO_LOCKS, s1, s2, s3, s4, s5];
    TraceIsRun(Next, states, acts);
  }

  class PostgresAdvisoryLock {
    var owner: map<Key, nat>
    var grants: seq<Grant>

    function State(): Locks
      reads this
    {
      Locks(owner, grants)
    }

    constructor ()
      ensures State() == NO_LOCKS
    {
      owner, grants := map[], [];
    }

    /** The number of the grant, or None when the lock is not available. */
    method TryAcquire(key: Key) returns (grant: Option<nat>)
      modifies this
      ensures Some(State()) == Next(old(State()), Acquire(key))
      ensures grant == if key in old(owner) then None else Some(|old(grants)|)
      ensures grant == None ==> State() == old(State())
      ensures grant.Some? ==>
        && owner == old(owner)[key := grant.value]
        && grants == old(grants) + [Grant(key, false, false)]
    {
      if key in owner { return None; }
      grant := Some(|grants|);
      owner := owner[key := |grants|];
      grants := grants + [Grant(key, false, false)];
    }

    /** The timer's callback: the lock becomes free, and `released` stays as it is; it
        does nothing once the lock was released. */
    method TimerFires(g: nat, unlockFails: bool)
      requires g < |grants| && !grants[g].fired
      modifies this
      ensures State() == if old(grants)[g].released then old(State()) else Next(old(State()), Fire(g, unlockFails)).value
      ensures !old(grants)[g].released ==>
        && grants == old(grants)[g := Grant(old(grants)[g].key, false, true)]
        && Freed(old(owner), owner, grants[g].key, unlockFails)
    {
      if !grants[g].released {
        Unlock(grants[g].key, unlockFails);
        grants := grants[g := grants[g].(fired := true)];
      }
    }

    /** The release function of a grant: on the first call the lock becomes free. */
    method ReleaseGrant(g: nat, unlockFails: bool)
      requires g < |grants|
      modifies this
      ensures Some(State()) == Next(old(State()), Release(g, unlockFails))
      ensures old(grants)[g].released ==> State() == old(State())
      ensures !old(grants)[g].released ==>
        && grants == old(grants)[g := Grant(old(grants)[g].key, true, old(grants)[g].fired)]
        && Freed(old(owner), owner, grants[g].key, unlockFails)
    {
      if grants[g].released { return; }
      grants := grants[g := grants[g].(released := true)];
      Unlock(grants[g].key, unlockFails);
    }

    /** pg_advisory_unlock: a failure is logged and swallowed. */
    method Unlock(key: Key, fails: bool)
      modifies this`owner
      ensures owner == if fails then old(owner) else old(owner) - {key}
    {
      if !fails { owner := owner - {key}; }
    }
  }

  /** The key is not taken any more unless the unlock failed; all others are as before. */
  ghost predicate Freed(before: map<Key, nat>, after: map<Key, nat>, key: Key, fails: bool) {
    && (!fails ==> key !in after)
    && (fails ==> after == before)
    && forall k :: k != key ==> (k in after <==> k in before) && (k in before ==> after[k] == before[k])
  }

  /** Over every run: the first release of a grant in time, and the firing of its timer,
      give the key back; it can be taken again at once, by the next grant. */
  lemma ReleasedCanBeTaken(acts: seq<Action>, s: Locks, a: Action)
    requires Exec(Next, NO_LOCKS, acts) == Some(s)
    requires (a.Release? || a.Fire?) && !a.fails && Next(s, a).Some?
    requires a.g < |s.grants| && !s.grants[a.g].released
    ensures var key, t := s.grants[a.g].key, Next(s, a).value;
      && key !in t.owner && Freed(s.owner, t.owner, key, false)
      && Live(Next(t, Acquire(key)).value, |t.grants|)
      && Next(t, Acquire(key)).value.owner == t.owner[key := |t.grants|]
  {
  }
}

/** The per-window request counter (src/infrastructure/redis/rate-limiter.ts:15-46). */
module RateLimiter {

  /** What happens to the keys of one client in Redis: a request with its clock
      reading is counted, or the key of a window expires. */
  datatype Event = Request(now: nat) | Expired(k: nat)

  /** The number of the aligned window a time falls in; window k starts at k * windowMs. */
  function Window(now: nat, windowMs: nat): nat
    requires windowMs > 0
  {
    now / windowMs
  }

  /** A request that falls in the window. */
  predicate In(e: Event, windowMs: nat, k: nat)
    requires windowMs > 0
  {
    e.Request? && Window(e.now, windowMs) == k
  }

  /** The requests that fall in a window. */
  function Arrivals(log: seq<Event>, windowMs: nat, k: nat): nat
    requires windowMs > 0
  {
    if log == [] then 0
    else Arrivals(log[..|log| - 1], windowMs, k) + if In(log[|log| - 1], windowMs, k) then 1 else 0
  }

  /** Those that the window's key counts: the ones since it last expired. */
  function Counted(log: seq<Event>, windowMs: nat, k: nat): nat
    requires windowMs > 0
  {
    if log == [] || log[|log| - 1] == Expired(k) then 0
    else Counted(log[..|log| - 1], windowMs, k) + if In(log[|log| - 1], windowMs, k) then 1 else 0
  }

  /** The last event is a request that was let through. */
  predicate LastAllowed(log: seq<Event>, windowMs: nat, max: nat)
    requires windowMs > 0 && log != []
  {
    log[|log| - 1].Request? && Counted(log, windowMs, Window(log[|log| - 1].now, windowMs)) <= max
  }

  /** How many requests with a time from `from` up to, not including, `to` were let through. */
  function Admitted(log: seq<Event>, windowMs: nat, max: nat, from: int, to: int): nat
    requires windowMs > 0
  {
    if log == [] then 0
    else
      Admitted(log[..|log| - 1], windowMs, max, from, to) +
      if LastAllowed(log, windowMs, max) && from <= log[|log| - 1].now < to then 1 else 0
  }

  /** Every request is counted before the key of its window expires. */
  ghost predicate Punctual(log: seq<Event>, windowMs: nat)
    requires windowMs > 0
  {
    forall i, j :: 0 <= i < j < |log| && log[i].Expired? ==> !In(log[j], windowMs, log[i].k)
  }

  function Min(a: nat, b: nat): nat { if a < b then a else b }

  lemma InWindow(now: nat, windowMs: nat, k: nat)
    requires windowMs > 0
    ensures Window(now, windowMs) == k <==> k * windowMs <= now < k * windowMs + windowMs
  {
    assert now == windowMs * (now / windowMs) + now % windowMs;
    if k < now / windowMs {
      assert (k + 1) * windowMs <= now / windowMs * windowMs;
    } else if k > now / windowMs {
      assert (now / windowMs + 1) * windowMs <= k * windowMs;
    }
  }

  lemma {:induction false} CountedUnlessExpired(log: seq<Event>, windowMs: nat, k: nat)
    requires windowMs > 0 && Expired(k) !in log
    ensures Counted(log, windowMs, k) == Arrivals(log, windowMs, k)
  {
    if log != [] {
      CountedUnlessExpired(log[..|log| - 1], windowMs, k);
    }
  }

  /** A punctual request is counted with all arrivals of its window. */
  lemma PunctualIsCounted(log: seq<Event>, windowMs: nat, k: nat)
    requires windowMs > 0 && Punctual(log, windowMs) && log != [] && In(log[|log| - 1], windowMs, k)
    ensures Counted(log, windowMs, k) == Arrivals(log, windowMs, k)
  {
    forall i | 0 <= i < |log| ensures log[i] != Expired(k) {
      assert log[i].Expired? && i < |log| - 1 ==> !In(log[|log| - 1], windowMs, log[i].k);
    }
    CountedUnlessExpired(log, windowMs, k);
  }

  /** Every aligned window admits exactly the smaller of its arrivals and the limit. */
  lemma {:induction false} WindowAdmitsMin(log: seq<Event>, windowMs: nat, max: nat, k: nat)
    requires windowMs > 0 && Punctual(log, windowMs)
    ensures Admitted(log, windowMs, max, k * windowMs, k * windowMs + windowMs)
         == Min(Arrivals(log, windowMs, k), max)
  {
    if log != [] {
      var e := log[|log| - 1];
      WindowAdmitsMin(log[..|log| - 1], windowMs, max, k);
      if e.Request? {
        InWindow(e.now, windowMs, k);
        if In(e, windowMs, k) { PunctualIsCounted(log, windowMs, k); }
      }
    }
  }

  /** An interval no longer than a window lies in two neighbouring windows. */
  lemma {:induction false} IntervalInTwoWindows(log: seq<Event>, windowMs: nat, max: nat, from: nat)
    requires windowMs > 0
    ensures var k := Window(from, windowMs);
      Admitted(log, windowMs, max, from, from + windowMs)
      <= Admitted(log, windowMs, max, k * windowMs, k * windowMs + windowMs)
       + Admitted(log, windowMs, max, (k + 1) * windowMs, (k + 1) * windowMs + windowMs)
  {
    var k := Window(from, windowMs);
    InWindow(from, windowMs, k);
    assert (k + 1) * windowMs == k * windowMs + windowMs;
    if log != [] {
      IntervalInTwoWindows(log[..|log| - 1], windowMs, max, from);
    }
  }

  /** Any interval of one window's length, aligned or not, admits at most twice the limit. */
  lemma IntervalAdmitsTwice(log: seq<Event>, windowMs: nat, max: nat, from: nat)
    requires windowMs > 0 && Punctual(log, windowMs)
    ensures Admitted(log, windowMs, max, from, from + windowMs) <= 2 * max
  {
    var k := Window(from, windowMs);
    IntervalInTwoWindows(log, windowMs, max, from);
    WindowAdmitsMin(log, windowMs, max, k);
    WindowAdmitsMin(log, windowMs, max, k + 1);
  }

  // ------------------------------------------------ the limit as it is spent

  /** n requests at one time. */
  function Burst(n: nat, now: nat): seq<Event> {
    seq(n, _ => Request(now))
  }

  /** Within what is left of its window's limit, a burst is let through. */
  lemma {:induction false} BurstIsAdmitted(log: seq<Event>, windowMs: nat, max: nat, n: nat, now: nat, from: nat, to: nat)
    requires windowMs > 0 && n <= max && from <= now < to
    requires Counted(log, windowMs, Window(now, windowMs)) == 0
    ensures Counted(log + Burst(n, now), windowMs, Window(now, windowMs)) == n
    ensures Admitted(log + Burst(n, now), windowMs, max, from, to) == Admitted(log, windowMs, max, from, to) + n
    ensures forall k :: k != Window(now, windowMs) ==>
      Counted(log + Burst(n, now), windowMs, k) == Counted(log, windowMs, k)
  {
    var longer := log + Burst(n, now);
    if n == 0 {
      assert longer == log;
    } else {
      BurstIsAdmitted(log, windowMs, max, n - 1, now, from, to);
      assert longer[..|longer| - 1] == log + Burst(n - 1, now);
      assert longer[|longer| - 1] == Request(now);
    }
  }

  /** Two bursts, in two different windows, are both let through. */
  lemma TwoBursts(windowMs: nat, max: nat, now: nat, later: nat, from: nat, to: nat) returns (log: seq<Event>)
    requires windowMs > 0 && from <= now < to && from <= later < to
    requires Window(now, windowMs) != Window(later, windowMs)
    ensures Punctual(log, windowMs) && Admitted(log, windowMs, max, from, to) == 2 * max
  {
    var none: seq<Event> := [];
    BurstIsAdmitted(none, windowMs, max, max, now, from, to);
    var first := none + Burst(max, now);
    assert Counted(first, windowMs, Window(later, windowMs)) == Counted(none, windowMs, Window(later, windowMs));
    BurstIsAdmitted(first, windowMs, max, max, later, from, to);
    log := first + Burst(max, later);
  }

  /** Every interval that is not aligned admits twice the limit in some run: a burst
      at its start, and one at the start of the next window. */
  lemma TwiceIsReached(windowMs: nat, max: nat, from: nat) returns (log: seq<Event>)
    requires windowMs > 0 && from % windowMs != 0
    ensures Punctual(log, windowMs) && Admitted(log, windowMs, max, from, from + windowMs) == 2 * max
  {
    var next := NextWindow(from, windowMs);
    log := TwoBursts(windowMs, max, from, next, from, from + windowMs);
  }

  /** The promise of a sliding window, and when it holds: an interval of one window's
      length never admits more than the limit exactly when it is aligned. */
  lemma LimitHoldsIffAligned(windowMs: nat, max: nat, from: nat)
    requires windowMs > 0 && max > 0
    ensures (forall log: seq<Event> :: Punctual(log, windowMs) ==>
              Admitted(log, windowMs, max, from, from + windowMs) <= max)
       <==> from % windowMs == 0
  {
    if from % windowMs == 0 {
      var k := from / windowMs;
      assert from == k * windowMs;
      forall log: seq<Event> | Punctual(log, windowMs)
        ensures Admitted(log, windowMs, max, from, from + windowMs) <= max
      {
        WindowAdmitsMin(log, windowMs, max, k);
      }
    } else {
      var log := TwiceIsReached(windowMs, max, from);
    }
  }

  /** Punctuality is needed: once the key has expired, requests whose clock was read
      before that are counted anew, and an aligned window admits twice the limit. */
  lemma LateRequestsAdmitTwice(windowMs: nat, max: nat, now: nat) returns (log: seq<Event>)
    requires windowMs > 0
    ensures var k := Window(now, windowMs);
      Admitted(log, windowMs, max, k * windowMs, k * windowMs + windowMs) == 2 * max
  {
    var k := Window(now, windowMs);
    var from := k * windowMs;
    InWindow(now, windowMs, k);
    var none: seq<Event> := [];
    BurstIsAdmitted(none, windowMs, max, max, now, from, from + windowMs);
    var first := none + Burst(max, now);
    var gone := first + [Expired(k)];
    assert gone[..|first|] == first;
    BurstIsAdmitted(gone, windowMs, max, max, now, from, from + windowMs);
    log := gone + Burst(max, now);
  }

  lemma CountOne(log: seq<Event>, e: Event, windowMs: nat, k: nat)
    requires windowMs > 0
    ensures Counted(log + [e], windowMs, k)
         == if e == Expired(k) then 0 else Counted(log, windowMs, k) + if In(e, windowMs, k) then 1 else 0
  {
    assert (log + [e])[..|log|] == log;
  }

  class RateLimiter {
    const windowMs: nat
    const max: nat
    var counts: map<(nat, nat), nat>            // the key of a client and a window
    ghost var logs: map<nat, seq<Event>>        // what happened to the keys of each client

    ghost predicate Valid()
      reads this
    {
      && windowMs > 0
      && forall c: nat, k: nat :: Count(c, k) == Counted(LogOf(c), windowMs, k)
    }

    function Count(client: nat, k: nat): nat
      reads this
    {
      if (client, k) in counts then counts[(client, k)] else 0
    }

    ghost function LogOf(client: nat): seq<Event>
      reads this
    {
      if client in logs then logs[client] else []
    }

    constructor (windowMs: nat, max: nat)
      requires windowMs > 0
      ensures Valid() && this.windowMs == windowMs && this.max == max
      ensures forall c: nat :: LogOf(c) == []
    {
      this.windowMs, this.max := windowMs, max;
      counts, logs := map[], map[];
    }

    /** Redis drops the key of a window, as PEXPIREAT asked it to. */
    method Expire(client: nat, k: nat)
      requires Valid()
      modifies this
      ensures Valid() && LogOf(client) == old(LogOf(client)) + [Expired(k)]
      ensures forall c: nat :: c != client ==> LogOf(c) == old(LogOf(c))
    {
      ghost var log := LogOf(client);
      counts := counts - {(client, k)};
      logs := logs[client := log + [Expired(k)]];
      forall c: nat, j: nat ensures Count(c, j) == Counted(LogOf(c), windowMs, j) {
        CountOne(log, Expired(k), windowMs, j);
        assert old(Count(c, j)) == Counted(old(LogOf(c)), windowMs, j);
      }
    }

    /** INCR: one more request of this client in this window. */
    method Increment(client: nat, now: nat) returns (current: nat)
      requires Valid()
      modifies this
      ensures Valid() && LogOf(client) == old(LogOf(client)) + [Request(now)]
      ensures forall c: nat :: c != client ==> LogOf(c) == old(LogOf(c))
      ensures current == Counted(LogOf(client), windowMs, Window(now, windowMs)) > 0
    {
      var k := Window(now, windowMs);
      current := Count(client, k) + 1;
      ghost var log := LogOf(client);
      counts := counts[(client, k) := current];
      logs := logs[client := log + [Request(now)]];
      forall c: nat, j: nat ensures Count(c, j) == Counted(LogOf(c), windowMs, j) {
        CountOne(log, Request(now), windowMs, j);
        assert old(Count(c, j)) == Counted(old(LogOf(c)), windowMs, j);
      }
    }

    /** Count the request in its window and compare. A Redis error lets the request
        pass; when only setting the key's expiry fails, the request is counted all the same. */
    method IsAllowed(client: nat, now: nat, incrFails: bool, expireFails: bool)
      returns (allowed: bool, remaining: nat, resetTime: nat)
      requires Valid()
      modifies this
      ensures Valid()
      ensures Window(resetTime, windowMs) == Window(now, windowMs) + 1 && now < resetTime <= now + windowMs
      ensures LogOf(client) == old(LogOf(client)) + if incrFails then [] else [Request(now)]
      ensures forall c: nat :: c != client ==> LogOf(c) == old(LogOf(c))
      ensures var n := Counted(LogOf(client), windowMs, Window(now, windowMs));
        if incrFails || (expireFails && n == 1) then allowed && remaining == max
        else allowed == LastAllowed(LogOf(client), windowMs, max) && remaining == max - Min(n, max)
    {
      resetTime := NextWindow(now, windowMs);
      if incrFails { return true, max, resetTime; }
      var current := Increment(client, now);
      if current == 1 && expireFails { return true, max, resetTime; }
      remaining := if max > current then max - current else 0;
      allowed := current <= max;
    }
  }

  /** The start of the next window. */
  function NextWindow(now: nat, windowMs: nat): (r: nat)
    requires windowMs > 0
    ensures Window(r, windowMs) == Window(now, windowMs) + 1 && now < r <= now + windowMs
    ensures r == now + windowMs <==> now % windowMs == 0
  {
    var k := now / windowMs;
    InWindow(now, windowMs, k);
    InWindow(k * windowMs + windowMs, windowMs, k + 1);
    assert (k + 1) * windowMs == k * windowMs + windowMs;
    assert now == k * windowMs + now % windowMs;
    k * windowMs + windowMs
  }
}

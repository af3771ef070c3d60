/**
  The fixed-window limiter of `adapters/ratelimit.py`: one atomic script increments a counter and, on the
  first increment only, gives it an expiry. Moments are milliseconds, windows and waiting times whole seconds.
 */
module RateLimit {
  import opened Sets
  import opened Wrappers

  type Key = nat

  type Pos = n: nat | n >= 1 witness 1

  /** A Redis counter with its moment of expiry; it reads as absent from then on. */
  datatype Counter = Counter(used: Pos, expiresAt: int)

  datatype OnFailure = Allow | Deny

  datatype Decision = Decision(allowed: bool, retryAfter: int, degraded: bool)

  /** How a call fares with the store: answered, never reached, or counted with the answer lost. */
  datatype Contact = Answered | Unreached | AnswerLost

  predicate Alive(c: Option<Counter>, now: int) {
    c.Some? && now < c.value.expiresAt
  }

  function Millis(seconds: int): int { 1000 * seconds }

  function Incremented(c: Option<Counter>, window: nat, now: int): Counter {
    if Alive(c, now) then Counter(c.value.used + 1, c.value.expiresAt) else Counter(1, now + Millis(window))
  }

  /** `TTL` answers whole seconds, rounded to the nearest. */
  function TimeToLive(c: Counter, now: int): int { (c.expiresAt - now + 500) / 1000 }

  function Decide(c: Counter, limit: int, window: nat, now: int): Decision {
    if c.used <= limit then Decision(true, 0, false)
    else
      var ttl := TimeToLive(c, now);
      var wait := if ttl > 0 then ttl else window;
      Decision(false, if wait > 1 then wait else 1, false)
  }

  class Limiter {
    var counters: map<Key, Counter>

    constructor ()
      ensures counters == map[]
    {
      counters := map[];
    }

    method Take(key: Key, limit: int, window: nat, onFailure: OnFailure, contact: Contact, now: int) returns (decision: Decision)
      modifies this
      ensures var was := if key in old(counters) then Some(old(counters)[key]) else None;
              && (contact.Unreached? ==> counters == old(counters))
              && (!contact.Unreached? ==> counters == old(counters)[key := Incremented(was, window, now)])
              && (contact.Answered? ==> decision == Decide(Incremented(was, window, now), limit, window, now))
              && (!contact.Answered? ==> decision == Decision(onFailure.Allow?, window, true))
    {
      if contact.Unreached? {
        return Decision(onFailure.Allow?, window, true);
      }
      var used: nat, expiresAt: int := 0, 0;
      if key in counters && now < counters[key].expiresAt {
        used, expiresAt := counters[key].used, counters[key].expiresAt;
      }
      used := used + 1;
      if used == 1 {
        expiresAt := now + Millis(window);
      }
      var counter := Counter(used, expiresAt);
      counters := counters[key := counter];
      if !contact.Answered? {
        return Decision(onFailure.Allow?, window, true);
      }
      if counter.used <= limit {
        return Decision(true, 0, false);
      }
      var ttl := (counter.expiresAt - now + 500) / 1000;
      var wait := if ttl > 0 then ttl else window;
      decision := Decision(false, if wait > 1 then wait else 1, false);
    }
  }

  /**
    What the counter makes of a call: within the limit it is let through; beyond it the caller is told the rest of the
    window in seconds, at least one, or the whole window when the rest rounds to nothing.
   */
  lemma DecisionFromCounter(c: Counter, limit: int, window: nat, now: int)
    ensures var d := Decide(c, limit, window, now);
            && !d.degraded && (d.allowed <==> c.used <= limit) && (d.allowed ==> d.retryAfter == 0)
            && (!d.allowed && c.expiresAt - now >= 500 ==> -500 < 1000 * d.retryAfter - (c.expiresAt - now) <= 500)
            && (!d.allowed && c.expiresAt - now < 500 ==> d.retryAfter == if window == 0 then 1 else window)
  {
  }

  // ----- The waiting time told to a refused caller -----

  /** What is left of the counting window is not rounded down to the waiting time. */
  predicate RoundedUp(remaining: int) {
    remaining < 500 || remaining % 1000 == 0 || remaining % 1000 >= 500
  }

  /** The counter as the retry meets it when the refused caller comes back exactly when told. */
  function RetryAsTold(c: Counter, limit: int, window: nat, now: int): Decision {
    var back := now + Millis(Decide(c, limit, window, now).retryAfter);
    Decide(Incremented(Some(c), window, back), limit, window, back)
  }

  /**
    Coming back exactly when told finds the window over if and only if the rest of it was not rounded down;
    otherwise the retry meets the same counter and is refused a second time.
   */
  lemma WaitIsEnoughExactlyWhen(was: Option<Counter>, limit: int, window: nat, now: int)
    requires limit >= 1 && !Decide(Incremented(was, window, now), limit, window, now).allowed
    ensures var c := Incremented(was, window, now);
            RetryAsTold(c, limit, window, now).allowed <==> RoundedUp(c.expiresAt - now)
  {
  }

  /** A second more than told is always enough, however the rest of the window was rounded. */
  lemma OneMoreSecondIsEnough(was: Option<Counter>, limit: int, window: nat, now: int, later: int)
    requires limit >= 1 && !Decide(Incremented(was, window, now), limit, window, now).allowed
    requires later >= now + Millis(Decide(Incremented(was, window, now), limit, window, now).retryAfter + 1)
    ensures var c := Incremented(Some(Incremented(was, window, now)), window, later);
            c.used == 1 && Decide(c, limit, window, later).allowed
  {
  }

  // ----- Whole runs on one key with a fixed limit and window -----

  datatype Call = Call(at: int, contact: Contact)

  ghost predicate InTimeOrder(calls: seq<Call>) {
    forall i, j | 0 <= i <= j < |calls| :: calls[i].at <= calls[j].at
  }

  /** The counter after the first `n` calls. */
  ghost function After(calls: seq<Call>, window: nat, n: nat): Option<Counter>
    requires n <= |calls|
  {
    if n == 0 then None
    else if calls[n - 1].contact.Unreached? then After(calls, window, n - 1)
    else Some(Incremented(After(calls, window, n - 1), window, calls[n - 1].at))
  }

  /** The i-th call was let through by the store itself. */
  ghost predicate Passed(calls: seq<Call>, limit: int, window: nat, i: nat)
    requires i < |calls|
  {
    calls[i].contact.Answered? && After(calls, window, i + 1).value.used <= limit
  }

  ghost function Expiry(calls: seq<Call>, window: nat, i: nat): int
    requires i < |calls| && !calls[i].contact.Unreached?
  {
    After(calls, window, i + 1).value.expiresAt
  }

  /** Calls let through in the counting window that ends at `expiry`. */
  ghost function PassedUntil(calls: seq<Call>, limit: int, window: nat, n: nat, expiry: int): set<nat>
    requires n <= |calls|
  {
    set i: nat | i < n && Passed(calls, limit, window, i) && Expiry(calls, window, i) == expiry
  }

  /** A counter lives no longer than one window from now: only its first increment ever sets the expiry. */
  lemma {:induction false} WindowEnds(calls: seq<Call>, window: nat, n: nat)
    requires n <= |calls| && InTimeOrder(calls)
    ensures n > 0 && After(calls, window, n).Some? ==> After(calls, window, n).value.expiresAt <= calls[n - 1].at + Millis(window)
    ensures n > 0 && !calls[n - 1].contact.Unreached? && window > 0 ==> calls[n - 1].at < After(calls, window, n).value.expiresAt
  {
    if n > 1 {
      WindowEnds(calls, window, n - 1);
    }
  }

  /** Windows follow one another without overlap. */
  lemma {:induction false} WindowsApart(calls: seq<Call>, window: nat, m: nat, n: nat)
    requires m <= n <= |calls| && InTimeOrder(calls) && After(calls, window, m).Some?
    ensures After(calls, window, n).Some?
    ensures var first, last := After(calls, window, m).value.expiresAt, After(calls, window, n).value.expiresAt;
            last == first || last >= first + Millis(window)
    decreases n
  {
    if m < n {
      WindowsApart(calls, window, m, n - 1);
    }
  }

  lemma {:induction false} PerWindow(calls: seq<Call>, limit: nat, window: nat, n: nat, expiry: int)
    requires n <= |calls| && InTimeOrder(calls) && window > 0
    ensures |PassedUntil(calls, limit, window, n, expiry)| <= limit
    ensures After(calls, window, n).Some? && After(calls, window, n).value.expiresAt == expiry ==>
              |PassedUntil(calls, limit, window, n, expiry)| <= After(calls, window, n).value.used
    ensures After(calls, window, n).None? || After(calls, window, n).value.expiresAt < expiry ==>
              PassedUntil(calls, limit, window, n, expiry) == {}
  {
    if n > 0 {
      PerWindow(calls, limit, window, n - 1, expiry);
      WindowEnds(calls, window, n);
      var before, now := PassedUntil(calls, limit, window, n - 1, expiry), PassedUntil(calls, limit, window, n, expiry);
      if Passed(calls, limit, window, n - 1) && Expiry(calls, window, n - 1) == expiry {
        assert now == before + {n - 1};
      } else {
        assert now == before;
      }
      if After(calls, window, n - 1).Some? { WindowsApart(calls, window, n - 1, n); }
    }
  }

  /** The calls among the first `n` that were counted, answered or not, in the window that ends at `expiry`. */
  ghost function CountedUntil(calls: seq<Call>, window: nat, n: nat, expiry: int): set<nat>
    requires n <= |calls|
  {
    set i: nat | i < n && !calls[i].contact.Unreached? && Expiry(calls, window, i) == expiry
  }

  lemma CountedBy(calls: seq<Call>, window: nat, n: nat)
    requires 0 < n <= |calls| && After(calls, window, n).Some?
    ensures var expiry := After(calls, window, n).value.expiresAt;
            CountedUntil(calls, window, n, expiry) ==
            CountedUntil(calls, window, n - 1, expiry) + if calls[n - 1].contact.Unreached? then {} else {n - 1}
  {
  }

  lemma NewWindowIsEmpty(calls: seq<Call>, window: nat, n: nat)
    requires n < |calls| && InTimeOrder(calls) && window > 0
    requires !calls[n].contact.Unreached? && !Alive(After(calls, window, n), calls[n].at)
    ensures CountedUntil(calls, window, n, Expiry(calls, window, n)) == {}
  {
    forall i: nat | i < n && !calls[i].contact.Unreached? ensures Expiry(calls, window, i) != Expiry(calls, window, n) {
      EarlierWindowIsOver(calls, window, i, n);
    }
  }

  /** A counter holds how many calls were counted in its window. */
  lemma {:induction false} UsedIsCounted(calls: seq<Call>, window: nat, n: nat)
    requires n <= |calls| && InTimeOrder(calls) && window > 0 && After(calls, window, n).Some?
    ensures After(calls, window, n).value.used == |CountedUntil(calls, window, n, After(calls, window, n).value.expiresAt)|
  {
    CountedBy(calls, window, n);
    if calls[n - 1].contact.Unreached? || Alive(After(calls, window, n - 1), calls[n - 1].at) {
      UsedIsCounted(calls, window, n - 1);
    } else {
      NewWindowIsEmpty(calls, window, n - 1);
    }
  }

  lemma EarlierWindowIsOver(calls: seq<Call>, window: nat, i: nat, n: nat)
    requires i < n < |calls| && InTimeOrder(calls) && window > 0
    requires !calls[i].contact.Unreached? && !calls[n].contact.Unreached? && !Alive(After(calls, window, n), calls[n].at)
    ensures Expiry(calls, window, i) < Expiry(calls, window, n)
  {
    WindowsApart(calls, window, i + 1, n);
    WindowEnds(calls, window, i + 1);
  }

  /** An answered call is let through if and only if fewer than `limit` calls were counted in its window before it. */
  lemma PassedExactlyWhen(calls: seq<Call>, limit: int, window: nat, i: nat)
    requires i < |calls| && InTimeOrder(calls) && window > 0 && calls[i].contact.Answered?
    ensures Passed(calls, limit, window, i) <==> Decide(After(calls, window, i + 1).value, limit, window, calls[i].at).allowed
    ensures Passed(calls, limit, window, i) <==> |CountedUntil(calls, window, i, Expiry(calls, window, i))| < limit
  {
    UsedIsCounted(calls, window, i + 1);
    CountedBy(calls, window, i + 1);
  }

  /** Within one window length of `from`, a call's window ends at `first` or at the one that follows. */
  lemma TwoWindows(calls: seq<Call>, window: nat, from: int, i: nat, j: nat, k: nat)
    requires InTimeOrder(calls) && window > 0 && i <= j <= k < |calls|
    requires !calls[i].contact.Unreached? && !calls[j].contact.Unreached? && !calls[k].contact.Unreached?
    requires from <= calls[i].at && calls[k].at <= from + Millis(window)
    ensures Expiry(calls, window, i) == Expiry(calls, window, j) || Expiry(calls, window, j) == Expiry(calls, window, k)
  {
    WindowEnds(calls, window, i + 1);
    WindowEnds(calls, window, k + 1);
    WindowsApart(calls, window, i + 1, j + 1);
    WindowsApart(calls, window, j + 1, k + 1);
  }

  /** Any interval of one window length holds at most twice the limit of calls let through by the store. */
  lemma AtMostTwiceTheLimit(calls: seq<Call>, limit: nat, window: nat, from: int)
    requires InTimeOrder(calls) && window > 0
    ensures |set i: nat | i < |calls| && Passed(calls, limit, window, i) && from <= calls[i].at <= from + Millis(window)| <= 2 * limit
  {
    var passed := set i: nat | i < |calls| && Passed(calls, limit, window, i) && from <= calls[i].at <= from + Millis(window);
    if passed != {} {
      var first := Least(passed);
      var last := Greatest(passed);
      var a := PassedUntil(calls, limit, window, |calls|, Expiry(calls, window, first));
      var b := PassedUntil(calls, limit, window, |calls|, Expiry(calls, window, last));
      forall i | i in passed
        ensures i in a + b
      {
        TwoWindows(calls, window, from, first, i, last);
      }
      SubsetSize(passed, a + b);
      UnionSize(a, b);
      PerWindow(calls, limit, window, |calls|, Expiry(calls, window, first));
      PerWindow(calls, limit, window, |calls|, Expiry(calls, window, last));
    }
  }

  /**
    Sixty seconds, one call allowed: the call at 58.6 s is refused and told to wait a second, the retry at
    59.6 s meets the window that refused it.
   */
  lemma RefusedTwice()
    ensures var calls := [Call(0, Answered), Call(58_600, Answered), Call(59_600, Answered)];
            && Passed(calls, 1, 60, 0) && !Passed(calls, 1, 60, 1) && !Passed(calls, 1, 60, 2)
            && Decide(After(calls, 60, 2).value, 1, 60, 58_600).retryAfter == 1
  {
    var calls := [Call(0, Answered), Call(58_600, Answered), Call(59_600, Answered)];
    assert After(calls, 60, 1) == Some(Counter(1, 60_000));
    assert After(calls, 60, 2) == Some(Counter(2, 60_000));
    assert After(calls, 60, 3) == Some(Counter(3, 60_000));
  }
}

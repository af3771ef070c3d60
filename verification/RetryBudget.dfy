/** The retry budget of `apps/common/resilience.py`, and the retry loop that spends it. */
module RetryBudget {

  /** Counters of the current window; `ratio` and `window` never change. */
  datatype Budget = Budget(ratio: real, window: real, attempts: nat, retries: nat, windowStart: real)

  function Max(a: real, b: real): real { if a >= b then a else b }

  function Rolled(b: Budget, now: real): Budget {
    if now - b.windowStart >= b.window then b.(attempts := 0, retries := 0, windowStart := now) else b
  }

  function Recorded(b: Budget, now: real): Budget {
    var r := Rolled(b, now);
    r.(attempts := r.attempts + 1)
  }

  predicate Grants(b: Budget, now: real) {
    var r := Rolled(b, now);
    !(r.retries as real >= Max(1.0, r.attempts as real * r.ratio))
  }

  function Asked(b: Budget, now: real): Budget {
    var r := Rolled(b, now);
    if Grants(b, now) then r.(retries := r.retries + 1) else r
  }

  /**
    A retry is granted exactly while fewer than one, or fewer than the ratio of attempts, were granted in the window; the
    first one of a window always is, and an elapsed window counts for nothing.
   */
  lemma GrantedExactlyWhen(b: Budget, now: real)
    ensures now - b.windowStart >= b.window ==> Grants(b, now)
    ensures now - b.windowStart < b.window ==>
              (Grants(b, now) <==> b.retries == 0 || b.retries as real < b.attempts as real * b.ratio)
  {
  }

  /** How one call of the wrapped function ends. */
  datatype Outcome = Returned | Retryable | Fatal | CircuitOpen

  datatype CallResult = Value | Raised(outcome: Outcome) | NothingTried

  class SharedBudget {
    const ratio: real
    const window: real
    var attempts: nat
    var retries: nat
    var windowStart: real
    /** Everything this budget ever recorded and granted. */
    ghost var recorded: nat
    ghost var granted: nat

    function State(): Budget
      reads this
    {
      Budget(ratio, window, attempts, retries, windowStart)
    }

    constructor (ratio: real, window: real, now: real)
      ensures State() == Budget(ratio, window, 0, 0, now) && recorded == granted == 0
    {
      this.ratio, this.window := ratio, window;
      attempts, retries, windowStart := 0, 0, now;
      recorded, granted := 0, 0;
    }

    method Roll(now: real)
      modifies this
      ensures State() == Rolled(old(State()), now) && recorded == old(recorded) && granted == old(granted)
      ensures if now - old(windowStart) >= window then attempts == 0 && retries == 0 && windowStart == now
              else attempts == old(attempts) && retries == old(retries) && windowStart == old(windowStart)
    {
      if now - windowStart >= window {
        attempts := 0;
        retries := 0;
        windowStart := now;
      }
    }

    method RecordAttempt(now: real)
      modifies this
      ensures State() == Recorded(old(State()), now) && recorded == old(recorded) + 1 && granted == old(granted)
    {
      Roll(now);
      attempts := attempts + 1;
      recorded := recorded + 1;
    }

    method AllowRetry(now: real) returns (granted': bool)
      modifies this
      ensures granted' <==> Grants(old(State()), now)
      ensures old(retries) == 0 || now - old(windowStart) >= window || old(retries) as real < old(attempts) as real * ratio ==> granted'
      ensures granted' ==> old(retries) == 0 || now - old(windowStart) >= window || old(retries) as real < old(attempts) as real * ratio
      ensures State() == Asked(old(State()), now)
      ensures recorded == old(recorded) && granted == old(granted) + (if granted' then 1 else 0)
    {
      Roll(now);
      if retries as real >= Max(1.0, attempts as real * ratio) {
        return false;
      }
      retries := retries + 1;
      granted := granted + 1;
      granted' := true;
    }
  }

  /**
    Calls until a value, a fatal error, an open circuit, the last attempt or a refused retry. Every retry
    the budget granted is followed by one more recorded attempt.
   */
  method CallWithRetry(outcomes: nat -> Outcome, attempts: nat, budget: SharedBudget, clock: nat -> real) returns (result: CallResult, calls: nat)
    modifies budget
    ensures attempts == 0 <==> result.NothingTried?
    ensures calls <= attempts
    ensures budget.recorded == old(budget.recorded) + calls
    ensures attempts > 0 ==> calls >= 1 && budget.granted == old(budget.granted) + calls - 1
    ensures attempts > 0 ==> forall k | 0 <= k < calls - 1 :: outcomes(k).Retryable?
    ensures attempts > 0 ==> result == if outcomes(calls - 1).Returned? then Value else Raised(outcomes(calls - 1))
  {
    calls := 0;
    result := NothingTried;
    while calls < attempts
      invariant calls <= attempts
      invariant budget.recorded == old(budget.recorded) + calls && budget.granted == old(budget.granted) + calls
      invariant forall k | 0 <= k < calls :: outcomes(k).Retryable?
      invariant calls == 0 <==> result.NothingTried?
      invariant calls < attempts || attempts == 0
      decreases attempts - calls
    {
      budget.RecordAttempt(clock(2 * calls));
      var outcome := outcomes(calls);
      calls := calls + 1;
      if outcome.Returned? {
        result := Value;
        return;
      }
      result := Raised(outcome);
      if !outcome.Retryable? || calls == attempts {
        return;
      }
      var granted := budget.AllowRetry(clock(2 * calls - 1));
      if !granted {
        return;
      }
    }
  }

  // ----- Whole runs: callers share the budget in any interleaving -----

  /** A first attempt, a question to the budget, or the further attempt a grant leads to. */
  datatype Event = First(at: real) | Ask(at: real) | Again(at: real)

  datatype Totals = Totals(firsts: nat, agains: nat, granted: nat, windows: nat)

  ghost function StateAfter(start: Budget, events: seq<Event>): Budget {
    if events == [] then start
    else
      var b, e := StateAfter(start, events[..|events| - 1]), events[|events| - 1];
      if e.Ask? then Asked(b, e.at) else Recorded(b, e.at)
  }

  /** Attempts, grants and windows opened over the run. */
  ghost function TotalsAfter(start: Budget, events: seq<Event>): Totals {
    if events == [] then Totals(0, 0, 0, 1)
    else
      var before, e := events[..|events| - 1], events[|events| - 1];
      var b, t := StateAfter(start, before), TotalsAfter(start, before);
      Totals(t.firsts + (if e.First? then 1 else 0),
             t.agains + (if e.Again? then 1 else 0),
             t.granted + (if e.Ask? && Grants(b, e.at) then 1 else 0),
             t.windows + (if e.at - b.windowStart >= b.window then 1 else 0))
  }

  /** A further attempt spends a grant: as `CallWithRetry` does, none is made without one. */
  ghost predicate Legal(start: Budget, events: seq<Event>) {
    events == [] || (
      && Legal(start, events[..|events| - 1])
      && TotalsAfter(start, events).agains <= TotalsAfter(start, events).granted)
  }

  ghost predicate Fresh(b: Budget) {
    b.attempts == 0 && b.retries == 0
  }

  /** `r` taken `n` times. */
  ghost function Times(r: real, n: nat): real {
    if n == 0 then 0.0 else Times(r, n - 1) + r
  }

  lemma {:induction false} TimesIsProduct(r: real, n: nat)
    ensures Times(r, n) == n as real * r
  {
    if n > 0 { TimesIsProduct(r, n - 1); }
  }

  lemma {:induction false} TimesAdds(r: real, a: nat, b: nat)
    ensures Times(r, a + b) == Times(r, a) + Times(r, b)
  {
    if b > 0 { TimesAdds(r, a, b - 1); }
  }

  lemma {:induction false} TimesGrows(r: real, a: nat, b: nat)
    requires r >= 0.0 && a <= b
    ensures 0.0 <= Times(r, a) <= Times(r, b)
  {
    if a < b { TimesGrows(r, a, b - 1); } else if a > 0 { TimesGrows(r, a - 1, a - 1); }
  }

  /** What holds of past windows and of the current one, given what was recorded in all. */
  ghost predicate Within(start: Budget, b: Budget, recorded: nat, granted: nat, windows: nat) {
    && b.ratio == start.ratio && b.window == start.window && windows >= 1
    && b.attempts <= recorded && b.retries <= granted
    && b.retries as real <= 1.0 + Times(start.ratio, b.attempts)
    && (granted - b.retries) as real <= (windows - 1) as real + Times(start.ratio, recorded - b.attempts)
    && Times(start.window, windows - 1) <= b.windowStart - start.windowStart
  }

  lemma RollWithin(start: Budget, b: Budget, recorded: nat, granted: nat, windows: nat, now: real)
    requires start.ratio >= 0.0 && Within(start, b, recorded, granted, windows)
    ensures Within(start, Rolled(b, now), recorded, granted, windows + if now - b.windowStart >= b.window then 1 else 0)
  {
    TimesAdds(start.ratio, recorded - b.attempts, b.attempts);
  }

  /** A recorded attempt widens the allowance; a grant stays inside it, as the check before it demands. */
  lemma EventWithin(start: Budget, b: Budget, recorded: nat, granted: nat, windows: nat, now: real)
    requires start.ratio >= 0.0 && Within(start, b, recorded, granted, windows)
    ensures var w := windows + if now - b.windowStart >= b.window then 1 else 0;
            && Within(start, Recorded(b, now), recorded + 1, granted, w)
            && Within(start, Asked(b, now), recorded, granted + (if Grants(b, now) then 1 else 0), w)
  {
    RollWithin(start, b, recorded, granted, windows, now);
    var kept := Rolled(b, now);
    TimesIsProduct(start.ratio, kept.attempts);
    TimesGrows(start.ratio, 0, kept.attempts);
  }

  lemma {:induction false} RunWithin(start: Budget, events: seq<Event>)
    requires Fresh(start) && start.ratio >= 0.0
    ensures var t := TotalsAfter(start, events);
            Within(start, StateAfter(start, events), t.firsts + t.agains, t.granted, t.windows)
  {
    if events != [] {
      var before, e := events[..|events| - 1], events[|events| - 1];
      RunWithin(start, before);
      var t := TotalsAfter(start, before);
      EventWithin(start, StateAfter(start, before), t.firsts + t.agains, t.granted, t.windows, e.at);
    }
  }

  /** Grants stay within one per window plus the ratio of everything recorded. */
  ghost predicate GrantsBounded(t: Totals, ratio: real) {
    t.granted as real <= t.windows as real + (t.firsts + t.agains) as real * ratio
  }

  /** No more windows than fit into the time elapsed, and one. */
  ghost predicate WindowsBounded(t: Totals, window: real, elapsed: real) {
    t.windows >= 1 && (t.windows - 1) as real * window <= elapsed
  }

  /** First attempts alone limit the grants. */
  ghost predicate AmplificationBounded(t: Totals, ratio: real) {
    t.granted as real * (1.0 - ratio) <= t.windows as real + t.firsts as real * ratio
  }

  lemma WithinMeans(start: Budget, b: Budget, t: Totals)
    requires Within(start, b, t.firsts + t.agains, t.granted, t.windows)
    ensures GrantsBounded(t, start.ratio) && WindowsBounded(t, start.window, b.windowStart - start.windowStart)
  {
    var recorded := t.firsts + t.agains;
    TimesAdds(start.ratio, recorded - b.attempts, b.attempts);
    assert t.granted as real <= t.windows as real + Times(start.ratio, recorded);
    TimesIsProduct(start.ratio, recorded);
    TimesIsProduct(start.window, t.windows - 1);
  }

  lemma SolveForGrants(t: Totals, r: real)
    requires r >= 0.0 && t.agains <= t.granted && GrantsBounded(t, r)
    ensures AmplificationBounded(t, r)
  {
    TimesAdds(r, t.firsts, t.agains);
    TimesGrows(r, t.agains, t.granted);
    TimesIsProduct(r, t.firsts + t.agains);
    TimesIsProduct(r, t.firsts);
    TimesIsProduct(r, t.granted);
    assert t.granted as real * (1.0 - r) == t.granted as real - t.granted as real * r;
  }

  /**
    Over any run, however callers interleave: grants are bounded by windows and attempts, windows by the
    time elapsed; and although retries feed the budget, when each further attempt spends a grant the
    first attempts alone bound the retries.
   */
  lemma RetriesWithinBudget(start: Budget, events: seq<Event>)
    requires Fresh(start) && start.ratio >= 0.0
    ensures GrantsBounded(TotalsAfter(start, events), start.ratio)
    ensures WindowsBounded(TotalsAfter(start, events), start.window, StateAfter(start, events).windowStart - start.windowStart)
    ensures Legal(start, events) ==> AmplificationBounded(TotalsAfter(start, events), start.ratio)
  {
    RunWithin(start, events);
    var t := TotalsAfter(start, events);
    WithinMeans(start, StateAfter(start, events), t);
    if Legal(start, events) {
      assert t.agains <= t.granted;
      SolveForGrants(t, start.ratio);
    }
  }
}

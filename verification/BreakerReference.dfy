/** The pure reference breaker beside the reducer that replaced it: where they agree, and where they do not. */
module BreakerReference {
  import opened Wrappers
  import opened Breaker
  import opened PermitSafety

  /** The reference state; an absent time is zero. */
  datatype State = State(phase: Phase, failures: int, lastFailureAt: int, cooldownUntil: int)

  function RecordFailure(s: State, now: int, threshold: int, window: int, cooldown: int, immediate: bool): State {
    var limit := if threshold < 1 then 1 else threshold;
    var within := s.lastFailureAt > 0 && now >= s.lastFailureAt && now - s.lastFailureAt <= Milliseconds(window);
    var failures := if within then s.failures + 1 else 1;
    if s.phase == HalfOpen || immediate || failures >= limit then
      State(Open, 0, now, now + Milliseconds(Max(cooldown, SECOND)))
    else State(Closed, failures, now, 0)
  }

  function Time(t: Option<int>): int { if t.Some? then t.value else 0 }

  /** The reference's view of a health row. */
  function View(h: Health): State { State(h.phase, h.failures, Time(h.lastFailureAt), Time(h.cooldownUntil)) }

  /** The failure counts against the target and is not one the row has seen. */
  predicate Counts(h: Health, e: Event) {
    e.Failure? && e.at > 0 && e.decision.penalize && !e.decision.unsupported && !Redelivered(h, e)
  }

  /** What holds of every row that is ever written: recorded times are positive, only a closed circuit counts failures
      and only a tripped one has a cooldown. */
  predicate Written(h: Health) {
    && (h.lastFailureAt.Some? ==> h.lastFailureAt.value > 0)
    && (if h.phase == Closed then h.cooldownUntil.None? else h.failures == 0 && h.cooldownUntil.Some?)
  }

  lemma {:induction false} AlwaysWritten(actions: seq<Action>)
    ensures Written(Play(FRESH, actions))
  {
    if actions != [] {
      AlwaysWritten(actions[..|actions| - 1]);
      WrittenStep(Play(FRESH, actions[..|actions| - 1]), actions[|actions| - 1]);
    }
  }

  lemma WrittenStep(h: Health, a: Action)
    requires Written(h)
    ensures Written(Act(h, a))
  {
  }

  predicate Configured(p: Policy) { p.threshold >= 2 && p.windowSeconds > 0 && p.cooldownSeconds > 0 }

  /** What the reference makes of the same failure; a Retry-After opens the circuit at once. */
  function ReferenceStep(h: Health, p: Policy, e: Event): State
    requires e.Failure?
  {
    RecordFailure(View(h), e.at, p.threshold, p.windowSeconds * SECOND, Max(p.cooldownSeconds * SECOND, RetryAfter(e)),
                  RetryAfter(e) > 0)
  }

  /** On a closed circuit the reducer makes of every failure what the reference makes of it; on a half-open one, exactly
      when the cooldown in force ends no later than the new one: otherwise the reference would shorten it. */
  lemma AgreesUnlessOpen(h: Health, p: Policy, e: Event)
    requires Counts(h, e) && Written(h) && Configured(p) && h.phase != Open
    ensures Reduce(h, p, e).Some?
    ensures View(Reduce(h, p, e).value.0) == ReferenceStep(h, p, e) <==>
      h.phase == Closed || h.cooldownUntil.value <= e.at + CooldownMs(p, RetryAfter(e))
  {
    assert Milliseconds(p.windowSeconds * SECOND) == p.windowSeconds * 1000;
    assert CooldownMs(p, RetryAfter(e)) >= 1000;
  }

  /** On an open circuit they agree exactly when the failure carries a Retry-After and the cooldown in force ends no
      later than the new one: otherwise the reference would close the circuit or shorten the cooldown, and the reducer
      does neither. */
  lemma OpenCircuits(h: Health, p: Policy, e: Event)
    requires Counts(h, e) && Configured(p) && h.phase == Open && h.failures == 0
    ensures var next := Reduce(h, p, e).value.0;
      && next.phase == Open
      && (h.cooldownUntil.Some? ==> Time(next.cooldownUntil) >= h.cooldownUntil.value)
      && (View(next) == ReferenceStep(h, p, e) <==>
           RetryAfter(e) > 0 && Time(h.cooldownUntil) <= e.at + CooldownMs(p, RetryAfter(e)))
  {
    assert CooldownMs(p, RetryAfter(e)) >= 1000;
  }

  /** So after any interleaving of permits and events: the two make the same of one more failure exactly when the
      circuit is closed, or neither would shorten the cooldown and, if it is open, the failure carries a Retry-After. */
  lemma AgreesExactlyWhen(actions: seq<Action>, p: Policy, e: Event)
    requires Counts(Play(FRESH, actions), e) && Configured(p)
    ensures var h := Play(FRESH, actions);
      && (h.phase != Closed ==> h.cooldownUntil.Some?)
      && Reduce(h, p, e).Some?
      && (View(Reduce(h, p, e).value.0) == ReferenceStep(h, p, e) <==>
           h.phase == Closed ||
           ((h.phase == Open ==> RetryAfter(e) > 0) && h.cooldownUntil.value <= e.at + CooldownMs(p, RetryAfter(e))))
  {
    AlwaysWritten(actions);
    var h := Play(FRESH, actions);
    if h.phase == Open { OpenCircuits(h, p, e); } else { AgreesUnlessOpen(h, p, e); }
  }
}

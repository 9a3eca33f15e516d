/**
The circuit breaker of one route target: a reducer over health events and a permit step that hands out half-open
leases. Times are milliseconds, durations nanoseconds.
*/
module Breaker {
  import opened Wrappers
  import opened Classification

  const SECOND: int := 1_000_000_000
  const MILLISECOND: int := 1_000_000

  datatype Phase = Closed | Open | HalfOpen

  datatype Capability = Unknown | Supported | Unsupported

  /** The health row; an absent row reads as FRESH. An empty string stands for NULL. */
  datatype Health = Health(
    phase: Phase, failures: int, lastFailureAt: Option<int>, lastSuccessAt: Option<int>, cooldownUntil: Option<int>,
    leaseUntil: Option<int>, capability: Capability, errorClass: Option<Class>, errorMessage: string, incident: string,
    updatedAt: int)

  const FRESH: Health := Health(Closed, 0, None, None, None, None, Unknown, None, "", "", 0)

  datatype Policy = Policy(threshold: int, windowSeconds: int, cooldownSeconds: int)

  datatype Event =
    | Success(at: int)
    | Failure(at: int, decision: Decision, incident: string, message: string, retryAfter: int)

  function Normalize(p: Policy): Policy {
    Policy(if p.threshold < 2 then 2 else p.threshold,
           if p.windowSeconds <= 0 then 300 else p.windowSeconds,
           if p.cooldownSeconds <= 0 then 300 else p.cooldownSeconds)
  }

  function Max(a: int, b: int): int { if a >= b then a else b }

  /** Duration.Milliseconds truncates; every duration that reaches it here is positive. */
  function Milliseconds(d: int): int { d / MILLISECOND }

  predicate WithinWindow(previous: Option<int>, at: int, p: Policy) {
    previous.Some? && at >= previous.value && at - previous.value <= p.windowSeconds * 1000
  }

  /** Whether the event is the incident the row already recorded. */
  predicate Redelivered(h: Health, e: Event) {
    e.Failure? && e.incident != "" && e.incident == h.incident
  }

  function RetryAfter(e: Event): int
    requires e.Failure?
  {
    Max(e.retryAfter, e.decision.retryAfter)
  }

  function CooldownMs(p: Policy, retryAfter: int): int {
    Milliseconds(Max(Max(p.cooldownSeconds * SECOND, retryAfter), SECOND))
  }

  function Penalized(h: Health, raw: Policy, e: Event): Health
    requires e.Failure?
  {
    var p := Normalize(raw);
    var next := h.(updatedAt := e.at, errorClass := Some(e.decision.kind), errorMessage := e.message,
                   incident := e.incident, lastFailureAt := Some(e.at));
    var failures := if WithinWindow(h.lastFailureAt, e.at, p) then h.failures + 1 else 1;
    if !(h.phase == Open || h.phase == HalfOpen || RetryAfter(e) > 0 || failures >= p.threshold) then
      next.(phase := Closed, failures := failures, cooldownUntil := None, leaseUntil := None)
    else
      var until := e.at + CooldownMs(p, RetryAfter(e));
      next.(phase := Open, failures := 0, leaseUntil := None,
            cooldownUntil := Some(if h.cooldownUntil.Some? then Max(h.cooldownUntil.value, until) else until))
  }

  /** The next row and whether it changed; None when the event time is not positive. */
  function Reduce(h: Health, p: Policy, e: Event): Option<(Health, bool)> {
    if e.at <= 0 then None
    else if Redelivered(h, e) then Some((h, false))
    else match e
      case Success(at) =>
        Some((h.(phase := Closed, failures := 0, lastSuccessAt := Some(at), cooldownUntil := None, leaseUntil := None,
                 capability := Supported, errorClass := None, errorMessage := "", updatedAt := at), true))
      case Failure(at, decision, incident, message, _) =>
        var next := h.(updatedAt := at, errorClass := Some(decision.kind), errorMessage := message,
                       incident := incident);
        if decision.unsupported then Some((next.(capability := Unsupported), true))
        else if !decision.penalize then Some((next, true))
        else Some((Penalized(h, p, e), true))
  }

  function LeaseMs(lease: int): int {
    Milliseconds(Max(lease, SECOND))
  }

  /** The permit transaction: the row it leaves and whether the request may go ahead. */
  function Permit(h: Health, now: int, lease: int, probe: bool): (Health, bool) {
    if h.capability == Unsupported && !probe then (h, false)
    else if h.phase == Closed then (h, true)
    else if h.phase == Open && h.cooldownUntil.Some? && h.cooldownUntil.value > now then (h, false)
    else if h.leaseUntil.Some? && h.leaseUntil.value > now then (h, false)
    else (h.(phase := HalfOpen, leaseUntil := Some(now + LeaseMs(lease)), updatedAt := now), true)
  }

  /** The stored row and the two transactions that rewrite it. */
  class HealthRow {
    var row: Health

    constructor ()
      ensures row == FRESH
    {
      row := FRESH;
    }

    method AcquirePermit(now: int, lease: int, probe: bool) returns (permitted: bool)
      modifies this
      ensures (row, permitted) == Permit(old(row), now, lease, probe)
    {
      permitted := false;
      var duration := lease;
      if duration < SECOND {
        duration := SECOND;
      }
      if row.capability == Unsupported && !probe {
        return;
      }
      if row.phase == Closed {
        return true;
      }
      if row.phase == Open && row.cooldownUntil.Some? && row.cooldownUntil.value > now {
        return;
      }
      if row.leaseUntil.Some? && row.leaseUntil.value > now {
        return;
      }
      row := row.(phase := HalfOpen, leaseUntil := Some(now + Milliseconds(duration)), updatedAt := now);
      permitted := true;
    }

    /** Reads the row, reduces the event and writes the row back only when the reducer says it changed. */
    method ApplyEvent(p: Policy, e: Event) returns (ok: bool)
      modifies this
      ensures ok <==> Reduce(old(row), p, e).Some?
      ensures row == if ok then Reduce(old(row), p, e).value.0 else old(row)
    {
      var next := Reduce(row, p, e);
      if next.None? {
        return false;
      }
      if next.value.1 {
        row := next.value.0;
      }
      return true;
    }
  }
}

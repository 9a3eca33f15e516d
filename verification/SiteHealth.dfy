/** What a request's outcomes do to the circuits of the sites it tried. */
module SiteHealth {
  import opened Wrappers
  import opened Classification
  import opened Failover
  import opened FailoverTheorems
  import Breaker
  import BreakerTheorems
  import PermitSafety

  /** The decision a failure is recorded with: a fault of the connection, of the stream, or what the answer says. */
  function Decided(o: Outcome): Decision {
    if o.StreamFailed? then Classify(o.status, false, true, o.committed, 0)
    else if o.Answered? then DecisionOf(o)
    else Classify(0, false, true, false, 0)
  }

  /** The event a request records for a site it tried, if any; the incident is the request. */
  function HealthEvent(o: Outcome, at: int, request: string, message: string): Option<Breaker.Event> {
    match EventOf(o)
    case None => None
    case Some(true) => Some(Breaker.Success(at))
    case Some(false) => Some(Breaker.Failure(at, Decided(o), request, message, Decided(o).retryAfter))
  }

  /** Which outcomes say what of the site, by their facts alone: an answer that names an unsupported model marks the
      site without blaming it, every other failure of the site is held against it, and a key's own fault is not
      reported. No live request ever passes on a Retry-After: that is the key's. */
  lemma EventsAre(o: Outcome, at: int, request: string, message: string)
    ensures var e := HealthEvent(o, at, request, message);
      && (e.None? <==> KeyFault(o) || Cancelled(o) || Refusal(o) || o.StreamCancelled?)
      && (e.Some? && e.value.Success? <==> Good(o) || o.StreamDone?)
      && (e.Some? && e.value.Failure? ==>
           && (SiteFault(o) || o.StreamFailed?)
           && e.value.incident == request && e.value.at == at && Breaker.RetryAfter(e.value) == 0
           && (e.value.decision.unsupported <==> o.Answered? && o.saysUnsupported)
           && (e.value.decision.penalize <==> !(o.Answered? && o.saysUnsupported)))
  {
    OutcomesDecide(o);
  }

  /** Once a site has answered that it does not have the model, the requests that come after are not sent there,
      whatever its circuit, until one that was already under way succeeds. */
  lemma UnsupportedModelIsLearned(actions: seq<PermitSafety.Action>, p: Breaker.Policy, o: Outcome, at: int,
      request: string, message: string, now: int, lease: int)
    requires SiteFault(o) && o.Answered? && o.saysUnsupported && at > 0
    requires request != PermitSafety.Play(Breaker.FRESH, actions).incident
    ensures var e := HealthEvent(o, at, request, message);
      && e.Some?
      && var h := PermitSafety.Play(Breaker.FRESH, actions + [PermitSafety.Happen(p, e.value)]);
      && h.capability == Breaker.Unsupported && !Breaker.Permit(h, now, lease, false).1
  {
    EventsAre(o, at, request, message);
    var last := PermitSafety.Happen(p, HealthEvent(o, at, request, message).value);
    assert (actions + [last])[..|actions|] == actions;
  }
}

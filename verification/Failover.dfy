/**
The failover loop of one request: sites in configured order, the keys of each site in order, and an arbitrary
outcome for every attempt.
*/
module Failover {
  import opened Wrappers
  import opened Accounting
  import opened Classification

  const NO_TOKENS := Reported(None, None, None, None, None, None)

  /** How one attempt ended. A cancellation is the downstream client's; `usage` is what the upstream reported. */
  datatype Outcome =
    | BuildFailed
    | TransportCancelled
    | TransportFailed
    | StreamDone(status: int, usage: Reported)
    | StreamCancelled(status: int, committed: bool, usage: Reported)
    | StreamFailed(status: int, committed: bool, usage: Reported)
    | ReadCancelled
    | ReadFailed
    | Answered(status: int, saysUnsupported: bool, retryAfter: int, valid: bool, empty: bool, usage: Reported)

  datatype PermitResult = PermitError | Denied | Granted

  /** The number of eligible keys of each site, the attempt budget, and the oracles of one run. */
  datatype Run = Run(sites: seq<nat>, maxAttempts: int, permit: nat -> PermitResult,
                     expired: (nat, nat) -> bool, outcome: (nat, nat) -> Outcome)

  datatype Attempt = Attempt(site: nat, credential: nat, index: nat, outcome: Outcome)

  /** A health event the request records for a site. */
  datatype SiteEvent = SiteEvent(site: nat, success: bool)

  datatype Trace = Trace(attempts: seq<Attempt>, permits: seq<nat>, events: seq<SiteEvent>,
                         lastStatus: int, lastBody: bool)

  datatype Finish = Finish(success: bool, charge: bool, tokens: Reported, httpStatus: int)

  /** What the loop does after an attempt. `streamed` tells that the client already holds the output. */
  datatype Flow = NextKey | NextSite | GiveUp | Stop(finish: Finish, streamed: bool)

  function DecisionOf(o: Outcome): Decision
    requires o.Answered?
  {
    var d := Classify(o.status, o.saysUnsupported, false, false, o.retryAfter);
    if d.kind == NoFault && !o.valid then ClassifyInvalidSuccess(o.saysUnsupported) else d
  }

  function FlowOf(o: Outcome): Flow {
    match o
    case BuildFailed => NextKey
    case TransportCancelled => GiveUp
    case TransportFailed => NextSite
    case StreamDone(status, usage) => Stop(Finish(true, true, usage, status), true)
    case StreamCancelled(status, committed, usage) =>
      if committed then Stop(Finish(false, true, usage, status), true) else GiveUp
    case StreamFailed(status, committed, usage) =>
      if committed then Stop(Finish(false, true, usage, status), true) else NextSite
    case ReadCancelled => GiveUp
    case ReadFailed => NextSite
    case Answered(status, _, _, _, _, usage) =>
      var d := DecisionOf(o);
      if d.kind == NoFault then Stop(Finish(true, true, usage, status), false)
      else if CredentialLocal(d) then NextKey
      else if d.failover then NextSite
      else Stop(Finish(false, false, NO_TOKENS, status), false)
  }

  /** The health event of an attempt, if any. */
  function EventOf(o: Outcome): Option<bool> {
    match o
    case TransportFailed => Some(false)
    case StreamDone(_, _) => Some(true)
    case StreamFailed(_, _, _) => Some(false)
    case ReadFailed => Some(false)
    case Answered(_, _, _, _, _, _) =>
      var d := DecisionOf(o);
      if d.kind == NoFault then Some(true)
      else if !CredentialLocal(d) && (d.penalize || d.unsupported) then Some(false)
      else None
    case _ => None
  }

  /** The status and body kept for the client in case every site is exhausted. */
  function Remember(t: Trace, o: Outcome): Trace {
    match o
    case BuildFailed => t.(lastStatus := 502, lastBody := false)
    case TransportFailed => t.(lastStatus := 504, lastBody := false)
    case StreamFailed(_, _, _) => t.(lastStatus := 502, lastBody := false)
    case ReadFailed => t.(lastStatus := 502, lastBody := false)
    case Answered(status, _, _, valid, empty, _) =>
      if DecisionOf(o).kind == NoFault then t
      else if 200 <= status < 300 && !valid then t.(lastStatus := 502, lastBody := false)
      else t.(lastStatus := status, lastBody := !empty)
    case _ => t
  }

  function Record(t: Trace, site: nat, credential: nat, o: Outcome): Trace {
    var t1 := Remember(t, o).(attempts := t.attempts + [Attempt(site, credential, |t.attempts|, o)]);
    match EventOf(o)
    case None => t1
    case Some(success) => t1.(events := t1.events + [SiteEvent(site, success)])
  }

  // ----- the loop as a function

  function TryKeys(r: Run, site: nat, credential: nat, buildFailures: nat, t: Trace): (Trace, Flow)
    requires site < |r.sites| && credential <= r.sites[site]
    decreases r.sites[site] - credential
  {
    if credential == r.sites[site] then
      (if buildFailures == r.sites[site] && buildFailures > 0
       then t.(events := t.events + [SiteEvent(site, false)]) else t, NextSite)
    else if r.expired(site, credential) then (t, GiveUp)
    else
      var o := r.outcome(site, credential);
      var t' := Record(t, site, credential, o);
      var flow := FlowOf(o);
      if flow == NextKey then
        TryKeys(r, site, credential + 1, if o.BuildFailed? then buildFailures + 1 else buildFailures, t')
      else (t', flow)
  }

  /** The number of sites that may be entered: the configured one, three by default, and never more than there are. */
  function Budget(r: Run): (b: nat)
    ensures b <= |r.sites| && (r.maxAttempts > 0 ==> b <= r.maxAttempts) && (r.maxAttempts <= 0 ==> b <= 3)
    ensures b == |r.sites| || b == if r.maxAttempts > 0 then r.maxAttempts else 3
  {
    var wanted := if r.maxAttempts > 0 then r.maxAttempts else 3;
    if wanted > |r.sites| then |r.sites| else wanted
  }

  function TrySites(r: Run, site: nat, used: nat, t: Trace): (Trace, Flow)
    requires site <= |r.sites|
    decreases |r.sites| - site
  {
    if site == |r.sites| || used >= Budget(r) then (t, GiveUp)
    else if r.sites[site] == 0 then TrySites(r, site + 1, used, t)
    else match r.permit(site)
      case PermitError => (t.(lastStatus := 500), GiveUp)
      case Denied => TrySites(r, site + 1, used, t)
      case Granted =>
        var (t', flow) := TryKeys(r, site, 0, 0, t.(permits := t.permits + [site]));
        if flow == NextSite then TrySites(r, site + 1, used + 1, t') else (t', flow)
  }

  const START := Trace([], [], [], 503, false)

  /** The whole request: its trace, and the one finish it asks for. */
  function Serve(r: Run): (Trace, Flow) {
    TrySites(r, 0, 0, START)
  }

  function FinishOf(t: Trace, flow: Flow): Finish {
    if flow.Stop? then flow.finish else Finish(false, false, NO_TOKENS, t.lastStatus)
  }

  /** What the client receives once the finish has been settled or has failed. */
  datatype Response = Streamed | UpstreamAnswer(status: int) | LastBody(status: int) | GatewayError(status: int)

  function ResponseOf(t: Trace, flow: Flow, settled: bool): Response {
    if flow.Stop? && flow.streamed then Streamed
    else if !settled then GatewayError(500)
    else if flow.Stop? then UpstreamAnswer(flow.finish.httpStatus)
    else if t.lastBody then LastBody(t.lastStatus)
    else GatewayError(t.lastStatus)
  }

  // ----- the loop as the gateway runs it

  /** The outer loop, over the sites. */
  method ServeRequest(r: Run) returns (trace: Trace, flow: Flow)
    ensures (trace, flow) == Serve(r)
    ensures flow != NextKey && flow != NextSite
  {
    trace, flow := START, GiveUp;
    var used, site := 0, 0;
    var budget := if r.maxAttempts > 0 then r.maxAttempts else 3;
    if budget > |r.sites| {
      budget := |r.sites|;
    }
    assert budget == Budget(r);
    while site < |r.sites|
      invariant site <= |r.sites|
      invariant Serve(r) == TrySites(r, site, used, trace)
    {
      if used >= budget {
        break;
      }
      if r.sites[site] == 0 {
        site := site + 1;
        continue;
      }
      var permit := r.permit(site);
      if permit == PermitError {
        trace := trace.(lastStatus := 500);
        return trace, GiveUp;
      }
      if permit == Denied {
        site := site + 1;
        continue;
      }
      used := used + 1;
      var next;
      trace, next := TrySite(r, site, trace.(permits := trace.permits + [site]));
      if next.Stop? || next == GiveUp {
        return trace, next;
      }
      site := site + 1;
    }
    return trace, GiveUp;
  }

  /** The inner loop, over the keys of a site whose permit was granted. */
  method TrySite(r: Run, site: nat, entered: Trace) returns (trace: Trace, next: Flow)
    requires site < |r.sites|
    ensures (trace, next) == TryKeys(r, site, 0, 0, entered)
    ensures next != NextKey
  {
    trace := entered;
    var buildFailures, credential := 0, 0;
    while credential < r.sites[site]
      invariant credential <= r.sites[site]
      invariant TryKeys(r, site, 0, 0, entered) == TryKeys(r, site, credential, buildFailures, trace)
    {
      if r.expired(site, credential) {
        return trace, GiveUp;
      }
      var o := r.outcome(site, credential);
      trace := Record(trace, site, credential, o);
      if o.BuildFailed? {
        buildFailures := buildFailures + 1;
      }
      next := FlowOf(o);
      if next != NextKey {
        return;
      }
      credential := credential + 1;
    }
    if buildFailures == r.sites[site] && buildFailures > 0 {
      trace := trace.(events := trace.events + [SiteEvent(site, false)]);
    }
    return trace, NextSite;
  }
}

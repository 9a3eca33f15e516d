/** Claims about whole histories of one circuit. */
module BreakerTheorems {
  import opened Wrappers
  import opened Breaker
  import opened PermitSafety

  // ----- the history theorem: which failures open the circuit

  /** An event and the policy in force when it was recorded. */
  datatype Report = Report(policy: Policy, event: Event)

  /** A penalising failure as the window logic sees it. */
  datatype Hit = Hit(at: int, retry: bool, cooldown: int, policy: Policy)

  predicate Penalizing(e: Event) {
    e.Failure? && e.decision.penalize && !e.decision.unsupported
  }

  /** The row after reports alone, without any permit request. */
  function Fold(reports: seq<Report>): Health {
    if reports == [] then FRESH
    else
      var h, last := Fold(reports[..|reports| - 1]), reports[|reports| - 1];
      var next := Reduce(h, last.policy, last.event);
      if next.Some? then next.value.0 else h
  }

  function HitOf(r: Report): Hit
    requires Penalizing(r.event)
  {
    Hit(r.event.at, RetryAfter(r.event) > 0, CooldownOf(Sane(r.policy), RetryAfter(r.event)), Sane(r.policy))
  }

  /** The policy as it is applied: at least two failures trip, and a window or cooldown that is not positive is five
      minutes. */
  function Sane(p: Policy): Policy {
    Policy(if p.threshold > 2 then p.threshold else 2, if p.windowSeconds > 0 then p.windowSeconds else 300,
           if p.cooldownSeconds > 0 then p.cooldownSeconds else 300)
  }

  lemma NormalizeIs(p: Policy)
    ensures Normalize(p) == Sane(p)
  {
  }

  /** The longer of the configured cooldown and the Retry-After, in milliseconds. */
  function CooldownOf(p: Policy, retryAfter: int): int {
    if retryAfter / 1_000_000 > p.cooldownSeconds * 1000 then retryAfter / 1_000_000 else p.cooldownSeconds * 1000
  }

  lemma CooldownIs(p: Policy, retryAfter: int)
    requires p.cooldownSeconds > 0
    ensures CooldownMs(p, retryAfter) == CooldownOf(p, retryAfter)
  {
  }

  /** The penalising failures since the last success. */
  function Streak(reports: seq<Report>): seq<Hit> {
    if reports == [] then []
    else
      var rest, last := Streak(reports[..|reports| - 1]), reports[|reports| - 1];
      if last.event.Success? then []
      else if Penalizing(last.event) then rest + [HitOf(last)]
      else rest
  }

  /** Hit i follows the one before it within the window of its own policy. */
  predicate Follows(hits: seq<Hit>, i: int)
    requires 0 < i < |hits|
  {
    0 <= hits[i].at - hits[i - 1].at <= hits[i].policy.windowSeconds * 1000
  }

  /** The last k hits follow one another within the window. */
  predicate Chain(hits: seq<Hit>, k: int)
    requires k <= |hits|
  {
    forall i :: |hits| - k < i < |hits| ==> Follows(hits, i)
  }

  /** Some hit carried a Retry-After, or closed a run of `threshold` hits with every gap inside the window. */
  ghost predicate Trips(hits: seq<Hit>) {
    exists n :: 0 < n <= |hits| && TripsAt(hits[..n])
  }

  predicate TripsAt(hits: seq<Hit>)
    requires hits != []
  {
    var last := hits[|hits| - 1];
    last.retry || (|hits| >= last.policy.threshold && Chain(hits, last.policy.threshold))
  }

  /** The failure counter of a closed circuit is the longest chain that ends the streak. */
  ghost predicate Longest(hits: seq<Hit>, k: nat) {
    && k <= |hits| && Chain(hits, k)
    && (hits != [] ==> k >= 1)
    && (k < |hits| ==> !Chain(hits, k + 1))
  }

  lemma ChainGrows(hits: seq<Hit>, k: nat, hit: Hit)
    requires Longest(hits, k)
    ensures var more := hits + [hit];
      if hits != [] && Follows(more, |hits|) then Longest(more, k + 1) else Longest(more, 1)
  {
    var more, n := hits + [hit], |hits|;
    assert forall i :: 0 < i < n ==> (Follows(more, i) <==> Follows(hits, i));
    if hits != [] && k < n {
      var i :| n - (k + 1) < i < n && !Follows(hits, i);
      assert !Follows(more, i);
    }
  }

  lemma ChainShorter(hits: seq<Hit>, k: nat, m: nat)
    requires Longest(hits, k) && m <= |hits|
    ensures Chain(hits, m) <==> m <= k
  {
    if m > k {
      var i :| |hits| - (k + 1) < i < |hits| && !Follows(hits, i);
      assert |hits| - m < i;
    }
  }

  lemma TripsGrows(hits: seq<Hit>, hit: Hit)
    ensures Trips(hits + [hit]) <==> Trips(hits) || TripsAt(hits + [hit])
  {
    var more := hits + [hit];
    assert more[..|more|] == more;
    forall n | 0 < n <= |hits| ensures more[..n] == hits[..n] {}
  }

  /** The incident id of the last failure. */
  function LastIncident(reports: seq<Report>): string {
    if reports == [] then ""
    else
      var last := reports[|reports| - 1].event;
      if last.Failure? then last.incident else LastIncident(reports[..|reports| - 1])
  }

  /** Reports that count: with a positive time, and not a repetition of the last failure's incident. */
  predicate Counts(before: seq<Report>, r: Report) {
    r.event.at > 0 && (r.event.Failure? && r.event.incident != "" ==> r.event.incident != LastIncident(before))
  }

  function Effective(reports: seq<Report>): seq<Report> {
    if reports == [] then []
    else
      var before, last := Effective(reports[..|reports| - 1]), reports[|reports| - 1];
      if Counts(before, last) then before + [last] else before
  }

  predicate Clean(reports: seq<Report>) {
    forall n :: 0 <= n < |reports| ==> Counts(reports[..n], reports[n])
  }

  lemma {:induction false} IncidentIs(reports: seq<Report>)
    requires Clean(reports)
    ensures Fold(reports).incident == LastIncident(reports)
  {
    if reports != [] {
      PrefixClean(reports);
      IncidentIs(reports[..|reports| - 1]);
    }
  }

  lemma PrefixClean(reports: seq<Report>)
    requires reports != [] && Clean(reports)
    ensures Clean(reports[..|reports| - 1]) && Counts(reports[..|reports| - 1], reports[|reports| - 1])
  {
    var before := reports[..|reports| - 1];
    forall n | 0 <= n < |before| ensures Counts(before[..n], before[n]) {
      assert before[..n] == reports[..n];
    }
  }

  /** Redelivered incidents and invalid events leave no trace in any history. */
  lemma {:induction false} RedeliveryIsHarmless(reports: seq<Report>)
    ensures Clean(Effective(reports))
    ensures Fold(reports) == Fold(Effective(reports))
  {
    if reports != [] {
      var before, last := reports[..|reports| - 1], reports[|reports| - 1];
      RedeliveryIsHarmless(before);
      IncidentIs(Effective(before));
      var after := Effective(reports);
      if Counts(Effective(before), last) {
        assert after[..|after| - 1] == Effective(before);
        forall n | 0 <= n < |after| ensures Counts(after[..n], after[n]) {
          if n < |after| - 1 { assert after[..n] == Effective(before)[..n]; }
        }
      }
    }
  }

  lemma {:induction false} LastFailure(reports: seq<Report>)
    requires Clean(reports) && Streak(reports) != []
    ensures Fold(reports).lastFailureAt == Some(Streak(reports)[|Streak(reports)| - 1].at)
  {
    var before, last := reports[..|reports| - 1], reports[|reports| - 1];
    PrefixClean(reports);
    IncidentIs(before);
    if !Penalizing(last.event) { LastFailure(before); }
  }

  /** What the history theorem says of a row: tripped exactly when the streak trips, and otherwise counting its longest
      chain. */
  ghost predicate Tells(h: Health, hits: seq<Hit>) {
    && (h.phase != Closed <==> Trips(hits))
    && (h.phase == Closed ==> h.failures >= 0 && Longest(hits, h.failures))
  }

  /** The cooldown of a tripped circuit is the latest one asked for by a hit that tripped it or found it tripped. */
  ghost predicate Cools(h: Health, hits: seq<Hit>) {
    if !Trips(hits) then h.cooldownUntil.None?
    else
      && h.cooldownUntil.Some?
      && (forall i :: 0 <= i < |hits| && TrippedBy(hits, i) ==> Until(hits[i]) <= h.cooldownUntil.value)
      && exists i :: 0 <= i < |hits| && TrippedBy(hits, i) && Until(hits[i]) == h.cooldownUntil.value
  }

  ghost predicate TrippedBy(hits: seq<Hit>, i: nat)
    requires i < |hits|
  {
    Trips(hits[..i + 1])
  }

  function Until(hit: Hit): int { hit.at + hit.cooldown }

  lemma CoolsGrows(h: Health, hits: seq<Hit>, hit: Hit, h': Health)
    requires Cools(h, hits)
    requires h'.cooldownUntil ==
      if !Trips(hits + [hit]) then None
      else Some(if h.cooldownUntil.Some? then Max(h.cooldownUntil.value, Until(hit)) else Until(hit))
    ensures Cools(h', hits + [hit])
  {
    var more, n := hits + [hit], |hits|;
    TripsGrows(hits, hit);
    TrippedGrows(hits, hit);
    if Trips(hits) {
      var i :| 0 <= i < n && TrippedBy(hits, i) && Until(hits[i]) == h.cooldownUntil.value;
      assert TrippedBy(more, i) && more[i] == hits[i];
    } else if Trips(more) {
      assert TrippedBy(more, n);
      forall i | 0 <= i < n ensures !TrippedBy(hits, i) {
        if TrippedBy(hits, i) { StillTripped(hits, i); }
      }
    }
  }

  lemma TrippedGrows(hits: seq<Hit>, hit: Hit)
    ensures var more := hits + [hit];
      && (TrippedBy(more, |hits|) <==> Trips(more))
      && forall i :: 0 <= i < |hits| ==> (TrippedBy(more, i) <==> TrippedBy(hits, i))
  {
    var more := hits + [hit];
    assert more[..|hits| + 1] == more;
    forall i | 0 <= i < |hits| ensures TrippedBy(more, i) <==> TrippedBy(hits, i) {
      assert more[..i + 1] == hits[..i + 1];
    }
  }

  lemma StillTripped(hits: seq<Hit>, i: nat)
    requires i < |hits| && TrippedBy(hits, i)
    ensures Trips(hits)
  {
    var before := hits[..i + 1];
    var n :| 0 < n <= |before| && TripsAt(before[..n]);
    assert before[..n] == hits[..n];
  }

  lemma {:induction false} CleanCooldown(reports: seq<Report>)
    requires Clean(reports)
    ensures Cools(Fold(reports), Streak(reports))
  {
    if reports != [] {
      var before, last := reports[..|reports| - 1], reports[|reports| - 1];
      PrefixClean(reports);
      IncidentIs(before);
      CleanCooldown(before);
      CleanHistory(before);
      CleanHistory(reports);
      if Penalizing(last.event) {
        CooldownIs(Normalize(last.policy), RetryAfter(last.event));
        CoolsGrows(Fold(before), Streak(before), HitOf(last), Fold(reports));
      }
    }
  }

  lemma {:induction false} CleanHistory(reports: seq<Report>)
    requires Clean(reports)
    ensures Fold(reports).phase != HalfOpen && Tells(Fold(reports), Streak(reports))
  {
    if reports != [] {
      var before, last := reports[..|reports| - 1], reports[|reports| - 1];
      PrefixClean(reports);
      IncidentIs(before);
      CleanHistory(before);
      var h, hits := Fold(before), Streak(before);
      if Penalizing(last.event) {
        TripsGrows(hits, HitOf(last));
        if hits != [] { LastFailure(before); }
        if h.phase == Closed {
          ChainGrows(hits, h.failures, HitOf(last));
          Tripping(hits, h, last);
        }
      }
    }
  }

  /** One more hit on a closed circuit opens it exactly when it trips. */
  lemma Tripping(hits: seq<Hit>, h: Health, r: Report)
    requires Penalizing(r.event) && h.phase == Closed && h.failures >= 0 && Longest(hits, h.failures)
    requires hits != [] ==> h.lastFailureAt == Some(hits[|hits| - 1].at)
    requires !Trips(hits)
    ensures Penalized(h, r.policy, r.event).phase == Open <==> TripsAt(hits + [HitOf(r)])
  {
    var more, p := hits + [HitOf(r)], Normalize(r.policy);
    NormalizeIs(r.policy);
    var k := if WithinWindow(h.lastFailureAt, r.event.at, p) then h.failures + 1 else 1;
    ChainGrows(hits, h.failures, HitOf(r));
    if hits == [] && h.failures == 0 {
      assert k == 1;
    }
    if |more| >= p.threshold {
      ChainShorter(more, k, p.threshold);
    }
  }

  // ----- what the row remembers

  /** The last report, in a clean history, that says anything about the model: a success, or an answer that it is not
      supported. */
  function LastWord(reports: seq<Report>): Option<bool> {
    if reports == [] then None
    else
      var e := reports[|reports| - 1].event;
      if e.Success? then Some(true)
      else if e.decision.unsupported then Some(false)
      else LastWord(reports[..|reports| - 1])
  }

  function LastSuccess(reports: seq<Report>): Option<int> {
    if reports == [] then None
    else if reports[|reports| - 1].event.Success? then Some(reports[|reports| - 1].event.at)
    else LastSuccess(reports[..|reports| - 1])
  }

  /** The row knows whether the model is supported, when it last worked, and what the last report complained of. */
  predicate Remembers(h: Health, reports: seq<Report>) {
    && h.capability == (match LastWord(reports)
                        case None => Unknown case Some(supported) => if supported then Supported else Unsupported)
    && h.lastSuccessAt == LastSuccess(reports)
    && (reports == [] ==> h.errorClass.None? && h.errorMessage == "")
    && (reports != [] ==>
         match reports[|reports| - 1].event
         case Success(_) => h.errorClass.None? && h.errorMessage == ""
         case Failure(_, decision, _, message, _) => h.errorClass == Some(decision.kind) && h.errorMessage == message)
  }

  lemma {:induction false} CleanMemory(reports: seq<Report>)
    requires Clean(reports)
    ensures Remembers(Fold(reports), reports)
  {
    if reports != [] {
      var before := reports[..|reports| - 1];
      PrefixClean(reports);
      IncidentIs(before);
      CleanMemory(before);
      NextMemory(Fold(before), before, reports[|reports| - 1]);
      assert before + [reports[|reports| - 1]] == reports;
    }
  }

  lemma NextMemory(h: Health, before: seq<Report>, r: Report)
    requires Remembers(h, before) && h.incident == LastIncident(before) && Counts(before, r)
    ensures Reduce(h, r.policy, r.event).Some?
    ensures Remembers(Reduce(h, r.policy, r.event).value.0, before + [r])
  {
    assert (before + [r])[..|before|] == before;
  }

  // ----- the same among permit requests

  /** The reports among the actions, each under the policy in force at its time. */
  function Reports(actions: seq<Action>): seq<Report> {
    if actions == [] then []
    else
      var rest, last := Reports(actions[..|actions| - 1]), actions[|actions| - 1];
      if last.Happen? then rest + [Report(last.policy, last.event)] else rest
  }

  /** The same row up to what a permit writes: the step from open to half open, the lease and the time of change. */
  predicate SameButPermits(h: Health, g: Health) {
    && (h.phase == Closed <==> g.phase == Closed)
    && h.failures == g.failures && h.lastFailureAt == g.lastFailureAt && h.cooldownUntil == g.cooldownUntil
    && h.capability == g.capability && h.incident == g.incident && h.lastSuccessAt == g.lastSuccessAt
    && h.errorClass == g.errorClass && h.errorMessage == g.errorMessage
  }

  /** Permits change nothing about what failures and successes do. */
  lemma {:induction false} PermitsAside(actions: seq<Action>)
    ensures SameButPermits(Play(FRESH, actions), Fold(Reports(actions)))
  {
    if actions != [] {
      var before, last := actions[..|actions| - 1], actions[|actions| - 1];
      PermitsAside(before);
      var reports := Reports(actions);
      if last.Happen? {
        assert reports[..|reports| - 1] == Reports(before);
        ReduceAlike(Play(FRESH, before), Fold(Reports(before)), last.policy, last.event);
      }
    }
  }

  lemma ReduceAlike(h: Health, g: Health, p: Policy, e: Event)
    requires SameButPermits(h, g)
    ensures Reduce(h, p, e).Some? <==> Reduce(g, p, e).Some?
    ensures Reduce(h, p, e).Some? ==> SameButPermits(Reduce(h, p, e).value.0, Reduce(g, p, e).value.0)
  {
  }

  /** The breaker history theorem. After any interleaving of permit requests and events, under policies that may change
      from one to the next, the circuit is tripped exactly when the penalising failures since the last success, without
      redeliveries, contain a Retry-After or a run of `threshold` whose gaps all fit the window; while it is closed, its
      counter is the length of the longest chain ending at the last failure; while it is tripped, its cooldown is the
      latest one asked for since; and the row remembers what the reports said. */
  lemma History(actions: seq<Action>)
    ensures Tells(Play(FRESH, actions), Streak(Effective(Reports(actions))))
    ensures Cools(Play(FRESH, actions), Streak(Effective(Reports(actions))))
    ensures Remembers(Play(FRESH, actions), Effective(Reports(actions)))
    ensures (forall i :: 0 <= i < |actions| ==> actions[i].Happen?) ==> Play(FRESH, actions).phase != HalfOpen
  {
    RedeliveryIsHarmless(Reports(actions));
    CleanHistory(Effective(Reports(actions)));
    CleanCooldown(Effective(Reports(actions)));
    CleanMemory(Effective(Reports(actions)));
    PermitsAside(actions);
    if forall i :: 0 <= i < |actions| ==> actions[i].Happen? { NoTrial(actions); }
  }

  lemma {:induction false} NoTrial(actions: seq<Action>)
    requires forall i :: 0 <= i < |actions| ==> actions[i].Happen?
    ensures Play(FRESH, actions).phase != HalfOpen
  {
    if actions != [] {
      var before := actions[..|actions| - 1];
      assert forall i :: 0 <= i < |before| ==> before[i] == actions[i];
      NoTrial(before);
      assert actions[|actions| - 1].Happen?;
    }
  }

  /** Live requests keep away from a model that is not supported, whatever the circuit: after such an answer every one
      is denied until a success is recorded. On a closed circuit that is the only reason to deny anything. */
  lemma UnsupportedIsSkipped(actions: seq<Action>, now: int, lease: int, probe: bool)
    ensures var h, word := Play(FRESH, actions), LastWord(Effective(Reports(actions)));
      && (word == Some(false) && !probe ==> !Permit(h, now, lease, probe).1)
      && (h.phase == Closed ==> (Permit(h, now, lease, probe).1 <==> probe || word != Some(false)))
  {
    History(actions);
  }
}

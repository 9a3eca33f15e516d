/** Safety of half-open leases over every interleaving of permit requests and health events. */
module PermitSafety {
  import opened Wrappers
  import opened Breaker

  /** One transaction on the row: a permit request, or an event under the policy in force at that moment. */
  datatype Action =
    | Ask(now: int, lease: int, probe: bool)
    | Happen(policy: Policy, event: Event)

  function Act(h: Health, a: Action): Health {
    match a
    case Ask(now, lease, probe) => Permit(h, now, lease, probe).0
    case Happen(policy, event) =>
      var next := Reduce(h, policy, event);
      if next.Some? then next.value.0 else h
  }

  function Play(h: Health, actions: seq<Action>): Health {
    if actions == [] then h else Act(Play(h, actions[..|actions| - 1]), actions[|actions| - 1])
  }

  /** A closed circuit has no cooldown and no lease; an open one has a cooldown and no lease; a half-open one has
      both, and its lease ends after its cooldown. */
  predicate Sound(h: Health) {
    match h.phase
    case Closed => h.cooldownUntil.None? && h.leaseUntil.None?
    case Open => h.cooldownUntil.Some? && h.leaseUntil.None?
    case HalfOpen => h.cooldownUntil.Some? && h.leaseUntil.Some? && h.cooldownUntil.value < h.leaseUntil.value
  }

  predicate IsSuccess(a: Action) { a.Happen? && a.event.Success? }

  /** The grant of a half-open lease, as opposed to the free pass of a closed circuit. */
  predicate Grants(h: Health, a: Action) {
    a.Ask? && h.phase != Closed && Permit(h, a.now, a.lease, a.probe).1
  }

  /** A success, or a penalising failure that is not a redelivery. */
  predicate Resolves(h: Health, a: Action) {
    && a.Happen? && a.event.at > 0
    && (a.event.Success? ||
        (a.event.decision.penalize && !a.event.decision.unsupported && !Redelivered(h, a.event)))
  }

  lemma ActSound(h: Health, a: Action)
    requires Sound(h)
    ensures Sound(Act(h, a))
  {
  }

  /** Whatever is written is stamped with the time of the request or event. */
  lemma WritesAreStamped(h: Health, a: Action)
    ensures Act(h, a) != h ==> Act(h, a).updatedAt == match a case Ask(now, _, _) => now case Happen(_, e) => e.at
  {
  }

  lemma {:induction false} AlwaysSound(actions: seq<Action>)
    ensures Sound(Play(FRESH, actions))
  {
    if actions != [] {
      AlwaysSound(actions[..|actions| - 1]);
      ActSound(Play(FRESH, actions[..|actions| - 1]), actions[|actions| - 1]);
    }
  }

  lemma {:induction false} PlayAppend(h: Health, a: seq<Action>, b: seq<Action>)
    ensures Play(h, a + b) == Play(Play(h, a), b)
  {
    if b == [] {
      assert a + b == a;
    } else {
      assert (a + b)[..|a + b| - 1] == a + b[..|b| - 1];
      PlayAppend(h, a, b[..|b| - 1]);
    }
  }

  lemma {:induction false} StaysTripped(h: Health, actions: seq<Action>)
    requires Sound(h) && h.phase != Closed
    requires forall i :: 0 <= i < |actions| ==> !IsSuccess(actions[i])
    ensures var h' := Play(h, actions);
      Sound(h') && h'.phase != Closed && h'.cooldownUntil.value >= h.cooldownUntil.value
  {
    if actions != [] {
      var before := actions[..|actions| - 1];
      StaysTripped(h, before);
      ActSound(Play(h, before), actions[|actions| - 1]);
    }
  }

  /** Once a failure has opened the circuit, and until a success is recorded, its cooldown never moves back and
      every permit request before that cooldown is denied, probe or not, whatever leases and failures come between
      and even if the clocks of the requests disagree. */
  lemma DeniedUntilCooldown(past: seq<Action>, since: seq<Action>, now: int, lease: int, probe: bool)
    requires Play(FRESH, past).phase == Open
    requires forall i :: 0 <= i < |since| ==> !IsSuccess(since[i])
    ensures var tripped, h := Play(FRESH, past), Play(FRESH, past + since);
      && tripped.cooldownUntil.Some? && h.cooldownUntil.Some?
      && h.phase != Closed
      && h.cooldownUntil.value >= tripped.cooldownUntil.value
      && (now < h.cooldownUntil.value ==> !Permit(h, now, lease, probe).1)
  {
    AlwaysSound(past);
    PlayAppend(FRESH, past, since);
    StaysTripped(Play(FRESH, past), since);
  }

  /** None of the actions resolves the circuit. */
  predicate Unresolved(h: Health, actions: seq<Action>) {
    forall i :: 0 <= i < |actions| ==> !Resolves(Play(h, actions[..i]), actions[i])
  }

  /** A lease only ever gives way to a later one. */
  lemma {:induction false} LeaseHolds(h: Health, actions: seq<Action>)
    requires h.phase == HalfOpen && h.leaseUntil.Some? && Unresolved(h, actions)
    ensures var h' := Play(h, actions);
      h'.phase == HalfOpen && h'.leaseUntil.Some? && h'.leaseUntil.value >= h.leaseUntil.value
  {
    if actions != [] {
      var before, last := actions[..|actions| - 1], actions[|actions| - 1];
      forall i | 0 <= i < |before| ensures before[..i] == actions[..i] {}
      LeaseHolds(h, before);
      assert !Resolves(Play(h, before), last);
    }
  }

  /** Half-open trials are exclusive: of any two lease grants, whatever other grants come between, unless a success or
      a penalising failure was recorded, the second request comes no earlier than the end of the first lease. */
  lemma LeasesAreExclusive(past: seq<Action>, first: Action, between: seq<Action>, second: Action)
    requires Grants(Play(FRESH, past), first)
    requires Unresolved(Play(FRESH, past + [first]), between)
    requires Grants(Play(FRESH, past + [first] + between), second)
    ensures second.now >= first.now + if first.lease < 1_000_000_000 then 1000 else first.lease / 1_000_000
  {
    PlayAppend(FRESH, past, [first]);
    PlayAppend(FRESH, past + [first], between);
    assert [first][..0] == [];
    LeaseHolds(Play(FRESH, past + [first]), between);
  }

  /** When the one thing that still holds a tripped circuit back ends: its cooldown, or its lease. */
  function HeldUntil(h: Health): int
    requires Sound(h) && h.phase != Closed
  {
    if h.phase == Open then h.cooldownUntil.value else h.leaseUntil.value
  }

  /** A tripped circuit is never stuck: a request of an eligible kind gets a lease exactly when the cooldown of an
      open circuit, or the lease of a half-open one, is over. */
  lemma TrippedCircuitRecovers(actions: seq<Action>, now: int, lease: int, probe: bool)
    requires Play(FRESH, actions).phase != Closed
    ensures var h := Play(FRESH, actions);
      && Sound(h)
      && (Permit(h, now, lease, probe).1 <==> (probe || h.capability != Unsupported) && HeldUntil(h) <= now)
  {
    AlwaysSound(actions);
  }
}

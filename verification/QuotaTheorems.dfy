/** What holds of every world reachable by any order of starts, finishes, recoveries, key edits and prunings. */
module QuotaTheorems {
  import opened Wrappers
  import opened QuotaLedger
  import opened QuotaRuns
  import opened QuotaProofs
  import opened QuotaRecovery

  lemma StepKeeps(w: World, s: Step)
    requires Inv(w) && Contract(w, s)
    ensures Inv(Next(w, s))
  {
    match s
    case StartStep(_, _, _, _, _) => StartKeeps(w, s);
    case FinishStep(_, _, _) => FinishKeeps(w, s);
    case RecoverStep => RecoverKeeps(w);
    case CreateStep(_, _, _, _) => CreateKeeps(w, s);
    case UpdateStep(_, _, _, _) => UpdateKeeps(w, s);
    case DeleteStep(_) => ResetKeeps(w, s);
    case ResetStep(_) => ResetKeeps(w, s);
    case PruneStep(_) => PruneKeeps(w, s);
  }

  lemma {:induction false} Reachable(steps: seq<Step>)
    requires Legal(steps)
    ensures Inv(After(steps))
  {
    if steps != [] {
      Reachable(steps[..|steps| - 1]);
      StepKeeps(After(steps[..|steps| - 1]), steps[|steps| - 1]);
    }
  }

  /** Quota safety: after any run, no key is overdrawn and its reserved amount is what its running requests hold. */
  lemma QuotaSafety(steps: seq<Step>, key: KeyId)
    requires Legal(steps) && key in After(steps).db.keys
    ensures var w := After(steps);
      var k := w.db.keys[key];
      && 0 <= k.used <= MAX_INT64 && 0 <= k.reserved
      && k.reserved == ReservedSum(w.db.requests, w.accounts, key)
      && (k.quota.Some? ==> k.used + k.reserved <= k.quota.value)
  {
    Reachable(steps);
  }

  /** A finish on a finite key never reports an invalid quota state, commits exactly while the request is running,
      and applies at least the smaller of the charge and the request's own reservation, never more than the charge. */
  lemma FiniteFinishCommits(steps: seq<Step>, id: RequestId, charge: int, success: bool)
    requires Legal(steps) && id in After(steps).accounts && 0 <= charge <= MAX_INT64
    requires var w := After(steps);
      var key := w.accounts[id].key;
      key in w.db.keys && w.db.keys[key].quota.Some?
    ensures var w := After(steps);
      var a := w.accounts[id];
      var (db', outcome) := Finish(w.db, id, a.key, a.reserved, charge, success);
      && outcome == (if IsRunning(w, id) then Done
                     else if w.db.keys[a.key].reserved < a.reserved then InvalidQuotaState else AlreadyFinished)
      && (outcome == Done ==>
        && Min(charge, a.reserved) <= db'.keys[a.key].used - w.db.keys[a.key].used <= charge
        && db'.keys[a.key].reserved == w.db.keys[a.key].reserved - a.reserved
        && db'.keys[a.key].used + db'.keys[a.key].reserved <= w.db.keys[a.key].quota.value)
  {
    Reachable(steps);
    var w := After(steps);
    FinishOutcome(w, id, charge, success);
    RunningRow(w, id);
    assert KeyOk(w.db.keys[w.accounts[id].key]);
  }

  /** Ledger conservation: the live rows of a request that is over add up to the amount it was charged, and those of a
      reservation balance (`reserve` is `settle` plus `release`); a key's usage is its live charges plus those pruned
      since its last reset. */
  lemma LedgerConservation(steps: seq<Step>, id: RequestId, key: KeyId)
    requires Legal(steps)
    ensures var w := After(steps);
      id in w.accounts && !IsRunning(w, id) && Of(w.db.ledger, id) != [] ==>
        && id in w.charged && Charged(Of(w.db.ledger, id), w.accounts[id].key) == w.charged[id]
        && (w.accounts[id].reserved > 0 ==> Outstanding(Of(w.db.ledger, id), w.accounts[id].key) == 0)
    ensures var w := After(steps);
      key in w.db.keys ==>
        key in w.pruned && w.db.keys[key].used == Charged(w.db.ledger, key) + w.pruned[key]
  {
    Reachable(steps);
    var w := After(steps);
    if id in w.accounts && !IsRunning(w, id) {
      ClosedCharges(id, w.accounts[id], w.charged[id]);
      if w.accounts[id].reserved > 0 { ClosedBalances(id, w.accounts[id], w.charged[id]); }
    }
  }

  /** The recovery query sees the whole reservation of a running request; recovery returns it to its key and
      leaves every usage as it was. */
  lemma RecoveryReleasesEverything(steps: seq<Step>, id: RequestId, key: KeyId)
    requires Legal(steps)
    ensures var w := After(steps);
      IsRunning(w, id) ==>
        id in w.accounts && Outstanding(Of(w.db.ledger, id), w.accounts[id].key) == w.accounts[id].reserved
    ensures var w := After(steps);
      var w' := Next(w, RecoverStep);
      && Recover(w.db).1 == Done
      && !IsRunning(w', id)
      && (key in w.db.keys ==> key in w'.db.keys && w'.db.keys[key] == w.db.keys[key].(reserved := 0))
  {
    Reachable(steps);
    var w := After(steps);
    RecoverClears(w);
    if IsRunning(w, id) {
      var i :| 0 <= i < |w.db.requests| && w.db.requests[i].id == id && w.db.requests[i].status == Running;
      assert RequestOk(w, w.db.requests[i]);
      if w.accounts[id].reserved > 0 { OutstandingOne(Reservation(id, w.accounts[id])[0]); }
    }
  }

  // ----- late finishes and deleted keys

  /** The key of a known request is a positive id. */
  lemma {:induction false} KeysArePositive(steps: seq<Step>, id: RequestId)
    requires Legal(steps) && id in After(steps).accounts
    ensures After(steps).accounts[id].key > 0
  {
    var before, s := steps[..|steps| - 1], steps[|steps| - 1];
    Reachable(before);
    if id in After(before).accounts { KeysArePositive(before, id); }
    KeyIsPositive(After(before), s, id);
  }

  lemma KeyIsPositive(w: World, s: Step, id: RequestId)
    requires KeysOk(w) && Contract(w, s) && id in Next(w, s).accounts
    requires id in w.accounts ==> w.accounts[id].key > 0
    ensures Next(w, s).accounts[id].key > 0
  {
    if s.StartStep? && Outcomes(w, s).1 == Done { assert s.key in w.db.keys; }
  }

  /** What a finish reports for a request that is no longer running, in every reachable state: nothing changes, but
      while the key holds less in reserve than the request once reserved the report is an invalid quota state. */
  lemma LateFinishReports(steps: seq<Step>, id: RequestId, charge: int, success: bool)
    requires Legal(steps) && id in After(steps).accounts && 0 <= charge <= MAX_INT64
    requires !IsRunning(After(steps), id)
    ensures var w := After(steps);
      var a := w.accounts[id];
      Finish(w.db, id, a.key, a.reserved, charge, success) ==
        (w.db, if a.key !in w.db.keys then NotFound
               else if w.db.keys[a.key].reserved < a.reserved then InvalidQuotaState
               else AlreadyFinished)
  {
    Reachable(steps);
    KeysArePositive(steps, id);
    var w := After(steps);
    RunningRow(w, id);
    if w.accounts[id].key in w.db.keys { assert KeyOk(w.db.keys[w.accounts[id].key]); }
  }

  /** One more step at the end of a run. */
  lemma OneMore(steps: seq<Step>, s: Step)
    requires Legal(steps) && Contract(After(steps), s)
    ensures Legal(steps + [s]) && After(steps + [s]) == Next(After(steps), s)
  {
    assert (steps + [s])[..|steps|] == steps;
  }

  /** A new key and one request started on it. */
  function Started(quota: Option<int>, amount: int): seq<Step> {
    [CreateStep(1, true, quota, None), StartStep("r", 1, amount, quota.Some?, 0)]
  }

  function Holding(quota: Option<int>, amount: int): World {
    World(Db(map[1 := Key(true, quota, 0, amount, None)], [Request("r", Some(1), Running, 0)],
             Reservation("r", Account(1, amount))),
          map["r" := Account(1, amount)], map["r" := 0], map[1 := 0])
  }

  lemma StartedHolds(quota: Option<int>, amount: int)
    requires quota.Some? ==> 0 < amount <= quota.value <= MAX_INT64
    requires quota.None? ==> amount == 0
    ensures Legal(Started(quota, amount)) && After(Started(quota, amount)) == Holding(quota, amount)
  {
    var create, start := CreateStep(1, true, quota, None), StartStep("r", 1, amount, quota.Some?, 0);
    OneMore([], create);
    assert [] + [create] == [create];
    assert After([create]) == OneKey(quota);
    StartOnOneKey(quota, amount);
    OneMore([create], start);
    assert [create] + [start] == Started(quota, amount);
  }

  function OneKey(quota: Option<int>): World {
    World(Db(map[1 := Key(true, quota, 0, 0, None)], [], []), map[], map[], map[1 := 0])
  }

  lemma StartOnOneKey(quota: Option<int>, amount: int)
    requires quota.Some? ==> 0 < amount <= quota.value <= MAX_INT64
    requires quota.None? ==> amount == 0
    ensures var start := StartStep("r", 1, amount, quota.Some?, 0);
      Contract(OneKey(quota), start) && Next(OneKey(quota), start) == Holding(quota, amount)
  {
    StartEffect(OneKey(quota).db, "r", 1, amount, quota.Some?, 0);
  }

  /** The report of an invalid quota state is reachable: settle a request, then finish it again. */
  lemma LateFinishIsReachable()
    ensures var steps := Started(Some(10), 5) + [FinishStep("r", 5, true)];
      && Legal(steps) && "r" in After(steps).accounts && !IsRunning(After(steps), "r")
      && Finish(After(steps).db, "r", 1, 5, 5, true) == (After(steps).db, InvalidQuotaState)
  {
    StartedHolds(Some(10), 5);
    var w, finish := Holding(Some(10), 5), FinishStep("r", 5, true);
    OneMore(Started(Some(10), 5), finish);
    assert Finish(w.db, "r", 1, 5, 5, true).1 == Done;
    assert Next(w, finish).db.keys[1] == Key(true, Some(10), 5, 0, None);
    assert Next(w, finish).db.requests == [Request("r", Some(1), Succeeded, 0)];
  }

  /** The request runs although its key is gone. */
  ghost predicate Stranded(w: World, id: RequestId) {
    IsRunning(w, id) && id in w.accounts && w.accounts[id].key !in w.db.keys
  }

  /** A finish of a request whose key is gone changes nothing. */
  lemma StrandedFinishIsNothing(w: World, id: RequestId, charge: int, success: bool)
    requires id in w.accounts && w.accounts[id].key !in w.db.keys && 0 <= charge <= MAX_INT64
    ensures Contract(w, FinishStep(id, charge, success)) && Next(w, FinishStep(id, charge, success)) == w
  {
  }

  /** No step but recovery ends a stranded request. */
  lemma StrandedStep(w: World, s: Step, id: RequestId)
    requires Inv(w) && Contract(w, s) && Stranded(w, id) && !s.RecoverStep?
    ensures Stranded(Next(w, s), id)
  {
    KeyStaysGone(w, s, id);
    StrandedStillRuns(w, s, id);
  }

  lemma KeyStaysGone(w: World, s: Step, id: RequestId)
    requires Contract(w, s) && !s.RecoverStep? && id in w.accounts && w.accounts[id].key !in w.db.keys
    ensures id in Next(w, s).accounts && Next(w, s).accounts[id] == w.accounts[id]
    ensures w.accounts[id].key !in Next(w, s).db.keys
  {
  }

  lemma StrandedStillRuns(w: World, s: Step, id: RequestId)
    requires RequestsOk(w) && Contract(w, s) && Stranded(w, id) && !s.RecoverStep?
    ensures IsRunning(Next(w, s), id)
  {
    var w' := Next(w, s);
    if s.PruneStep? {
      UnexpiredRows(w.db.requests, s.cutoff);
      PruneKeepsRunning(w, w', id);
    } else {
      if s.FinishStep? && s.id == id { StrandedFinishIsNothing(w, id, s.charge, s.success); }
      StillRunning(w, w', id);
    }
  }

  /** A stranded request stays so, through any run, until the first recovery. */
  lemma {:induction false} StrandedUntilRecovery(steps: seq<Step>, n: nat, id: RequestId)
    requires Legal(steps) && n <= |steps| && Legal(steps[..n]) && Stranded(After(steps[..n]), id)
    requires forall i :: n <= i < |steps| ==> !steps[i].RecoverStep?
    ensures Stranded(After(steps), id) && !IsRunning(Next(After(steps), RecoverStep), id)
  {
    Reachable(steps);
    if n == |steps| {
      assert steps[..n] == steps;
    } else {
      var before := steps[..|steps| - 1];
      assert before[..n] == steps[..n];
      Reachable(before);
      StrandedUntilRecovery(before, n, id);
      StrandedStep(After(before), steps[|steps| - 1], id);
    }
    RecoverClears(After(steps));
  }

  /** Stranding is reachable: an unlimited key is deleted while it has a request running. */
  lemma StrandingIsReachable()
    ensures var steps := Started(None, 0) + [DeleteStep(1)];
      Legal(steps) && Stranded(After(steps), "r")
  {
    StartedHolds(None, 0);
    var w := Holding(None, 0);
    OneMore(Started(None, 0), DeleteStep(1));
    assert Next(w, DeleteStep(1)).db.requests[0] == Request("r", None, Running, 0);
  }

  // ----- exactly once

  /** Each row of `after` is a row of `before` that was not running less than it is now, or a new row of `started`. */
  ghost predicate Narrows(before: seq<Request>, after: seq<Request>, started: Option<RequestId>) {
    forall i :: 0 <= i < |after| && after[i].status == Running ==>
      started == Some(after[i].id) ||
      exists j :: 0 <= j < |before| && before[j].id == after[i].id && before[j].status == Running
  }

  lemma StartNarrows(db: Db, id: RequestId, key: KeyId, amount: int, finite: bool, at: int)
    ensures Narrows(db.requests, Start(db, id, key, amount, finite, at).0.requests, Some(id))
  {
    var after := Start(db, id, key, amount, finite, at).0.requests;
    assert after == db.requests || after == db.requests + [Request(id, Some(key), Running, at)];
  }

  lemma FinishNarrows(db: Db, id: RequestId, key: KeyId, reserved: int, charge: int, success: bool)
    ensures Narrows(db.requests, Finish(db, id, key, reserved, charge, success).0.requests, None)
  {
    var before, after := db.requests, Finish(db, id, key, reserved, charge, success).0.requests;
    assert |after| == |before|;
    assert forall i :: 0 <= i < |after| && after[i].status == Running ==> before[i] == after[i];
  }

  lemma PruneNarrows(db: Db, cutoff: int)
    requires forall i, j :: 0 <= i < j < |db.requests| ==> db.requests[i].id != db.requests[j].id
    ensures Narrows(db.requests, Unexpired(db.requests, cutoff), None)
  {
    var before, after := db.requests, Unexpired(db.requests, cutoff);
    UnexpiredRows(before, cutoff);
    forall i | 0 <= i < |after| && after[i].status == Running
      ensures exists j :: 0 <= j < |before| && before[j].id == after[i].id && before[j].status == Running
    {
      assert after[i] in after;
      var j :| 0 <= j < |before| && before[j] == after[i];
    }
  }

  lemma StepNarrows(w: World, s: Step)
    requires Inv(w) && Contract(w, s)
    ensures Narrows(w.db.requests, Next(w, s).db.requests, if s.StartStep? then Some(s.id) else None)
  {
    match s
    case StartStep(id, key, amount, finite, at) => StartNarrows(w.db, id, key, amount, finite, at);
    case FinishStep(id, charge, success) =>
      FinishNarrows(w.db, id, w.accounts[id].key, w.accounts[id].reserved, charge, success);
    case PruneStep(cutoff) => PruneNarrows(w.db, cutoff);
    case RecoverStep => RecoverClears(w);
    case _ =>
  }

  /** Only its own start makes a request running. */
  lemma RunningBefore(w: World, s: Step, id: RequestId)
    requires Inv(w) && Contract(w, s) && IsRunning(Next(w, s), id)
    ensures IsRunning(w, id) || (s.StartStep? && s.id == id && id !in w.accounts)
  {
    StepNarrows(w, s);
  }

  /** How many steps of a run take the request out of `running`. */
  ghost function Departures(steps: seq<Step>, id: RequestId): nat
    requires Legal(steps)
  {
    if steps == [] then 0
    else
      var before := steps[..|steps| - 1];
      Departures(before, id) +
      if IsRunning(After(before), id) && !IsRunning(After(steps), id) then 1 else 0
  }

  /** How many finishes of the request commit. */
  function Settlements(steps: seq<Step>, id: RequestId): nat
    requires Legal(steps)
  {
    if steps == [] then 0
    else
      var before, s := steps[..|steps| - 1], steps[|steps| - 1];
      Settlements(before, id) +
      if s.FinishStep? && s.id == id && Outcomes(After(before), s).1 == Done then 1 else 0
  }

  /** Exactly-once settlement: whatever the order of first finishes, deferred retries and recoveries, a request
      leaves `running` at most once and its charge is applied at most once. */
  lemma {:induction false} ExactlyOnce(steps: seq<Step>, id: RequestId)
    requires Legal(steps)
    ensures Settlements(steps, id) <= Departures(steps, id) <= 1
    ensures IsRunning(After(steps), id) ==> Departures(steps, id) == 0
    ensures id !in After(steps).accounts ==> Departures(steps, id) == 0 && !IsRunning(After(steps), id)
  {
    Reachable(steps);
    var w' := After(steps);
    if IsRunning(w', id) {
      var i :| 0 <= i < |w'.db.requests| && w'.db.requests[i].id == id && w'.db.requests[i].status == Running;
      assert RequestOk(w', w'.db.requests[i]);
    }
    if steps != [] {
      var before, s := steps[..|steps| - 1], steps[|steps| - 1];
      var w := After(before);
      Reachable(before);
      ExactlyOnce(before, id);
      if IsRunning(w', id) { RunningBefore(w, s, id); }
      if s.FinishStep? && s.id == id && Outcomes(w, s).1 == Done {
        FinishOutcome(w, id, s.charge, s.success);
        FinishEnds(w, s);
      }
    }
  }

  lemma FinishEnds(w: World, s: Step)
    requires Inv(w) && Contract(w, s) && s.FinishStep? && Outcomes(w, s).1 == Done
    ensures !IsRunning(Next(w, s), s.id)
  {
    var i := IndexOf(w.db.requests, s.id);
    assert forall j :: 0 <= j < |w.db.requests| && j != i ==> w.db.requests[j].id != s.id;
  }

  /** A finish that reached its commit makes every later finish of that request change nothing, even when the
      first one reported an error. */
  lemma RetryIsHarmless(w: World, first: Step, again: Step)
    requires Inv(w) && first.FinishStep? && again.FinishStep? && first.id == again.id
    requires Contract(w, first) && Outcomes(w, first).1 == Done
    requires 0 <= again.charge <= MAX_INT64
    ensures Contract(Next(w, first), again) && Next(Next(w, first), again) == Next(w, first)
  {
    StepKeeps(w, first);
    FinishEnds(w, first);
    FinishOutcome(Next(w, first), again.id, again.charge, again.success);
  }

  /** From `db` to `db'` a key gets a whole reservation back, and nothing is charged. */
  ghost predicate GivenBack(db: Db, db': Db, id: RequestId, a: Account) {
    && a.key in db.keys
    && db'.keys == db.keys[a.key := db.keys[a.key].(reserved := db.keys[a.key].reserved - a.reserved)]
    && db'.ledger == db.ledger + ReleaseOf(id, a)
  }

  /** A finish that charges nothing gives the whole reservation back and leaves the usage alone. */
  lemma UnchargedFinishReleases(w: World, id: RequestId, success: bool)
    requires Inv(w) && id in w.accounts
    requires Finish(w.db, id, w.accounts[id].key, w.accounts[id].reserved, 0, success).1 == Done
    ensures var a := w.accounts[id];
      GivenBack(w.db, Finish(w.db, id, a.key, a.reserved, 0, success).0, id, a)
  {
    NothingApplied(w, id, success);
    ZeroSettlement(w.db, id, w.accounts[id], success);
  }

  lemma NothingApplied(w: World, id: RequestId, success: bool)
    requires Inv(w) && id in w.accounts
    requires Finish(w.db, id, w.accounts[id].key, w.accounts[id].reserved, 0, success).1 == Done
    ensures var a := w.accounts[id];
      a.key in w.db.keys && a.reserved >= 0 && Applied(w.db.keys[a.key], a.reserved, 0) == 0
  {
    FinishOutcome(w, id, 0, success);
  }

  lemma ZeroSettlement(db: Db, id: RequestId, a: Account, success: bool)
    requires a.key in db.keys && a.reserved >= 0 && Applied(db.keys[a.key], a.reserved, 0) == 0
    requires Finish(db, id, a.key, a.reserved, 0, success).1 == Done
    ensures GivenBack(db, Finish(db, id, a.key, a.reserved, 0, success).0, id, a)
  {
    assert Settlement(a.key, id, a.reserved, 0) == ReleaseOf(id, a);
  }

  /** Only a committed finish of one of its requests or a reset changes a key's usage. */
  lemma UsageChanges(w: World, s: Step, key: KeyId)
    requires Inv(w) && Contract(w, s) && key in w.db.keys && key in Next(w, s).db.keys
    requires Next(w, s).db.keys[key].used != w.db.keys[key].used
    ensures (s == ResetStep(key) && Next(w, s).db.keys[key].used == 0) ||
      (s.FinishStep? && w.accounts[s.id].key == key && Outcomes(w, s).1 == Done &&
       Next(w, s).db.keys[key].used == w.db.keys[key].used + AppliedBy(w, s.id, s.charge))
  {
    match s
    case StartStep(_, _, _, _, _) => StartKeepsUsage(w, s, key);
    case RecoverStep => RecoverClears(w);
    case FinishStep(_, _, _) => FinishUses(w, s, key);
    case _ =>
  }

  lemma StartKeepsUsage(w: World, s: Step, key: KeyId)
    requires s.StartStep? && Contract(w, s) && key in w.db.keys && key in Next(w, s).db.keys
    ensures Next(w, s).db.keys[key].used == w.db.keys[key].used
  {
  }

  /** A finish either commits, and uses what it applies, or leaves every key alone. */
  lemma FinishUses(w: World, s: Step, key: KeyId)
    requires s.FinishStep? && Contract(w, s) && key in w.db.keys && key in Next(w, s).db.keys
    ensures Next(w, s).db.keys[key].used == w.db.keys[key].used +
      if w.accounts[s.id].key == key && Outcomes(w, s).1 == Done then AppliedBy(w, s.id, s.charge) else 0
  {
  }
}

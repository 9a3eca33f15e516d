/**
The whole life of one request: what it reserves, how the failover loop ends, what it is billed, and the finishes that
settle it (the loop's own `finalize`, the deferred retry with the same pending parameters, and crash recovery), in any
order and among the steps of any other requests.
*/
module Lifecycle {
  import opened Wrappers
  import opened QuotaLedger
  import opened QuotaRuns
  import opened QuotaTheorems
  import QuotaProofs
  import QuotaRecovery
  import Accounting
  import Pricing
  import Failover
  import FailoverTheorems

  // ----- finalize and its deferred retry

  /** A finish fails before its commit (nothing is stored), after it (stored, but an error is reported), or not. */
  datatype Fault = Healthy | BeforeCommit | AfterCommit

  function FinishOnce(w: World, s: Step, fault: Fault): (World, bool)
    requires s.FinishStep? && Contract(w, s)
  {
    if fault == BeforeCommit then (w, false)
    else (Next(w, s), fault == Healthy && Outcomes(w, s).1 == Done)
  }

  /** `finalize`, then the deferred finish with the pending parameters unless it reported success. Unless both fail
      before their commit the two amount to exactly one finish, and a success report means it really settled. */
  method FinalizeThenDefer(w: World, s: Step, first: Fault, second: Fault) returns (w': World, settled: bool)
    requires Inv(w) && s.FinishStep? && Contract(w, s)
    ensures w' == if first == BeforeCommit && second == BeforeCommit then w else Next(w, s)
    ensures settled ==> Outcomes(w, s).1 == Done && !IsRunning(w', s.id)
    ensures settled <==> first == Healthy && Outcomes(w, s).1 == Done
  {
    var pending := s;
    var finalized;
    var result := FinishOnce(w, pending, first);
    w', finalized := result.0, result.1;
    settled := finalized;
    if finalized {
      FinishEnds(w, s);
    } else {
      FinishTwice(w, s);
      result := FinishOnce(w', pending, second);
      w' := result.0;
    }
  }

  lemma FinishTwice(w: World, s: Step)
    requires Inv(w) && s.FinishStep? && Contract(w, s)
    ensures Contract(Next(w, s), s) && Next(Next(w, s), s) == Next(w, s)
  {
    if Outcomes(w, s).1 == Done { RetryIsHarmless(w, s, s); }
  }

  // ----- whole runs

  /** Every finish of the request carries the parameters of its one `finalize` call: the deferred retry repeats them. */
  predicate Pending(steps: seq<Step>, id: RequestId, charge: int, success: bool) {
    forall i :: 0 <= i < |steps| && steps[i].FinishStep? && steps[i].id == id ==>
      steps[i].charge == charge && steps[i].success == success
  }

  /** In any run, a request whose finishes all ask for the same charge is charged at most once: nothing until one of
      them commits, and then at most what was asked for and at least the part its reservation covers. */
  lemma {:induction false} ChargedAtMostOnce(steps: seq<Step>, id: RequestId, charge: int, success: bool)
    requires Legal(steps) && Pending(steps, id, charge, success) && id in After(steps).accounts
    ensures var w := After(steps);
      && id in w.charged && Settlements(steps, id) <= 1
      && (Settlements(steps, id) == 0 ==> w.charged[id] == 0)
      && (Settlements(steps, id) == 1 ==>
           !IsRunning(w, id) && Min(charge, w.accounts[id].reserved) <= w.charged[id] <= charge)
  {
    ExactlyOnce(steps, id);
    Reachable(steps);
    var before, s := steps[..|steps| - 1], steps[|steps| - 1];
    Reachable(before);
    ExactlyOnce(before, id);
    var w := After(before);
    assert Pending(before, id, charge, success);
    if id in w.accounts {
      ChargedAtMostOnce(before, id, charge, success);
      if s.FinishStep? && s.id == id && Outcomes(w, s).1 == Done {
        QuotaProofs.FinishOutcome(w, id, charge, success);
        FinishEnds(w, s);
      } else {
        Untouched(w, s, id);
      }
    }
  }

  /** No other step changes what a request was charged. */
  lemma Untouched(w: World, s: Step, id: RequestId)
    requires Inv(w) && Contract(w, s) && id in w.accounts
    requires !(s.FinishStep? && s.id == id && Outcomes(w, s).1 == Done)
    ensures var w' := Next(w, s);
      && id in w'.accounts && w'.accounts[id] == w.accounts[id]
      && id in w'.charged && w'.charged[id] == w.charged[id]
      && (!IsRunning(w, id) ==> !IsRunning(w', id))
  {
    if IsRunning(Next(w, s), id) { RunningBefore(w, s, id); }
  }

  lemma {:induction false} PrefixLegal(steps: seq<Step>, n: nat)
    requires Legal(steps) && n <= |steps|
    ensures Legal(steps[..n])
  {
    if n == |steps| {
      assert steps[..n] == steps;
    } else {
      assert steps[..n] == steps[..|steps| - 1][..n];
      PrefixLegal(steps[..|steps| - 1], n);
    }
  }

  /** Once a known request is no longer running it stays so, its charge is final, and every further finish of it,
      however late, is a step that changes nothing. */
  lemma {:induction false} SettledForGood(steps: seq<Step>, n: nat, id: RequestId)
    requires Legal(steps) && n <= |steps| && Legal(steps[..n])
    requires id in After(steps[..n]).accounts && !IsRunning(After(steps[..n]), id)
    ensures var w, w' := After(steps[..n]), After(steps);
      && id in w'.accounts && w'.accounts[id] == w.accounts[id]
      && !IsRunning(w', id) && id in w.charged && id in w'.charged && w'.charged[id] == w.charged[id]
    ensures forall charge, success :: 0 <= charge <= MAX_INT64 ==>
      var late := FinishStep(id, charge, success);
      Contract(After(steps), late) && Next(After(steps), late) == After(steps)
  {
    Reachable(steps);
    Reachable(steps[..n]);
    if n == |steps| {
      assert steps[..n] == steps;
    } else {
      var before := steps[..|steps| - 1];
      assert before[..n] == steps[..n];
      SettledForGood(before, n, id);
      Reachable(before);
      var w, s := After(before), steps[|steps| - 1];
      if s.FinishStep? && s.id == id { QuotaProofs.FinishOutcome(w, id, s.charge, s.success); }
      Untouched(w, s, id);
    }
    forall charge, success | 0 <= charge <= MAX_INT64
      ensures var late := FinishStep(id, charge, success);
        Contract(After(steps), late) && Next(After(steps), late) == After(steps)
    {
      QuotaProofs.FinishOutcome(After(steps), id, charge, success);
    }
  }

  // ----- one request through the gateway

  /** What the gateway asks the ledger to charge when the failover loop has ended. */
  function BillFor(r: Failover.Run, a: Accounting.Account): Result<Accounting.Bill, Pricing.PricingError> {
    var (t, flow) := Failover.Serve(r);
    var f := Failover.FinishOf(t, flow);
    Accounting.Charge(a, f.charge, f.tokens)
  }

  /** The quote of the usage an attempt reported, or of the reserved maximum when that usage cannot be quoted. */
  function UsageBill(s: Pricing.Snapshot, a: Accounting.Account, o: Failover.Outcome): Accounting.Bill
    requires o.StreamDone? || o.StreamCancelled? || o.StreamFailed? || o.Answered?
  {
    if Accounting.Complete(o.usage) && Pricing.QuoteUsage(s, Accounting.Billable(o.usage)).Ok?
    then Accounting.Bill(Pricing.QuoteUsage(s, Accounting.Billable(o.usage)).value.total, false)
    else Accounting.Bill(Accounting.QuotedMaximum(a), true)
  }

  /** Whatever the upstreams did, the bill is a 64-bit amount, zero unless output was delivered, and a delivered answer
      on a metered key is billed at the quote of its reported usage or else of the reserved maximum. */
  lemma BillIsTotal(r: Failover.Run, finite: bool, l: Accounting.Limits, price: Option<Pricing.Snapshot>)
    requires Accounting.Prepare(finite, l, price).Ok?
    requires price.Some? ==> Pricing.WellFormed(price.value.bands)
    ensures var a := Accounting.Prepare(finite, l, price).value;
      && BillFor(r, a).Ok?
      && 0 <= BillFor(r, a).value.charged <= MAX_INT64
      && (!FailoverTheorems.Delivered(Failover.Serve(r).0) ==> BillFor(r, a).value.charged == 0)
      && (FailoverTheorems.Delivered(Failover.Serve(r).0) && a.reservation.Some? ==>
           price.Some? && BillFor(r, a).value == UsageBill(price.value, a, FailoverTheorems.Last(Failover.Serve(r).0)))
  {
    var (t, flow) := Failover.Serve(r);
    var f := Failover.FinishOf(t, flow);
    FailoverTheorems.ChargedIffDelivered(r, true);
    FailoverTheorems.AnswersDecideEnd(r, true);
    Accounting.FinishIsTotal(finite, l, price, f.charge, f.tokens);
  }

  /** The request's start meets the ledger's contract for its callers whenever the request id is a new one. */
  lemma StartIsLegal(w: World, id: RequestId, key: KeyId, at: int,
                     finite: bool, l: Accounting.Limits, price: Option<Pricing.Snapshot>)
    requires Accounting.Prepare(finite, l, price).Ok? && id !in w.accounts
    ensures Contract(w, StartStep(id, key, Accounting.Prepare(finite, l, price).value.reserved, finite, at))
  {
    Accounting.PrepareMeetsLedger(finite, l, price);
  }

  /** The request `id` of the run was prepared as `a`, and all its finishes carry what the loop `r` ended with. */
  ghost predicate Lives(steps: seq<Step>, id: RequestId, a: Accounting.Account, r: Failover.Run) {
    && Legal(steps)
    && id in After(steps).accounts
    && After(steps).accounts[id].reserved == a.reserved
    && BillFor(r, a).Ok?
    && var (t, flow) := Failover.Serve(r);
    && Pending(steps, id, BillFor(r, a).value.charged, Failover.FinishOf(t, flow).success)
  }

  /** A request that delivered nothing costs nothing and gives its whole reservation back: in every run its charge is
      zero, and once it has left `running` its live ledger rows are exactly a reserve and a release of that amount. */
  lemma UndeliveredIsFree(steps: seq<Step>, id: RequestId, r: Failover.Run,
                          finite: bool, l: Accounting.Limits, price: Option<Pricing.Snapshot>)
    requires Accounting.Prepare(finite, l, price).Ok?
    requires price.Some? ==> Pricing.WellFormed(price.value.bands)
    requires Lives(steps, id, Accounting.Prepare(finite, l, price).value, r)
    requires !FailoverTheorems.Delivered(Failover.Serve(r).0)
    ensures var w := After(steps);
      var account := w.accounts[id];
      && id in w.charged && w.charged[id] == 0
      && (!IsRunning(w, id) ==>
           || Of(w.db.ledger, id) == []
           || (finite && Of(w.db.ledger, id) == [Entry(account.key, id, Reserve, account.reserved),
                                                Entry(account.key, id, Release, account.reserved)]))
  {
    BillIsTotal(r, finite, l, price);
    Accounting.PrepareMeetsLedger(finite, l, price);
    var (t, flow) := Failover.Serve(r);
    var f := Failover.FinishOf(t, flow);
    ChargedAtMostOnce(steps, id, 0, f.success);
    Reachable(steps);
    if !IsRunning(After(steps), id) { UnchargedRows(After(steps), id); }
  }

  lemma UnchargedRows(w: World, id: RequestId)
    requires Inv(w) && id in w.accounts && id in w.charged && w.charged[id] == 0 && !IsRunning(w, id)
    ensures var a := w.accounts[id];
      || Of(w.db.ledger, id) == []
      || (a.reserved > 0 && Of(w.db.ledger, id) ==
           [Entry(a.key, id, Reserve, a.reserved), Entry(a.key, id, Release, a.reserved)])
  {
    QuotaRecovery.ClosedUncharged(id, w.accounts[id]);
  }

  /** A delivered request is charged its bill at most once; a settled one on a metered key pays the bill up to its own
      reservation at least, and its rows still add up to exactly what was charged. */
  lemma DeliveredIsChargedOnce(steps: seq<Step>, id: RequestId, r: Failover.Run,
                               finite: bool, l: Accounting.Limits, price: Option<Pricing.Snapshot>)
    requires Accounting.Prepare(finite, l, price).Ok?
    requires price.Some? ==> Pricing.WellFormed(price.value.bands)
    requires Lives(steps, id, Accounting.Prepare(finite, l, price).value, r)
    ensures var w := After(steps);
      var a := Accounting.Prepare(finite, l, price).value;
      var bill := BillFor(r, a).value;
      && id in w.charged && 0 <= w.charged[id] <= bill.charged
      && Settlements(steps, id) <= 1
      && (Settlements(steps, id) == 0 ==> w.charged[id] == 0)
      && (Settlements(steps, id) == 1 ==> w.charged[id] >= Min(bill.charged, a.reserved))
      && (finite && bill.fallback && Settlements(steps, id) == 1 ==> w.charged[id] == bill.charged)
  {
    BillIsTotal(r, finite, l, price);
    Accounting.PrepareMeetsLedger(finite, l, price);
    var (t, flow) := Failover.Serve(r);
    var f := Failover.FinishOf(t, flow);
    var a := Accounting.Prepare(finite, l, price).value;
    ChargedAtMostOnce(steps, id, BillFor(r, a).value.charged, f.success);
    Reachable(steps);
    Accounting.FinishIsTotal(finite, l, price, f.charge, f.tokens);
  }

  /** The client gets an upstream's own success answer only after its charge has been stored: by then the request is
      settled for good. After a settlement that failed or did not report back the client gets the gateway's error
      instead, unless it already holds the stream. */
  lemma AnswerFollowsSettlement(r: Failover.Run, w: World, s: Step, first: Fault)
    requires Inv(w) && s.FinishStep? && Contract(w, s)
    ensures var (t, flow) := Failover.Serve(r);
      var (w', settled) := FinishOnce(w, s, first);
      var response := Failover.ResponseOf(t, flow, settled);
      && (response.UpstreamAnswer? || response.LastBody? ==>
           w' == Next(w, s) && Outcomes(w, s).1 == Done && !IsRunning(w', s.id)
           && s.id in w'.charged && w'.charged[s.id] == AppliedBy(w, s.id, s.charge))
      && (first != Healthy || Outcomes(w, s).1 != Done ==>
           response.Streamed? || response == Failover.GatewayError(500))
      && (response.Streamed? ==> FailoverTheorems.Delivered(t))
  {
    var (t, flow) := Failover.Serve(r);
    var (w', settled) := FinishOnce(w, s, first);
    FailoverTheorems.ChargedIffDelivered(r, settled);
    if settled { FinishEnds(w, s); }
  }
}

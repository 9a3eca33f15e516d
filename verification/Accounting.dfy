/**
The gateway's accounting of one request: what it reserves before the first upstream attempt and what it charges
when the request is finished.
*/
module Accounting {
  import opened Wrappers
  import opened Pricing
  import opened PricingTheorems

  const INPUT_TOKEN_OVERHEAD: int := 1024

  /** The token limits parsed from a request body. */
  datatype Limits = Limits(bodyBytes: nat, maxOutput: nat, thinking: Option<nat>)

  /** What the gateway keeps while a request runs. */
  datatype Account = Account(reserved: int, maximum: Usage, reservation: Option<Reservation>)

  datatype PrepareError = TooLarge | PricingFailed(error: PricingError)

  predicate PricingUnavailable(e: PricingError) {
    e.ModelUnavailable? || e.CategoryUnpriced? || e.OutsidePriceRange?
  }

  function MaximumOf(l: Limits): Usage {
    var thinking := if l.thinking.Some? then l.thinking.value else 0;
    var completion := if thinking > l.maxOutput then thinking else l.maxOutput;
    Usage(l.bodyBytes + INPUT_TOKEN_OVERHEAD, 0, 0, 0, completion - thinking, thinking)
  }

  /** `price` is None when the catalogue has no active price for the model; `finite` says whether the key has a
      quota. A metered key always reserves at least one micro-dollar. */
  function Prepare(finite: bool, l: Limits, price: Option<Snapshot>): Result<Account, PrepareError> {
    if l.bodyBytes > MAX_INT64 - INPUT_TOKEN_OVERHEAD then Err(TooLarge)
    else
      var maximum := MaximumOf(l);
      var reservation := if price.None? then Err(ModelUnavailable) else Reserve(price.value, maximum);
      match reservation
      case Err(e) =>
        if !finite && PricingUnavailable(e) then Ok(Account(0, maximum, None)) else Err(PricingFailed(e))
      case Ok(r) =>
        if !finite then Ok(Account(0, r.maximum, Some(r)))
        else if r.reserved == 0 then Ok(Account(1, r.maximum, Some(r.(reserved := 1))))
        else Ok(Account(r.reserved, r.maximum, Some(r)))
  }

  // ----- reported usage

  /** Token counts as an upstream reported them; any of them may be missing. */
  datatype Reported = Reported(input: Option<int>, cacheRead: Option<int>, cacheWrite: Option<int>,
                               cacheWrite1H: Option<int>, output: Option<int>, reasoning: Option<int>)

  predicate Complete(r: Reported) {
    && r.input.Some? && r.cacheRead.Some? && r.cacheWrite.Some?
    && r.cacheWrite1H.Some? && r.output.Some? && r.reasoning.Some?
    && (r.input.value > 0 || r.cacheRead.value > 0 || r.cacheWrite.value > 0 || r.cacheWrite1H.value > 0 ||
        r.output.value > 0 || r.reasoning.value > 0)
  }

  function Billable(r: Reported): Usage
    requires Complete(r)
  {
    Usage(r.input.value, r.cacheRead.value, r.cacheWrite.value, r.cacheWrite1H.value, r.output.value, r.reasoning.value)
  }

  // ----- finish

  datatype Settlement = Settlement(charged: int, released: int, additional: int)

  /** Prices the actual usage on the frozen snapshot and compares it with the reservation: the charge is what was
      reserved, less what is released or plus what is added, never both. */
  function Settle(r: Reservation, actual: Usage): (result: Result<Settlement, PricingError>)
    ensures result.Ok? ==>
      var s := result.value;
      && r.reserved + s.additional == s.charged + s.released
      && s.released >= 0 && s.additional >= 0 && (s.released == 0 || s.additional == 0)
  {
    match QuoteUsage(r.snapshot, actual)
    case Err(e) => Err(e)
    case Ok(q) =>
      var delta := q.total - r.reserved;
      if delta < 0 then Ok(Settlement(q.total, -delta, 0)) else Ok(Settlement(q.total, 0, delta))
  }

  datatype Bill = Bill(charged: int, fallback: bool)

  /** The charge `finish` computes before it settles the ledger. */
  function Charge(a: Account, charge: bool, tokens: Reported): Result<Bill, PricingError> {
    if a.reservation.None? then Ok(Bill(0, false))
    else
      var r := a.reservation.value;
      var missing := charge && !Complete(tokens);
      var actual := if !charge then NO_USAGE else if Complete(tokens) then Billable(tokens) else a.maximum;
      match Settle(r, actual)
      case Ok(s) => Ok(Bill(s.charged, missing))
      case Err(e) =>
        if charge && !missing then
          match Settle(r, a.maximum)
          case Ok(s) => Ok(Bill(s.charged, true))
          case Err(e') => Err(e')
        else Err(e)
  }

  /** The same decision with the fallback flag and the second attempt as the gateway takes them. */
  method ComputeCharge(a: Account, charge: bool, tokens: Reported) returns (result: Result<Bill, PricingError>)
    ensures result == Charge(a, charge, tokens)
  {
    if a.reservation.None? {
      return Ok(Bill(0, false));
    }
    var actual, usedFallback := NO_USAGE, false;
    if charge {
      if Complete(tokens) {
        actual := Billable(tokens);
      } else {
        actual, usedFallback := a.maximum, true;
      }
    }
    var settlement := Settle(a.reservation.value, actual);
    if settlement.Err? && charge && !usedFallback {
      actual, usedFallback := a.maximum, true;
      settlement := Settle(a.reservation.value, actual);
    }
    if settlement.Err? {
      return Err(settlement.error);
    }
    return Ok(Bill(settlement.value.charged, usedFallback));
  }

  // ----- guarantees

  /** The caller contract of the ledger: an accepted request reserves a positive 64-bit amount exactly when its key
      has a finite quota, and a metered request always holds a priced reservation. */
  lemma PrepareMeetsLedger(finite: bool, l: Limits, price: Option<Snapshot>)
    requires Prepare(finite, l, price).Ok?
    ensures var a := Prepare(finite, l, price).value;
      && 0 <= a.reserved <= MAX_INT64
      && (a.reserved > 0 <==> finite)
      && (finite ==> a.reservation.Some? && a.reservation.value.reserved == a.reserved)
  {
    if price.Some? && Reserve(price.value, MaximumOf(l)).Ok? {
      ReservationRequotes(price.value, MaximumOf(l));
      QuoteCorrect(price.value, Reserve(price.value, MaximumOf(l)).value.maximum);
    }
  }

  /** Without a price (none for the model, none for the prompt's length, or none for a category that may be used) a
      metered request is refused, and an unmetered one is served without a reservation. */
  lemma UnpricedRequests(l: Limits, price: Option<Snapshot>)
    requires l.bodyBytes <= MAX_INT64 - INPUT_TOKEN_OVERHEAD
    requires price.Some? ==>
      var bands, prompt := price.value.bands, l.bodyBytes + INPUT_TOKEN_OVERHEAD;
      WellFormed(bands) &&
      (BandIndex(bands, prompt) == |bands| ||
       (bands[BandIndex(bands, prompt)].reasoning.None? && l.thinking.Some? && l.thinking.value > 0))
    ensures Prepare(true, l, price).Err?
    ensures Prepare(false, l, price).Ok? && Prepare(false, l, price).value.reserved == 0
    ensures Prepare(false, l, price).value.reservation.None?
  {
    if price.Some? && BandIndex(price.value.bands, l.bodyBytes + INPUT_TOKEN_OVERHEAD) < |price.value.bands| {
      UnpricedReasoning(price.value, MaximumOf(l));
    }
  }

  lemma UnpricedReasoning(s: Snapshot, m: Usage)
    requires WellFormed(s.bands) && ValidUsage(m) && Prompt(m) <= MAX_INT64 && BandIndex(s.bands, Prompt(m)) < |s.bands|
    requires s.bands[BandIndex(s.bands, Prompt(m))].reasoning.None? && m.reasoning > 0
    ensures Reserve(s, m).Err? && PricingUnavailable(Reserve(s, m).error)
  {
    var b := s.bands[BandIndex(s.bands, Prompt(m))];
    if ConservativeMaximum(s, m).Ok? {
      var u := ConservativeMaximum(s, m).value;
      assert Prompt(u) == Prompt(m) && ValidUsage(u);
      assert Tokens(u)[5] == m.reasoning && Rates(b)[5] == b.reasoning;
    }
  }

  /** What the reservation would be quoted at: the charge of last resort. */
  function QuotedMaximum(a: Account): int {
    if a.reservation.Some? && QuoteUsage(a.reservation.value.snapshot, a.maximum).Ok?
    then QuoteUsage(a.reservation.value.snapshot, a.maximum).value.total else 0
  }

  /** The frozen snapshot quotes both the zero usage and the stored maximum, whatever was reserved. */
  ghost predicate Quotable(a: Account) {
    a.reservation.Some? ==>
      var s := a.reservation.value.snapshot;
      && QuoteUsage(s, NO_USAGE).Ok? && QuoteUsage(s, NO_USAGE).value.total == 0
      && QuoteUsage(s, a.maximum).Ok? && 0 <= QuotedMaximum(a) <= MAX_INT64
  }

  /** A prepared account: it quotes what it must, and a metered one reserves its quoted maximum, at least one. */
  lemma PreparedQuotes(finite: bool, l: Limits, price: Option<Snapshot>)
    requires Prepare(finite, l, price).Ok?
    requires price.Some? ==> WellFormed(price.value.bands)
    ensures var a := Prepare(finite, l, price).value;
      && Quotable(a)
      && (finite ==> a.reservation.Some?)
      && a.reserved == (if !finite then 0 else if QuotedMaximum(a) == 0 then 1 else QuotedMaximum(a))
      && (a.reservation.Some? ==> price == Some(a.reservation.value.snapshot))
      && (a.reservation.Some? <==> price.Some? && Reserve(price.value, MaximumOf(l)).Ok?)
  {
    var a := Prepare(finite, l, price).value;
    if a.reservation.Some? {
      ReservationRequotes(price.value, MaximumOf(l));
      ZeroUsageIsFree(price.value);
      QuoteCorrect(price.value, a.maximum);
    }
  }

  lemma SettleQuotes(r: Reservation, u: Usage)
    ensures Settle(r, u).Ok? <==> QuoteUsage(r.snapshot, u).Ok?
    ensures Settle(r, u).Ok? ==> Settle(r, u).value.charged == QuoteUsage(r.snapshot, u).value.total
  {
  }

  lemma UnchargedBill(a: Account, tokens: Reported)
    requires Quotable(a)
    ensures Charge(a, false, tokens) == Ok(Bill(0, false))
  {
    if a.reservation.Some? { SettleQuotes(a.reservation.value, NO_USAGE); }
  }

  lemma FallbackBill(a: Account, tokens: Reported)
    requires Quotable(a) && a.reservation.Some?
    requires Complete(tokens) ==> QuoteUsage(a.reservation.value.snapshot, Billable(tokens)).Err?
    ensures Charge(a, true, tokens) == Ok(Bill(QuotedMaximum(a), true))
  {
    SettleQuotes(a.reservation.value, a.maximum);
    if Complete(tokens) { SettleQuotes(a.reservation.value, Billable(tokens)); }
  }

  lemma ReportedBill(a: Account, tokens: Reported)
    requires a.reservation.Some? && Complete(tokens)
    requires QuoteUsage(a.reservation.value.snapshot, Billable(tokens)).Ok?
    ensures var total := QuoteUsage(a.reservation.value.snapshot, Billable(tokens)).value.total;
      Charge(a, true, tokens) == Ok(Bill(total, false)) && 0 <= total <= MAX_INT64
  {
    SettleQuotes(a.reservation.value, Billable(tokens));
    QuoteCorrect(a.reservation.value.snapshot, Billable(tokens));
  }

  /** Finishing is total: whatever usage was reported, the charge is defined. An uncharged request, or one of an account
      without a price, costs nothing; any other costs the quote of its reported usage when there is a complete and
      quotable one, and the quote of the reserved maximum otherwise, which is what a metered account has reserved. */
  lemma FinishIsTotal(finite: bool, l: Limits, price: Option<Snapshot>, charge: bool, tokens: Reported)
    requires Prepare(finite, l, price).Ok?
    requires price.Some? ==> WellFormed(price.value.bands)
    ensures Charge(Prepare(finite, l, price).value, charge, tokens).Ok?
    ensures var a := Prepare(finite, l, price).value;
      var bill := Charge(a, charge, tokens).value;
      && 0 <= bill.charged <= MAX_INT64
      && (!charge ==> bill == Bill(0, false))
      && (a.reservation.None? ==> bill == Bill(0, false))
      && a.reserved == (if !finite then 0 else if QuotedMaximum(a) == 0 then 1 else QuotedMaximum(a))
      && (a.reservation.Some? && charge ==>
        price.Some? &&
        bill == if Complete(tokens) && QuoteUsage(price.value, Billable(tokens)).Ok?
                then Bill(QuoteUsage(price.value, Billable(tokens)).value.total, false)
                else Bill(QuotedMaximum(a), true))
  {
    PreparedQuotes(finite, l, price);
    var a := Prepare(finite, l, price).value;
    if !charge {
      UnchargedBill(a, tokens);
    } else if a.reservation.Some? {
      if Complete(tokens) && QuoteUsage(price.value, Billable(tokens)).Ok? {
        ReportedBill(a, tokens);
      } else {
        FallbackBill(a, tokens);
      }
    }
  }
}

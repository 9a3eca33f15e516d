/** What quotes and reservations guarantee. */
module PricingTheorems {
  import opened Wrappers
  import opened Rounding
  import opened Pricing

  function RawTotal(b: Band, u: Usage, fx: FX): real {
    SumReal(Raw(b, u, fx))
  }

  // ----- what a usage costs, written out

  /** Tokens at their rate, in micro-units before the exchange; a rate that is not given prices nothing. */
  function Worth(rate: Option<Rate>, tokens: int): real {
    if rate.Some? then rate.value * tokens as real else 0.0
  }

  /** The exact cost of a usage: every category at its own rate, at the rate of exchange. */
  function ExactCost(b: Band, u: Usage, fx: FX): real {
    (Worth(b.input, u.input) + Worth(b.cacheRead, u.cacheRead) + Worth(b.cacheWrite, u.cacheWrite)
     + Worth(b.cacheWrite1H, u.cacheWrite1H) + Worth(b.output, u.output) + Worth(b.reasoning, u.reasoning)) / fx
  }

  function Worths(b: Band, u: Usage): seq<real> {
    [Worth(b.input, u.input), Worth(b.cacheRead, u.cacheRead), Worth(b.cacheWrite, u.cacheWrite),
     Worth(b.cacheWrite1H, u.cacheWrite1H), Worth(b.output, u.output), Worth(b.reasoning, u.reasoning)]
  }

  lemma OneCost(rate: Option<Rate>, tokens: int, fx: FX)
    ensures RawOne(rate, tokens, fx) == Worth(rate, tokens) / fx
  {
    if rate.Some? && tokens == 0 { assert rate.value * 0.0 == 0.0; }
  }

  lemma RawAt(b: Band, u: Usage, fx: FX, k: nat)
    requires k < 6
    ensures Raw(b, u, fx)[k] == Worths(b, u)[k] / fx
  {
    OneCost(Rates(b)[k], Tokens(u)[k], fx);
  }

  lemma {:induction false} SumQuotients(raw: seq<real>, worths: seq<real>, fx: FX)
    requires |raw| == |worths| && forall k :: 0 <= k < |raw| ==> raw[k] == worths[k] / fx
    ensures SumReal(raw) == SumReal(worths) / fx
  {
    if raw != [] {
      var n := |raw| - 1;
      SumQuotients(raw[..n], worths[..n], fx);
      DivAdd(SumReal(worths[..n]), worths[n], fx);
    }
  }

  lemma TotalIs(b: Band, u: Usage, fx: FX)
    ensures RawTotal(b, u, fx) == ExactCost(b, u, fx)
  {
    forall k | 0 <= k < 6 ensures Raw(b, u, fx)[k] == Worths(b, u)[k] / fx { RawAt(b, u, fx, k); }
    SumQuotients(Raw(b, u, fx), Worths(b, u), fx);
    SixSum(Worths(b, u));
  }

  /** The bill of a quote, from rates, tokens and rate of exchange alone: the nearest whole micro-unit to the exact
      cost, the upper one half way, and each amount within one unit of its own category's exact cost. */
  lemma QuoteIsNearest(s: Snapshot, u: Usage)
    requires QuoteUsage(s, u).Ok?
    ensures var q := QuoteUsage(s, u).value;
      q.total as real <= ExactCost(q.band, u, s.fx) + 0.5 < q.total as real + 1.0
    ensures var q := QuoteUsage(s, u).value;
      && |q.amounts| == 6
      && forall k :: 0 <= k < 6 ==>
        (q.amounts[k] - 1) as real < Worths(q.band, u)[k] / s.fx < (q.amounts[k] + 1) as real
  {
    QuoteCorrect(s, u);
    var q := QuoteUsage(s, u).value;
    TotalIs(q.band, u, s.fx);
    HalfUp(RawTotal(q.band, u, s.fx));
    forall k | 0 <= k < 6
      ensures (q.amounts[k] - 1) as real < Worths(q.band, u)[k] / s.fx < (q.amounts[k] + 1) as real
    {
      RawAt(q.band, u, s.fx, k);
      AmountNear(s, u, k);
    }
  }

  lemma AmountNear(s: Snapshot, u: Usage, k: nat)
    requires QuoteUsage(s, u).Ok? && k < 6
    ensures var q := QuoteUsage(s, u).value;
      |q.amounts| == 6 && (q.amounts[k] - 1) as real < Raw(q.band, u, s.fx)[k] < (q.amounts[k] + 1) as real
  {
    RoundCorrect(Raw(QuoteUsage(s, u).value.band, u, s.fx));
  }

  lemma RawNonNegative(b: Band, u: Usage, fx: FX)
    requires ValidUsage(u)
    ensures forall i :: 0 <= i < 6 ==> Raw(b, u, fx)[i] >= 0.0
  {
    forall i | 0 <= i < 6 ensures Raw(b, u, fx)[i] >= 0.0 {
      if Rates(b)[i].Some? { CostMono(Rates(b)[i].value, Tokens(u)[i], Rates(b)[i].value, Tokens(u)[i], fx); }
    }
  }

  /** A usage is quoted exactly when it is valid, some band fits it, every used category is priced there and the
      rounded total fits 64 bits; the six amounts then add up to the half-up total of the exact costs, and a
      category without tokens costs nothing. */
  lemma QuoteCorrect(s: Snapshot, u: Usage)
    ensures var i := BandIndex(s.bands, Prompt(u));
      QuoteUsage(s, u).Ok? <==>
        && ValidUsage(u) && Prompt(u) <= MAX_INT64 && i < |s.bands| && Priced(s.bands[i], u)
        && RoundHalfUp(RawTotal(s.bands[i], u, s.fx)) <= MAX_INT64
    ensures QuoteUsage(s, u).Ok? ==>
      var q := QuoteUsage(s, u).value;
      && q.band == s.bands[BandIndex(s.bands, Prompt(u))]
      && |q.amounts| == 6
      && q.total == SumInt(q.amounts) == RoundHalfUp(RawTotal(q.band, u, s.fx)) >= 0
      && forall k :: 0 <= k < 6 && Tokens(u)[k] == 0 ==> q.amounts[k] == 0
  {
    var i := BandIndex(s.bands, Prompt(u));
    if ValidUsage(u) && i < |s.bands| {
      var band := s.bands[i];
      assert FirstUnpriced(Rates(band), Tokens(u)) == 6 <==> Priced(band, u);
      AmountsCorrect(band, u, s.fx);
    }
  }

  /** The amounts of a priced usage: rounded as one total, free where nothing was used. */
  lemma AmountsCorrect(band: Band, u: Usage, fx: FX)
    requires ValidUsage(u)
    ensures var r := Round(Raw(band, u, fx));
      && (r.Ok? <==> RoundHalfUp(RawTotal(band, u, fx)) <= MAX_INT64)
      && (r.Ok? ==>
        && |r.value.amounts| == 6
        && r.value.total == SumInt(r.value.amounts) == RoundHalfUp(RawTotal(band, u, fx)) >= 0
        && forall k :: 0 <= k < 6 && Tokens(u)[k] == 0 ==> r.value.amounts[k] == 0)
  {
    RawNonNegative(band, u, fx);
    RoundCorrect(Raw(band, u, fx));
    SixSum(Raw(band, u, fx));
    assert forall k :: 0 <= k < 6 && Tokens(u)[k] == 0 ==> Raw(band, u, fx)[k] == 0.0;
  }

  lemma NoUsageCosts(b: Band, fx: FX)
    ensures RawTotal(b, NO_USAGE, fx) == 0.0 && RoundHalfUp(0.0) == 0
  {
    SixSum(Raw(b, NO_USAGE, fx));
  }

  /** No usage at all is always quoted, at zero. */
  lemma ZeroUsageIsFree(s: Snapshot)
    requires WellFormed(s.bands)
    ensures QuoteUsage(s, NO_USAGE).Ok? && QuoteUsage(s, NO_USAGE).value.total == 0
  {
    assert Fits(s.bands[0], 0) && BandIndex(s.bands, 0) == 0;
    NoUsageCosts(s.bands[0], s.fx);
    QuoteCorrect(s, NO_USAGE);
  }

  /** The stored maximum of a reservation can always be quoted again, at the reserved amount. */
  lemma ReservationRequotes(s: Snapshot, maximum: Usage)
    requires Reserve(s, maximum).Ok?
    ensures var r := Reserve(s, maximum).value;
      && r.snapshot == s
      && QuoteUsage(s, r.maximum).Ok?
      && QuoteUsage(s, r.maximum).value.total == r.reserved >= 0
      && Prompt(r.maximum) == Prompt(maximum)
      && BandIndex(s.bands, Prompt(r.maximum)) == BandIndex(s.bands, Prompt(maximum)) < |s.bands|
  {
    QuoteCorrect(s, Reserve(s, maximum).value.maximum);
  }

  // ----- the reservation as an upper bound

  /** Every category priced in `low` is priced in `high`, at no lower rate. */
  predicate NowhereHigher(low: Band, high: Band) {
    forall i :: 0 <= i < 6 && Rates(low)[i].Some? ==>
      Rates(high)[i].Some? && Rates(low)[i].value <= Rates(high)[i].value
  }

  lemma OneBound(low: Option<Rate>, t: int, high: Option<Rate>, t': int, fx: FX)
    requires 0 <= t <= t' && (t != 0 ==> low.Some? && high.Some? && low.value <= high.value)
    ensures RawOne(low, t, fx) <= RawOne(high, t', fx)
  {
    if t != 0 {
      CostMono(low.value, t, high.value, t', fx);
    } else if high.Some? {
      CostMono(high.value, 0, high.value, t', fx);
    }
  }

  /** However the prompt tokens are split, they cost no more than all of them at the dearest prompt rate. */
  lemma PromptBound(low: Band, u: Usage, rate: Rate, prompt: int, fx: FX)
    requires ValidUsage(u) && Priced(low, u) && Prompt(u) <= prompt
    requires forall i :: 0 <= i < 4 && Rates(low)[i].Some? ==> Rates(low)[i].value <= rate
    ensures RawOne(low.input, u.input, fx) + RawOne(low.cacheRead, u.cacheRead, fx) +
      RawOne(low.cacheWrite, u.cacheWrite, fx) + RawOne(low.cacheWrite1H, u.cacheWrite1H, fx) <= Cost(rate, prompt, fx)
  {
    assert Rates(low)[0] == low.input && Tokens(u)[0] == u.input;
    assert Rates(low)[1] == low.cacheRead && Tokens(u)[1] == u.cacheRead;
    assert Rates(low)[2] == low.cacheWrite && Tokens(u)[2] == u.cacheWrite;
    assert Rates(low)[3] == low.cacheWrite1H && Tokens(u)[3] == u.cacheWrite1H;
    PartBound(low.input, u.input, rate, fx);
    PartBound(low.cacheRead, u.cacheRead, rate, fx);
    PartBound(low.cacheWrite, u.cacheWrite, rate, fx);
    PartBound(low.cacheWrite1H, u.cacheWrite1H, rate, fx);
    CostAdd(rate, u.input, u.cacheRead, fx);
    CostAdd(rate, u.input + u.cacheRead, u.cacheWrite, fx);
    CostAdd(rate, u.input + u.cacheRead + u.cacheWrite, u.cacheWrite1H, fx);
    CostMono(rate, Prompt(u), rate, prompt, fx);
  }

  lemma PartBound(low: Option<Rate>, t: int, rate: Rate, fx: FX)
    requires t >= 0 && (t != 0 ==> low.Some? && low.value <= rate)
    ensures RawOne(low, t, fx) <= Cost(rate, t, fx)
  {
    if t != 0 { CostMono(low.value, t, rate, t, fx); } else { CostMono(rate, 0, rate, 0, fx); }
  }

  /** The conservative usage of a band: all prompt tokens in its dearest category. */
  function Worst(b: Band, prompt: int, output: int, reasoning: int): Usage
    requires Dearest(PromptRates(b)) < 4
  {
    InCategory(Dearest(PromptRates(b)), prompt, output, reasoning)
  }

  lemma WorstTotal(b: Band, prompt: int, output: int, reasoning: int, fx: FX)
    requires Dearest(PromptRates(b)) < 4
    ensures RawTotal(b, Worst(b, prompt, output, reasoning), fx) ==
      Cost(PromptRates(b)[Dearest(PromptRates(b))].value, prompt, fx) +
      RawOne(b.output, output, fx) + RawOne(b.reasoning, reasoning, fx)
  {
    var best := Dearest(PromptRates(b));
    SixSum(Raw(b, Worst(b, prompt, output, reasoning), fx));
    assert PromptRates(b)[best] == Rates(b)[best];
    CostAdd(PromptRates(b)[best].value, 0, 0, fx);
  }

  lemma Dominated(low: Band, u: Usage, high: Band, prompt: int, output: int, reasoning: int, fx: FX)
    requires ValidUsage(u) && Priced(low, u)
    requires Prompt(u) <= prompt && u.output <= output && u.reasoning <= reasoning
    requires Dearest(PromptRates(high)) < 4 && NowhereHigher(low, high)
    ensures RawTotal(low, u, fx) <= RawTotal(high, Worst(high, prompt, output, reasoning), fx)
  {
    var best := Dearest(PromptRates(high));
    forall i | 0 <= i < 4 && Rates(low)[i].Some? ensures Rates(low)[i].value <= PromptRates(high)[best].value {
      assert PromptRates(high)[i] == Rates(high)[i];
    }
    PromptBound(low, u, PromptRates(high)[best].value, prompt, fx);
    assert Rates(low)[4] == low.output && Tokens(u)[4] == u.output && Rates(high)[4] == high.output;
    assert Rates(low)[5] == low.reasoning && Tokens(u)[5] == u.reasoning && Rates(high)[5] == high.reasoning;
    OneBound(low.output, u.output, high.output, output, fx);
    OneBound(low.reasoning, u.reasoning, high.reasoning, reasoning, fx);
    SixSum(Raw(low, u, fx));
    WorstTotal(high, prompt, output, reasoning, fx);
  }

  /** A usage within the reserved maxima, priced in the reserved band or one that is nowhere higher, never costs
      more than the reservation, however its prompt tokens split. */
  lemma ReservationIsUpperBound(s: Snapshot, maximum: Usage, u: Usage)
    requires Reserve(s, maximum).Ok? && QuoteUsage(s, u).Ok?
    requires Prompt(u) <= Prompt(maximum) && u.output <= maximum.output && u.reasoning <= maximum.reasoning
    requires NowhereHigher(QuoteUsage(s, u).value.band, s.bands[BandIndex(s.bands, Prompt(maximum))])
    ensures QuoteUsage(s, u).value.total <= Reserve(s, maximum).value.reserved
  {
    QuoteCorrect(s, u);
    ReservationRequotes(s, maximum);
    var r := Reserve(s, maximum).value;
    QuoteCorrect(s, r.maximum);
    var low, high := QuoteUsage(s, u).value.band, s.bands[BandIndex(s.bands, Prompt(maximum))];
    Dominated(low, u, high, Prompt(maximum), maximum.output, maximum.reasoning, s.fx);
    RoundMono(RawTotal(low, u, s.fx), RawTotal(high, r.maximum, s.fx));
  }

  // ----- exactly when the reservation covers every usage within its maxima

  /** The rounded price of a usage in its band, before the 64-bit test. */
  function Price(s: Snapshot, u: Usage): int
    requires BandIndex(s.bands, Prompt(u)) < |s.bands|
  {
    RoundHalfUp(RawTotal(s.bands[BandIndex(s.bands, Prompt(u))], u, s.fx))
  }

  /** Usages within the maxima that have a price. */
  predicate Within(s: Snapshot, maximum: Usage, u: Usage) {
    && ValidUsage(u)
    && Prompt(u) <= Prompt(maximum) && u.output <= maximum.output && u.reasoning <= maximum.reasoning
    && BandIndex(s.bands, Prompt(u)) < |s.bands|
    && Priced(s.bands[BandIndex(s.bands, Prompt(u))], u)
  }

  /** The most expensive usage within the maxima that falls in band j: the band's ceiling at its dearest rate. */
  function Ceiling(s: Snapshot, maximum: Usage, j: nat): Usage
    requires j < |s.bands| && Dearest(PromptRates(s.bands[j])) < 4
  {
    var b := s.bands[j];
    var prompt := if Fits(b, Prompt(maximum)) then Prompt(maximum) else b.limit.value;
    Worst(b, prompt, maximum.output, if b.reasoning.Some? then maximum.reasoning else 0)
  }

  lemma WellFormedDearest(s: Snapshot, j: nat)
    requires WellFormed(s.bands) && j < |s.bands|
    ensures Dearest(PromptRates(s.bands[j])) < 4
  {
    assert BandOk(s.bands[j]);
    assert PromptRates(s.bands[j])[0] == s.bands[j].input;
  }

  lemma CeilingFalls(s: Snapshot, maximum: Usage, j: nat)
    requires WellFormed(s.bands) && ValidUsage(maximum)
    requires j <= BandIndex(s.bands, Prompt(maximum)) < |s.bands|
    requires Dearest(PromptRates(s.bands[j])) < 4
    ensures var u := Ceiling(s, maximum, j);
      Within(s, maximum, u) && BandIndex(s.bands, Prompt(u)) == j
  {
    var u := Ceiling(s, maximum, j);
    var b := s.bands[j];
    assert BandOk(b);
    forall i | 0 <= i < j ensures !Fits(s.bands[i], Prompt(u)) {
      assert s.bands[i].limit.Some?;
      if j < BandIndex(s.bands, Prompt(maximum)) { assert !Fits(s.bands[j], Prompt(maximum)); }
    }
    assert Fits(b, Prompt(u));
    forall i | 0 <= i < 6 && Tokens(u)[i] != 0 ensures Rates(b)[i].Some? {
      if i < 4 { assert PromptRates(b)[i] == Rates(b)[i]; }
    }
  }

  lemma CeilingDominates(s: Snapshot, maximum: Usage, u: Usage)
    requires WellFormed(s.bands) && ValidUsage(maximum) && BandIndex(s.bands, Prompt(maximum)) < |s.bands|
    requires Within(s, maximum, u)
    ensures var j := BandIndex(s.bands, Prompt(u));
      && j <= BandIndex(s.bands, Prompt(maximum))
      && Dearest(PromptRates(s.bands[j])) < 4
      && Price(s, u) <= RoundHalfUp(RawTotal(s.bands[j], Ceiling(s, maximum, j), s.fx))
  {
    var j := BandIndex(s.bands, Prompt(u));
    var top := BandIndex(s.bands, Prompt(maximum));
    assert Fits(s.bands[top], Prompt(u));
    WellFormedDearest(s, j);
    var b, c := s.bands[j], Ceiling(s, maximum, j);
    assert Tokens(u)[5] == u.reasoning && Rates(b)[5] == b.reasoning;
    Dominated(b, u, b, Prompt(c), c.output, c.reasoning, s.fx);
    RoundMono(RawTotal(b, u, s.fx), RawTotal(b, c, s.fx));
  }

  /** The rounded price of a band's ceiling. */
  ghost function CeilingPrice(s: Snapshot, maximum: Usage, j: nat): int
    requires WellFormed(s.bands) && j < |s.bands|
  {
    WellFormedDearest(s, j);
    RoundHalfUp(RawTotal(s.bands[j], Ceiling(s, maximum, j), s.fx))
  }

  /** What is reserved is the ceiling of the band in which the maximum falls. */
  lemma ReservedIsCeiling(s: Snapshot, maximum: Usage)
    requires WellFormed(s.bands) && Reserve(s, maximum).Ok?
    ensures BandIndex(s.bands, Prompt(maximum)) < |s.bands| && ValidUsage(maximum)
    ensures Reserve(s, maximum).value.reserved == CeilingPrice(s, maximum, BandIndex(s.bands, Prompt(maximum)))
  {
    ReservationRequotes(s, maximum);
    var top, u := BandIndex(s.bands, Prompt(maximum)), Reserve(s, maximum).value.maximum;
    QuoteCorrect(s, u);
    WellFormedDearest(s, top);
    assert Tokens(u)[5] == maximum.reasoning && Rates(s.bands[top])[5] == s.bands[top].reasoning;
    assert u == Ceiling(s, maximum, top);
  }

  /** A reservation covers every usage within its maxima if and only if no band up to that of the maximum is dearer at
      its own ceiling than that band at its: one comparison a band, which a caller can make before reserving. */
  lemma ReservationCoversIff(s: Snapshot, maximum: Usage)
    requires WellFormed(s.bands) && Reserve(s, maximum).Ok?
    ensures var top := BandIndex(s.bands, Prompt(maximum));
      (forall u :: Within(s, maximum, u) ==> Price(s, u) <= Reserve(s, maximum).value.reserved) <==>
      (forall j :: 0 <= j <= top ==> CeilingPrice(s, maximum, j) <= CeilingPrice(s, maximum, top))
  {
    ReservedIsCeiling(s, maximum);
    var reserved, top := Reserve(s, maximum).value.reserved, BandIndex(s.bands, Prompt(maximum));
    if forall u :: Within(s, maximum, u) ==> Price(s, u) <= reserved {
      forall j | 0 <= j <= top ensures CeilingPrice(s, maximum, j) <= CeilingPrice(s, maximum, top) {
        WellFormedDearest(s, j);
        CeilingFalls(s, maximum, j);
        assert Price(s, Ceiling(s, maximum, j)) <= reserved;
      }
    }
    if forall j :: 0 <= j <= top ==> CeilingPrice(s, maximum, j) <= CeilingPrice(s, maximum, top) {
      forall u | Within(s, maximum, u) ensures Price(s, u) <= reserved {
        CeilingDominates(s, maximum, u);
        assert CeilingPrice(s, maximum, BandIndex(s.bands, Prompt(u))) <= CeilingPrice(s, maximum, top);
      }
    }
  }
}

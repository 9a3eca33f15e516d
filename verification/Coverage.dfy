/**
Whether a prepared reservation covers what the client's own limits allow: a prompt no longer than the request body, and
output and reasoning tokens that together stay within the completion limit, however they split.
*/
module Coverage {
  import opened Wrappers
  import Rounding
  import opened Pricing
  import opened PricingTheorems
  import Accounting

  function Thinking(l: Accounting.Limits): int { if l.thinking.Some? then l.thinking.value else 0 }

  function PromptLimit(l: Accounting.Limits): int { l.bodyBytes + Accounting.INPUT_TOKEN_OVERHEAD }

  /** Output and reasoning together. */
  function CompletionLimit(l: Accounting.Limits): int {
    if Thinking(l) > l.maxOutput then Thinking(l) else l.maxOutput
  }

  /** Usages within the client's limits that have a price. */
  predicate Allowed(s: Snapshot, l: Accounting.Limits, u: Usage) {
    && ValidUsage(u)
    && Prompt(u) <= PromptLimit(l) && u.output + u.reasoning <= CompletionLimit(l)
    && BandIndex(s.bands, Prompt(u)) < |s.bands|
    && Priced(s.bands[BandIndex(s.bands, Prompt(u))], u)
  }

  // ----- the dearest split

  predicate ReasoningDearer(b: Band)
    requires BandOk(b)
  {
    b.reasoning.Some? && b.reasoning.value > b.output.value
  }

  /** The limits as a maximum with all completion tokens in the band's dearer category. */
  function DearestSplit(b: Band, l: Accounting.Limits): Usage
    requires BandOk(b)
  {
    if ReasoningDearer(b) then Usage(PromptLimit(l), 0, 0, 0, 0, CompletionLimit(l))
    else Usage(PromptLimit(l), 0, 0, 0, CompletionLimit(l), 0)
  }

  /** The rounded price of the dearest allowed usage of band j: at the band's ceiling, in its dearest split. */
  ghost function SplitPrice(s: Snapshot, l: Accounting.Limits, j: nat): int
    requires WellFormed(s.bands) && j < |s.bands|
  {
    assert BandOk(s.bands[j]);
    CeilingPrice(s, DearestSplit(s.bands[j], l), j)
  }

  /** Output and reasoning tokens cost no more than all of the completion limit in the dearer category of a band that
      is nowhere cheaper. */
  lemma CompletionBound(low: Band, u: Usage, high: Band, l: Accounting.Limits, fx: FX)
    requires ValidUsage(u) && Priced(low, u) && BandOk(high) && NowhereHigher(low, high)
    requires u.output + u.reasoning <= CompletionLimit(l)
    ensures var m := DearestSplit(high, l);
      RawOne(low.output, u.output, fx) + RawOne(low.reasoning, u.reasoning, fx) <=
      RawOne(high.output, m.output, fx) + RawOne(high.reasoning, m.reasoning, fx)
  {
    assert Rates(low)[4] == low.output && Tokens(u)[4] == u.output && Rates(high)[4] == high.output;
    assert Rates(low)[5] == low.reasoning && Tokens(u)[5] == u.reasoning && Rates(high)[5] == high.reasoning;
    var rate: Rate := if ReasoningDearer(high) then high.reasoning.value else high.output.value;
    PartBound(low.output, u.output, rate, fx);
    PartBound(low.reasoning, u.reasoning, rate, fx);
    CostAdd(rate, u.output, u.reasoning, fx);
    CostMono(rate, u.output + u.reasoning, rate, CompletionLimit(l), fx);
    CostAdd(rate, 0, 0, fx);
  }

  /** An allowed usage costs at most the dearest split of any prompt limit above it, in a band that is nowhere
      cheaper. */
  lemma SplitDominates(low: Band, u: Usage, high: Band, prompt: int, l: Accounting.Limits, fx: FX)
    requires ValidUsage(u) && Priced(low, u) && BandOk(high) && NowhereHigher(low, high)
    requires Prompt(u) <= prompt && u.output + u.reasoning <= CompletionLimit(l)
    requires Dearest(PromptRates(high)) < 4
    ensures var m := DearestSplit(high, l);
      RawTotal(low, u, fx) <= RawTotal(high, Worst(high, prompt, m.output, m.reasoning), fx)
  {
    var best, m := Dearest(PromptRates(high)), DearestSplit(high, l);
    forall i | 0 <= i < 4 && Rates(low)[i].Some? ensures Rates(low)[i].value <= PromptRates(high)[best].value {
      assert PromptRates(high)[i] == Rates(high)[i];
    }
    PromptBound(low, u, PromptRates(high)[best].value, prompt, fx);
    CompletionBound(low, u, high, l, fx);
    SixSum(Raw(low, u, fx));
    WorstTotal(high, prompt, m.output, m.reasoning, fx);
  }

  lemma SplitCeilingIs(s: Snapshot, l: Accounting.Limits, j: nat)
    requires WellFormed(s.bands) && j < |s.bands|
    ensures BandOk(s.bands[j]) && Dearest(PromptRates(s.bands[j])) < 4
    ensures var m := DearestSplit(s.bands[j], l);
      var c := Ceiling(s, m, j);
      && c == Worst(s.bands[j], Prompt(c), m.output, m.reasoning)
      && (Prompt(c) == PromptLimit(l) || Some(Prompt(c)) == s.bands[j].limit)
      && (Fits(s.bands[j], PromptLimit(l)) ==> Prompt(c) == PromptLimit(l))
  {
    assert BandOk(s.bands[j]);
    WellFormedDearest(s, j);
  }

  /** The dearest split is itself allowed. */
  lemma SplitFalls(s: Snapshot, l: Accounting.Limits, j: nat)
    requires WellFormed(s.bands) && j <= BandIndex(s.bands, PromptLimit(l)) < |s.bands|
    ensures BandOk(s.bands[j]) && Dearest(PromptRates(s.bands[j])) < 4
    ensures var u := Ceiling(s, DearestSplit(s.bands[j], l), j);
      Allowed(s, l, u) && BandIndex(s.bands, Prompt(u)) == j && Price(s, u) == SplitPrice(s, l, j)
  {
    SplitCeilingIs(s, l, j);
    CeilingFalls(s, DearestSplit(s.bands[j], l), j);
  }

  /** Nothing that is allowed costs more than the dearest split of its band. */
  lemma AllowedBound(s: Snapshot, l: Accounting.Limits, u: Usage)
    requires WellFormed(s.bands) && BandIndex(s.bands, PromptLimit(l)) < |s.bands| && Allowed(s, l, u)
    ensures var j := BandIndex(s.bands, Prompt(u));
      j <= BandIndex(s.bands, PromptLimit(l)) && Price(s, u) <= SplitPrice(s, l, j)
  {
    var j, top := BandIndex(s.bands, Prompt(u)), BandIndex(s.bands, PromptLimit(l));
    assert Fits(s.bands[top], Prompt(u));
    SplitCeilingIs(s, l, j);
    var b, m := s.bands[j], DearestSplit(s.bands[j], l);
    var c := Ceiling(s, m, j);
    SplitDominates(b, u, b, Prompt(c), l, s.fx);
    RoundMono(RawTotal(b, u, s.fx), RawTotal(b, c, s.fx));
  }

  /** An amount covers everything the limits allow if and only if it covers the dearest split of every band up to that
      of the prompt limit. */
  lemma AmountCoversIff(s: Snapshot, l: Accounting.Limits, amount: int)
    requires WellFormed(s.bands) && BandIndex(s.bands, PromptLimit(l)) < |s.bands|
    ensures (forall u :: Allowed(s, l, u) ==> Price(s, u) <= amount) <==>
      (forall j :: 0 <= j <= BandIndex(s.bands, PromptLimit(l)) ==> SplitPrice(s, l, j) <= amount)
  {
    var top := BandIndex(s.bands, PromptLimit(l));
    if forall u :: Allowed(s, l, u) ==> Price(s, u) <= amount {
      forall j | 0 <= j <= top ensures SplitPrice(s, l, j) <= amount {
        SplitFalls(s, l, j);
      }
    }
    if forall j :: 0 <= j <= top ==> SplitPrice(s, l, j) <= amount {
      forall u | Allowed(s, l, u) ensures Price(s, u) <= amount {
        AllowedBound(s, l, u);
      }
    }
  }

  // ----- what the gateway prepares

  /** The amount a metered request reserves, from its limits and the bands alone: its reasoning budget at the reasoning
      rate, the rest of the completion limit at the output rate, and never less than one. */
  ghost function PreparedAmount(s: Snapshot, l: Accounting.Limits): int
    requires WellFormed(s.bands) && BandIndex(s.bands, PromptLimit(l)) < |s.bands|
  {
    var ceiling := CeilingPrice(s, Accounting.MaximumOf(l), BandIndex(s.bands, PromptLimit(l)));
    if ceiling == 0 then 1 else ceiling
  }

  /** A metered request is prepared when its body is not too large and its maximum has a price. */
  lemma PreparedIs(s: Snapshot, l: Accounting.Limits)
    ensures var prepared, r := Accounting.Prepare(true, l, Some(s)), Reserve(s, Accounting.MaximumOf(l));
      && (prepared.Ok? <==> l.bodyBytes <= MAX_INT64 - Accounting.INPUT_TOKEN_OVERHEAD && r.Ok?)
      && (prepared.Ok? ==> prepared.value.reserved == if r.value.reserved == 0 then 1 else r.value.reserved)
  {
  }

  lemma PreparedReserves(s: Snapshot, l: Accounting.Limits)
    requires WellFormed(s.bands) && Accounting.Prepare(true, l, Some(s)).Ok?
    ensures BandIndex(s.bands, PromptLimit(l)) < |s.bands|
    ensures Accounting.Prepare(true, l, Some(s)).value.reserved == PreparedAmount(s, l)
  {
    PreparedIs(s, l);
    ReservedIsCeiling(s, Accounting.MaximumOf(l));
  }

  /** A metered request's reservation covers every allowed usage, however its completion splits, exactly when no band
      up to that of the prompt limit prices its dearest split above the prepared amount. */
  lemma PreparedCoversIff(s: Snapshot, l: Accounting.Limits)
    requires WellFormed(s.bands) && Accounting.Prepare(true, l, Some(s)).Ok?
    ensures BandIndex(s.bands, PromptLimit(l)) < |s.bands|
    ensures (forall u :: Allowed(s, l, u) ==> Price(s, u) <= Accounting.Prepare(true, l, Some(s)).value.reserved) <==>
      (forall j :: 0 <= j <= BandIndex(s.bands, PromptLimit(l)) ==> SplitPrice(s, l, j) <= PreparedAmount(s, l))
  {
    PreparedReserves(s, l);
    AmountCoversIff(s, l, PreparedAmount(s, l));
  }

  // ----- the condition on the rates

  /** Nothing is gained by moving tokens between output and reasoning: without a budget reasoning must not be dearer,
      with a full budget output must not be, and with a partial one the rates must be the same. */
  predicate RatesAllow(b: Band, l: Accounting.Limits)
    requires BandOk(b)
  {
    && (Thinking(l) == CompletionLimit(l) || b.reasoning.None? || b.reasoning.value <= b.output.value)
    && (Thinking(l) == 0 || (b.reasoning.Some? && b.output.value <= b.reasoning.value))
  }

  lemma SplitRatesIff(b: Band, l: Accounting.Limits, fx: FX)
    requires BandOk(b) && Dearest(PromptRates(b)) < 4 && (Thinking(l) > 0 ==> b.reasoning.Some?)
    ensures var m, split := Accounting.MaximumOf(l), DearestSplit(b, l);
      var reserved, dearest := Worst(b, PromptLimit(l), m.output, m.reasoning),
        Worst(b, PromptLimit(l), split.output, split.reasoning);
      RawTotal(b, dearest, fx) <= RawTotal(b, reserved, fx) <==> RatesAllow(b, l)
  {
    var m, split := Accounting.MaximumOf(l), DearestSplit(b, l);
    WorstTotal(b, PromptLimit(l), m.output, m.reasoning, fx);
    WorstTotal(b, PromptLimit(l), split.output, split.reasoning, fx);
    var o, r := b.output.value, if b.reasoning.Some? then b.reasoning.value else 0.0;
    var t, rest := Thinking(l), CompletionLimit(l) - Thinking(l);
    assert m.output == rest && m.reasoning == t;
    CostAdd(o, rest, t, fx);
    CostAdd(r, rest, t, fx);
    CostAdd(o, 0, 0, fx);
    if ReasoningDearer(b) { CostLess(o, r, rest, fx); } else { CostLess(r, o, t, fx); }
  }

  /** The same tokens at a higher rate cost as much only when there are none. */
  lemma CostLess(low: Rate, high: Rate, tokens: nat, fx: FX)
    requires low <= high
    ensures Cost(high, tokens, fx) <= Cost(low, tokens, fx) <==> tokens == 0 || low == high
  {
    if tokens > 0 && low < high {
      StrictScale(low, high, tokens as real);
      DivStrict(low * tokens as real, high * tokens as real, fx);
    }
  }

  lemma DivStrict(x: real, y: real, fx: FX)
    requires x < y
    ensures x / fx < y / fx
  {
    var a, b := x / fx, y / fx;
    assert a * fx == x && b * fx == y;
    if a >= b { Rounding.Scale(b, a, fx); }
  }

  /** So a metered request is always covered when no band up to that of its prompt limit is anywhere dearer than that
      band, and that band's rates allow its limits. */
  lemma PreparedCoversWhen(s: Snapshot, l: Accounting.Limits, u: Usage)
    requires WellFormed(s.bands) && Accounting.Prepare(true, l, Some(s)).Ok? && Allowed(s, l, u)
    requires var top := s.bands[BandIndex(s.bands, PromptLimit(l))];
      BandOk(top) && RatesAllow(top, l) && NowhereHigher(s.bands[BandIndex(s.bands, Prompt(u))], top)
    ensures Price(s, u) <= Accounting.Prepare(true, l, Some(s)).value.reserved
  {
    PreparedReserves(s, l);
    var m, top := Accounting.MaximumOf(l), s.bands[BandIndex(s.bands, PromptLimit(l))];
    SplitCeilingIs(s, l, BandIndex(s.bands, PromptLimit(l)));
    var low, split := s.bands[BandIndex(s.bands, Prompt(u))], DearestSplit(top, l);
    var reserved, dearest := Worst(top, PromptLimit(l), m.output, m.reasoning),
      Worst(top, PromptLimit(l), split.output, split.reasoning);
    SplitDominates(low, u, top, PromptLimit(l), l, s.fx);
    SplitRatesIff(top, l, s.fx);
    assert reserved == Ceiling(s, m, BandIndex(s.bands, PromptLimit(l)));
    RoundMono(RawTotal(low, u, s.fx), RawTotal(top, reserved, s.fx));
  }

  // ----- price lists on which the bound fails

  /** One prompt category, at `input` per token. */
  function Plain(limit: Option<int>, input: Rate, output: Rate, reasoning: Option<Rate>): Band {
    Band(limit, Some(input), None, None, None, Some(output), reasoning)
  }

  lemma PlainTotal(limit: Option<int>, input: Rate, output: Rate, reasoning: Option<Rate>, u: Usage)
    requires ValidUsage(u) && u.cacheRead == u.cacheWrite == u.cacheWrite1H == 0
    requires reasoning.None? ==> u.reasoning == 0
    ensures Priced(Plain(limit, input, output, reasoning), u)
    ensures RawTotal(Plain(limit, input, output, reasoning), u, 1.0) ==
      input * u.input as real + output * u.output as real +
      if reasoning.Some? then reasoning.value * u.reasoning as real else 0.0
  {
    SixSum(Raw(Plain(limit, input, output, reasoning), u, 1.0));
  }

  lemma WholePrice(n: int)
    ensures Rounding.RoundHalfUp(n as real) == n
  {
  }

  lemma DearestOfInputOnly(b: Band)
    requires b.input.Some? && b.cacheRead.None? && b.cacheWrite.None? && b.cacheWrite1H.None?
    ensures Dearest(PromptRates(b)) == 0
  {
    assert PromptRates(b)[0] == b.input && PromptRates(b)[1] == b.cacheRead;
    assert PromptRates(b)[2] == b.cacheWrite && PromptRates(b)[3] == b.cacheWrite1H;
  }

  /** Where only one prompt category is priced, the maximum is reserved as it is. */
  lemma ReserveInputOnly(s: Snapshot, m: Usage, j: nat, total: nat)
    requires j == BandIndex(s.bands, Prompt(m)) < |s.bands| && total <= MAX_INT64
    requires var b := s.bands[j];
      b.input.Some? && b.cacheRead.None? && b.cacheWrite.None? && b.cacheWrite1H.None? && Priced(b, m)
    requires ValidUsage(m) && m.cacheRead == m.cacheWrite == m.cacheWrite1H == 0 && m.input <= MAX_INT64
    requires RawTotal(s.bands[j], m, s.fx) == total as real
    ensures Reserve(s, m) == Ok(Reservation(m, total, s))
  {
    WholePrice(total);
    QuoteCorrect(s, m);
    DearestOfInputOnly(s.bands[j]);
    assert ConservativeMaximum(s, m) == Ok(m);
  }

  const DEAR_REASONING: Snapshot := Snapshot([Plain(None, 0.0, 1.0, Some(3.0))], 1.0)

  /** Without a reasoning budget nothing is reserved for reasoning: where it is dearer than output, an answer within the
      completion limit costs more than was reserved, whatever the body and the limit. */
  lemma DearReasoningUnderReserves(bodyBytes: nat, maxOutput: nat)
    requires 0 < bodyBytes <= MAX_INT64 - Accounting.INPUT_TOKEN_OVERHEAD && 0 < maxOutput <= MAX_INT64
    ensures var l, u := Accounting.Limits(bodyBytes, maxOutput, None), Usage(0, 0, 0, 0, 0, maxOutput);
      var prepared := Accounting.Prepare(true, l, Some(DEAR_REASONING));
      && WellFormed(DEAR_REASONING.bands) && Allowed(DEAR_REASONING, l, u)
      && prepared.Ok? && prepared.value.reserved == maxOutput
      && Price(DEAR_REASONING, u) == 3 * maxOutput
  {
    var l := Accounting.Limits(bodyBytes, maxOutput, None);
    DearReserve(DEAR_REASONING, l);
    PreparedIs(DEAR_REASONING, l);
    DearAnswer(DEAR_REASONING, l);
  }

  lemma DearReserve(s: Snapshot, l: Accounting.Limits)
    requires s.bands == [Plain(None, 0.0, 1.0, Some(3.0))] && s.fx == 1.0
    requires l.bodyBytes <= MAX_INT64 - Accounting.INPUT_TOKEN_OVERHEAD && l.maxOutput <= MAX_INT64 && l.thinking.None?
    ensures Reserve(s, Accounting.MaximumOf(l)) == Ok(Reservation(Accounting.MaximumOf(l), l.maxOutput, s))
  {
    PlainTotal(None, 0.0, 1.0, Some(3.0), Accounting.MaximumOf(l));
    ReserveInputOnly(s, Accounting.MaximumOf(l), 0, l.maxOutput);
  }

  lemma DearAnswer(s: Snapshot, l: Accounting.Limits)
    requires s.bands == [Plain(None, 0.0, 1.0, Some(3.0))] && s.fx == 1.0 && l.thinking.None?
    ensures var u := Usage(0, 0, 0, 0, 0, l.maxOutput);
      WellFormed(s.bands) && Allowed(s, l, u) && Price(s, u) == 3 * l.maxOutput
  {
    PlainTotal(None, 0.0, 1.0, Some(3.0), Usage(0, 0, 0, 0, 0, l.maxOutput));
    WholePrice(3 * l.maxOutput);
  }

  const SHORT := 200_000

  const CHEAPER_LONG: Snapshot := Snapshot([Plain(Some(SHORT), 5.0, 0.0, None), Plain(None, 1.0, 0.0, None)], 1.0)

  /** Without the condition on the bands the bound fails: a body whose length in bytes falls into a cheap long-context
      band reserves less than its prompt costs once that turns out to be a short one. */
  lemma CheaperLongBandUnderReserves(maxOutput: nat)
    requires maxOutput <= MAX_INT64
    ensures var l, u := Accounting.Limits(SHORT, maxOutput, None), Usage(SHORT / 2, 0, 0, 0, 0, 0);
      var prepared := Accounting.Prepare(true, l, Some(CHEAPER_LONG));
      && WellFormed(CHEAPER_LONG.bands) && Allowed(CHEAPER_LONG, l, u)
      && prepared.Ok? && prepared.value.reserved == 201_024
      && Price(CHEAPER_LONG, u) == 500_000
  {
    var l := Accounting.Limits(SHORT, maxOutput, None);
    CheaperLongBands(CHEAPER_LONG);
    CheaperReserve(CHEAPER_LONG, l);
    PreparedIs(CHEAPER_LONG, l);
    CheaperAnswer(CHEAPER_LONG, l);
  }

  lemma CheaperReserve(s: Snapshot, l: Accounting.Limits)
    requires s.bands == CHEAPER_LONG.bands && s.fx == 1.0
    requires l.bodyBytes == SHORT && l.maxOutput <= MAX_INT64 && l.thinking.None?
    ensures Reserve(s, Accounting.MaximumOf(l)) == Ok(Reservation(Accounting.MaximumOf(l), 201_024, s))
  {
    CheaperLongBands(s);
    PlainTotal(None, 1.0, 0.0, None, Accounting.MaximumOf(l));
    ReserveInputOnly(s, Accounting.MaximumOf(l), 1, 201_024);
  }

  lemma CheaperAnswer(s: Snapshot, l: Accounting.Limits)
    requires s.bands == CHEAPER_LONG.bands && s.fx == 1.0 && l.bodyBytes == SHORT && l.thinking.None?
    ensures var u := Usage(SHORT / 2, 0, 0, 0, 0, 0);
      BandIndex(s.bands, Prompt(u)) < |s.bands| && Allowed(s, l, u) && Price(s, u) == 500_000
  {
    CheaperLongBands(s);
    PlainTotal(Some(SHORT), 5.0, 0.0, None, Usage(SHORT / 2, 0, 0, 0, 0, 0));
    WholePrice(500_000);
  }

  lemma CheaperLongBands(s: Snapshot)
    requires s.bands == CHEAPER_LONG.bands
    ensures WellFormed(s.bands) && BandIndex(s.bands, SHORT / 2) == 0 && BandIndex(s.bands, 201_024) == 1
  {
    assert Fits(s.bands[0], SHORT / 2) && !Fits(s.bands[0], 201_024) && Fits(s.bands[1], 201_024);
  }
}

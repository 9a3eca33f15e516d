/**
Prices token usage against a frozen price snapshot. Rates and the exchange rate are already parsed: a rate is an
optional non-negative rational in currency units per million tokens, which is micro-units per token.
*/
module Pricing {
  import opened Wrappers
  import opened Rounding

  type Rate = r: real | r >= 0.0

  type FX = r: real | r > 0.0 witness 1.0

  /** Non-overlapping token counts. */
  datatype Usage = Usage(input: int, cacheRead: int, cacheWrite: int, cacheWrite1H: int, output: int, reasoning: int)

  const NO_USAGE := Usage(0, 0, 0, 0, 0, 0)

  /** A price band: it applies up to `limit` prompt tokens, or without limit. */
  datatype Band = Band(limit: Option<int>, input: Option<Rate>, cacheRead: Option<Rate>, cacheWrite: Option<Rate>,
                       cacheWrite1H: Option<Rate>, output: Option<Rate>, reasoning: Option<Rate>)

  datatype Snapshot = Snapshot(bands: seq<Band>, fx: FX)

  datatype PricingError = InvalidUsage | OutsidePriceRange | CategoryUnpriced(category: nat) | ModelUnavailable
                        | BadRounding(error: RoundingError)

  datatype Quote = Quote(usage: Usage, amounts: seq<int>, total: int, band: Band)

  datatype Reservation = Reservation(maximum: Usage, reserved: int, snapshot: Snapshot)

  function Tokens(u: Usage): seq<int> {
    [u.input, u.cacheRead, u.cacheWrite, u.cacheWrite1H, u.output, u.reasoning]
  }

  function Rates(b: Band): seq<Option<Rate>> {
    [b.input, b.cacheRead, b.cacheWrite, b.cacheWrite1H, b.output, b.reasoning]
  }

  predicate ValidUsage(u: Usage) {
    u.input >= 0 && u.cacheRead >= 0 && u.cacheWrite >= 0 && u.cacheWrite1H >= 0 && u.output >= 0 && u.reasoning >= 0
  }

  function Prompt(u: Usage): int { u.input + u.cacheRead + u.cacheWrite + u.cacheWrite1H }

  /** Adds the prompt categories with an overflow test before every addition; the tests together reject exactly
      the totals beyond 64 bits. */
  function PromptTokens(u: Usage): (r: Result<int, PricingError>)
    ensures r == if ValidUsage(u) && Prompt(u) <= MAX_INT64 then Ok(Prompt(u)) else Err(InvalidUsage)
  {
    if !ValidUsage(u) then Err(InvalidUsage)
    else if u.input > MAX_INT64 - u.cacheRead then Err(InvalidUsage)
    else
      var prompt := u.input + u.cacheRead;
      if prompt > MAX_INT64 - u.cacheWrite then Err(InvalidUsage)
      else if prompt + u.cacheWrite > MAX_INT64 - u.cacheWrite1H then Err(InvalidUsage)
      else Ok(prompt + u.cacheWrite + u.cacheWrite1H)
  }

  predicate Fits(b: Band, prompt: int) {
    b.limit.None? || prompt <= b.limit.value
  }

  /** The first band that fits, or the number of bands. */
  function BandIndex(bands: seq<Band>, prompt: int): (i: nat)
    ensures i <= |bands|
    ensures i < |bands| ==> Fits(bands[i], prompt)
    ensures forall j :: 0 <= j < i ==> !Fits(bands[j], prompt)
  {
    if bands == [] || Fits(bands[0], prompt) then 0 else 1 + BandIndex(bands[1..], prompt)
  }

  // ----- raw costs

  function Cost(rate: real, tokens: int, fx: FX): real {
    rate * tokens as real / fx
  }

  predicate Priced(b: Band, u: Usage) {
    forall i :: 0 <= i < 6 && Tokens(u)[i] != 0 ==> Rates(b)[i].Some?
  }

  function FirstUnpriced(rates: seq<Option<Rate>>, tokens: seq<int>): (i: nat)
    requires |rates| == |tokens|
    ensures i <= |rates|
    ensures i < |rates| ==> tokens[i] != 0 && rates[i].None?
    ensures forall j :: 0 <= j < i ==> tokens[j] == 0 || rates[j].Some?
  {
    if rates == [] then 0
    else if tokens[0] != 0 && rates[0].None? then 0
    else 1 + FirstUnpriced(rates[1..], tokens[1..])
  }

  function RawOne(rate: Option<Rate>, tokens: int, fx: FX): real {
    if tokens == 0 || rate.None? then 0.0 else Cost(rate.value, tokens, fx)
  }

  function Raw(b: Band, u: Usage, fx: FX): (r: seq<real>)
    ensures |r| == 6
  {
    [RawOne(b.input, u.input, fx), RawOne(b.cacheRead, u.cacheRead, fx), RawOne(b.cacheWrite, u.cacheWrite, fx),
     RawOne(b.cacheWrite1H, u.cacheWrite1H, fx), RawOne(b.output, u.output, fx), RawOne(b.reasoning, u.reasoning, fx)]
  }

  function QuoteUsage(s: Snapshot, u: Usage): Result<Quote, PricingError> {
    match PromptTokens(u)
    case Err(e) => Err(e)
    case Ok(prompt) =>
      var i := BandIndex(s.bands, prompt);
      if i == |s.bands| then Err(OutsidePriceRange)
      else
        var band := s.bands[i];
        var c := FirstUnpriced(Rates(band), Tokens(u));
        if c < 6 then Err(CategoryUnpriced(c))
        else match Round(Raw(band, u, s.fx))
          case Err(e) => Err(BadRounding(e))
          case Ok(r) => Ok(Quote(u, r.amounts, r.total, band))
  }

  // ----- the conservative reservation

  function PromptRates(b: Band): seq<Option<Rate>> { Rates(b)[..4] }

  /** The dearest priced rate of a list, the first one on a tie; |rates| if none is priced. */
  function Dearest(rates: seq<Option<Rate>>): (i: nat)
    ensures i <= |rates|
    ensures i < |rates| ==> rates[i].Some?
    ensures i < |rates| ==> forall j :: 0 <= j < |rates| && rates[j].Some? ==>
      rates[j].value <= rates[i].value && (rates[j].value == rates[i].value ==> i <= j)
    ensures i == |rates| ==> forall j :: 0 <= j < |rates| ==> rates[j].None?
  {
    if rates == [] then 0
    else
      var n := |rates| - 1;
      var i := Dearest(rates[..n]);
      if rates[n].None? then (if i == n then |rates| else i)
      else if i == n || rates[n].value > rates[i].value then n
      else i
  }

  /** All prompt tokens in one category. */
  function InCategory(category: nat, prompt: int, output: int, reasoning: int): Usage
    requires category < 4
  {
    Usage(if category == 0 then prompt else 0, if category == 1 then prompt else 0,
          if category == 2 then prompt else 0, if category == 3 then prompt else 0, output, reasoning)
  }

  function ConservativeMaximum(s: Snapshot, maximum: Usage): Result<Usage, PricingError> {
    match PromptTokens(maximum)
    case Err(e) => Err(e)
    case Ok(prompt) =>
      var i := BandIndex(s.bands, prompt);
      if i == |s.bands| then Err(OutsidePriceRange)
      else
        var best := Dearest(PromptRates(s.bands[i]));
        if best == 4 then Err(CategoryUnpriced(0))
        else Ok(InCategory(best, prompt, maximum.output, maximum.reasoning))
  }

  /** The loop over the four prompt rates, keeping the best one seen. */
  method ConservativeMaximumUsage(s: Snapshot, maximum: Usage) returns (r: Result<Usage, PricingError>)
    ensures r == ConservativeMaximum(s, maximum)
  {
    var prompt := PromptTokens(maximum);
    if prompt.Err? {
      return Err(prompt.error);
    }
    var i := BandIndex(s.bands, prompt.value);
    if i == |s.bands| {
      return Err(OutsidePriceRange);
    }
    var rates := PromptRates(s.bands[i]);
    var best, bestRate := -1, 0.0;
    for k := 0 to 4
      invariant -1 <= best < k
      invariant best >= 0 ==> rates[best] == Some(bestRate)
      invariant Dearest(rates[..k]) == if best < 0 then k else best
    {
      assert rates[..k + 1][..k] == rates[..k];
      if rates[k].Some? && (best < 0 || rates[k].value > bestRate) {
        best, bestRate := k, rates[k].value;
      }
    }
    assert rates[..4] == rates;
    if best < 0 {
      return Err(CategoryUnpriced(0));
    }
    return Ok(InCategory(best, prompt.value, maximum.output, maximum.reasoning));
  }

  function Reserve(s: Snapshot, maximum: Usage): Result<Reservation, PricingError> {
    match ConservativeMaximum(s, maximum)
    case Err(e) => Err(e)
    case Ok(usage) =>
      match QuoteUsage(s, usage)
      case Err(e) => Err(e)
      case Ok(q) => Ok(Reservation(usage, q.total, s))
  }

  // ----- well-formed bands

  predicate BandOk(b: Band) {
    b.input.Some? && b.output.Some?
  }

  /** What catalogue validation guarantees of a band list. */
  ghost predicate WellFormed(bands: seq<Band>) {
    && bands != []
    && (forall i :: 0 <= i < |bands| ==> BandOk(bands[i]) && (bands[i].limit.Some? ==> bands[i].limit.value > 0))
    && (forall i :: 0 <= i < |bands| - 1 ==> bands[i].limit.Some?)
    && (forall i, j :: 0 <= i < j < |bands| && bands[j].limit.Some? ==> bands[i].limit.value < bands[j].limit.value)
  }

  method ValidateRateBands(bands: seq<Band>) returns (ok: bool)
    ensures ok <==> WellFormed(bands)
  {
    if bands == [] {
      return false;
    }
    var previous := 0;
    for i := 0 to |bands|
      invariant i > 0 && bands[i - 1].limit.Some? ==> previous == bands[i - 1].limit.value
      invariant i == 0 ==> previous == 0
      invariant previous >= 0
      invariant forall j :: 0 <= j < i ==> BandOk(bands[j])
      invariant forall j :: 0 <= j < i && bands[j].limit.Some? ==> 0 < bands[j].limit.value <= previous
      invariant forall j :: 0 <= j < i && j < |bands| - 1 ==> bands[j].limit.Some?
      invariant forall j, k :: 0 <= j < k < i && bands[k].limit.Some? ==> bands[j].limit.value < bands[k].limit.value
    {
      var band := bands[i];
      if i < |bands| - 1 && band.limit.None? {
        return false;
      }
      if band.limit.Some? {
        if band.limit.value <= previous {
          if i > 0 { assert bands[i - 1].limit.Some?; }
          return false;
        }
        previous := band.limit.value;
      }
      if band.input.None? || band.output.None? {
        return false;
      }
    }
    return true;
  }

  // ----- cost lemmas

  lemma CostMono(r1: real, t1: int, r2: real, t2: int, fx: FX)
    requires 0.0 <= r1 <= r2 && 0 <= t1 <= t2
    ensures 0.0 <= Cost(r1, t1, fx) <= Cost(r2, t2, fx)
  {
    Scale(r1, r2, t1 as real);
    Scale(t1 as real, t2 as real, r2);
    DivMono(r1 * t1 as real, r2 * t2 as real, fx);
    DivMono(0.0, r1 * t1 as real, fx);
  }

  lemma DivMono(x: real, y: real, fx: FX)
    requires x <= y
    ensures x / fx <= y / fx
  {
    var a, b := x / fx, y / fx;
    assert a * fx == x && b * fx == y;
    if a > b { StrictScale(b, a, fx); }
  }

  lemma StrictScale(x: real, y: real, k: real)
    requires x < y && k > 0.0
    ensures x * k < y * k
  {
  }

  lemma CostAdd(rate: real, t1: int, t2: int, fx: FX)
    ensures Cost(rate, t1, fx) + Cost(rate, t2, fx) == Cost(rate, t1 + t2, fx)
  {
    assert rate * t1 as real + rate * t2 as real == rate * (t1 + t2) as real;
    DivAdd(rate * t1 as real, rate * t2 as real, fx);
  }

  lemma DivAdd(x: real, y: real, fx: FX)
    ensures x / fx + y / fx == (x + y) / fx
  {
  }

  lemma RoundMono(x: real, y: real)
    requires x <= y
    ensures RoundHalfUp(x) <= RoundHalfUp(y)
  {
  }

  lemma SixSum(r: seq<real>)
    requires |r| == 6
    ensures SumReal(r) == r[0] + r[1] + r[2] + r[3] + r[4] + r[5]
  {
    assert r[..5][..4] == r[..4] && r[..4][..3] == r[..3] && r[..3][..2] == r[..2] && r[..2][..1] == r[..1];
    assert r[..1][..0] == [];
    assert SumReal(r[..1]) == r[0];
    assert SumReal(r[..2]) == r[0] + r[1];
    assert SumReal(r[..3]) == r[0] + r[1] + r[2];
    assert SumReal(r[..4]) == r[0] + r[1] + r[2] + r[3];
    assert SumReal(r[..5]) == r[0] + r[1] + r[2] + r[3] + r[4];
  }
}

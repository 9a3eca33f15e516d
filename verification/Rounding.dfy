/**
Largest-remainder apportionment: exact component costs are rounded once, half up, and the rounded total is
distributed over the components.
*/
module Rounding {
  import opened Wrappers

  datatype RoundingError = NegativeCost | InvalidRemainder | Overflow

  datatype Rounded = Rounded(amounts: seq<int>, total: int)

  function Frac(r: real): (f: real)
    ensures 0.0 <= f < 1.0
  {
    r - r.Floor as real
  }

  function RoundHalfUp(v: real): int {
    if Frac(v) >= 0.5 then v.Floor + 1 else v.Floor
  }

  function SumReal(s: seq<real>): real {
    if s == [] then 0.0 else SumReal(s[..|s| - 1]) + s[|s| - 1]
  }

  function SumInt(s: seq<int>): int {
    if s == [] then 0 else SumInt(s[..|s| - 1]) + s[|s| - 1]
  }

  function Floors(raw: seq<real>): (f: seq<int>)
    ensures |f| == |raw|
  {
    seq(|raw|, i requires 0 <= i < |raw| => raw[i].Floor)
  }

  function Fracs(raw: seq<real>): (f: seq<real>)
    ensures |f| == |raw|
    ensures forall i :: 0 <= i < |f| ==> 0.0 <= f[i] < 1.0
  {
    seq(|raw|, i requires 0 <= i < |raw| => Frac(raw[i]))
  }

  // ----- the stable descending sort of the remainders

  /** Larger remainders first; equal ones in component order. */
  predicate Before(fracs: seq<real>, a: nat, b: nat)
    requires a < |fracs| && b < |fracs|
  {
    fracs[a] > fracs[b] || (fracs[a] == fracs[b] && a < b)
  }

  predicate Indices(fracs: seq<real>, order: seq<nat>) {
    forall i :: 0 <= i < |order| ==> order[i] < |fracs|
  }

  ghost predicate Sorted(fracs: seq<real>, order: seq<nat>)
    requires Indices(fracs, order)
  {
    forall i, j :: 0 <= i < j < |order| ==> Before(fracs, order[i], order[j])
  }

  function Insert(fracs: seq<real>, order: seq<nat>, x: nat): (r: seq<nat>)
    requires Indices(fracs, order) && x < |fracs|
    ensures |r| == |order| + 1 && Indices(fracs, r)
    ensures forall y: nat :: y in r <==> y in order || y == x
  {
    if order == [] then [x]
    else
      var last := order[|order| - 1];
      assert order == order[..|order| - 1] + [last];
      if fracs[last] >= fracs[x] then order + [x]
      else Insert(fracs, order[..|order| - 1], x) + [last]
  }

  /** The first n components, sorted. */
  function Order(fracs: seq<real>, n: nat): (r: seq<nat>)
    requires n <= |fracs|
    ensures |r| == n && Indices(fracs, r)
    ensures forall y: nat :: y in r <==> y < n
  {
    if n == 0 then [] else Insert(fracs, Order(fracs, n - 1), n - 1)
  }

  /** Adds one unit to each listed component. */
  function Bump(amounts: seq<int>, units: seq<nat>): (r: seq<int>)
    requires forall i :: 0 <= i < |units| ==> units[i] < |amounts|
    ensures |r| == |amounts|
  {
    if units == [] then amounts
    else
      var rest := Bump(amounts, units[..|units| - 1]);
      var x := units[|units| - 1];
      rest[x := rest[x] + 1]
  }

  function Remaining(raw: seq<real>): int {
    RoundHalfUp(SumReal(raw)) - SumInt(Floors(raw))
  }

  /** The components that get an extra unit. */
  function Units(raw: seq<real>): seq<nat>
    requires 0 <= Remaining(raw) <= |raw|
  {
    Order(Fracs(raw), |raw|)[..Remaining(raw)]
  }

  function Apportion(raw: seq<real>): seq<int>
    requires 0 <= Remaining(raw) <= |raw|
  {
    Bump(Floors(raw), Units(raw))
  }

  function Round(raw: seq<real>): Result<Rounded, RoundingError> {
    if exists i :: 0 <= i < |raw| && raw[i] < 0.0 then Err(NegativeCost)
    else if !(0 <= Remaining(raw) <= |raw|) then Err(InvalidRemainder)
    else if RoundHalfUp(SumReal(raw)) > MAX_INT64 then Err(Overflow)
    else if exists i :: 0 <= i < |raw| && Apportion(raw)[i] > MAX_INT64 then Err(Overflow)
    else Ok(Rounded(Apportion(raw), RoundHalfUp(SumReal(raw))))
  }

  /** Splits each cost into its floor and its remainder, and adds up the costs and the floors. */
  method Split(raw: seq<real>) returns (floors: array<int>, remainders: seq<real>, totalRaw: real, floorSum: int)
    requires forall i :: 0 <= i < |raw| ==> raw[i] >= 0.0
    ensures fresh(floors) && floors[..] == Floors(raw) && remainders == Fracs(raw)
    ensures totalRaw == SumReal(raw) && floorSum == SumInt(Floors(raw))
  {
    var n := |raw|;
    totalRaw, floorSum, remainders := 0.0, 0, [];
    floors := new int[n];
    for i := 0 to n
      invariant totalRaw == SumReal(raw[..i]) && floorSum == SumInt(Floors(raw)[..i])
      invariant floors[..i] == Floors(raw)[..i] && remainders == Fracs(raw)[..i]
    {
      assert raw[..i + 1][..i] == raw[..i];
      assert Floors(raw)[..i + 1][..i] == Floors(raw)[..i];
      totalRaw := totalRaw + raw[i];
      floors[i] := raw[i].Floor;
      floorSum := floorSum + floors[i];
      remainders := remainders + [raw[i] - floors[i] as real];
    }
    assert raw[..n] == raw && Floors(raw)[..n] == Floors(raw) && Fracs(raw)[..n] == Fracs(raw);
    assert floors[..] == floors[..n];
  }

  method AddUnits(amounts: array<int>, units: seq<nat>)
    requires forall i :: 0 <= i < |units| ==> units[i] < amounts.Length
    modifies amounts
    ensures amounts[..] == Bump(old(amounts[..]), units)
  {
    for i := 0 to |units|
      invariant amounts[..] == Bump(old(amounts[..]), units[..i])
    {
      assert units[..i + 1][..i] == units[..i];
      amounts[units[i]] := amounts[units[i]] + 1;
    }
    assert units[..|units|] == units;
  }

  method RoundComponents(raw: seq<real>) returns (result: Result<Rounded, RoundingError>)
    ensures result == Round(raw)
  {
    for i := 0 to |raw|
      invariant forall j :: 0 <= j < i ==> raw[j] >= 0.0
    {
      if raw[i] < 0.0 {
        return Err(NegativeCost);
      }
    }
    var floors, remainders, totalRaw, floorSum := Split(raw);
    var target := RoundHalfUp(totalRaw);
    var remaining := target - floorSum;
    if remaining < 0 || remaining > |raw| {
      return Err(InvalidRemainder);
    }
    AddUnits(floors, Order(remainders, |raw|)[..remaining]);
    assert floors[..] == Apportion(raw);
    result := Checked(floors[..], target);
  }

  /** The overflow tests on the total and on every amount. */
  method Checked(amounts: seq<int>, total: int) returns (result: Result<Rounded, RoundingError>)
    ensures result ==
      if total > MAX_INT64 || exists i :: 0 <= i < |amounts| && amounts[i] > MAX_INT64 then Err(Overflow)
      else Ok(Rounded(amounts, total))
  {
    if total > MAX_INT64 {
      return Err(Overflow);
    }
    for i := 0 to |amounts|
      invariant forall j :: 0 <= j < i ==> amounts[j] <= MAX_INT64
    {
      if amounts[i] > MAX_INT64 {
        return Err(Overflow);
      }
    }
    return Ok(Rounded(amounts, total));
  }

  // ----- sums

  lemma {:induction false} SumSplit(raw: seq<real>)
    ensures SumReal(raw) == SumInt(Floors(raw)) as real + SumReal(Fracs(raw))
  {
    if raw != [] {
      var r := raw[..|raw| - 1];
      assert Floors(raw)[..|raw| - 1] == Floors(r) && Fracs(raw)[..|raw| - 1] == Fracs(r);
      SumSplit(r);
    }
  }

  /** Rounding commutes with adding a whole number. */
  lemma RoundShift(k: int, s: real)
    ensures RoundHalfUp(k as real + s) == k + RoundHalfUp(s)
  {
    assert (k as real + s).Floor == k + s.Floor;
  }

  lemma {:induction false} BumpSum(amounts: seq<int>, units: seq<nat>)
    requires forall i :: 0 <= i < |units| ==> units[i] < |amounts|
    ensures SumInt(Bump(amounts, units)) == SumInt(amounts) + |units|
  {
    if units != [] {
      var rest := Bump(amounts, units[..|units| - 1]);
      BumpSum(amounts, units[..|units| - 1]);
      SumSet(rest, units[|units| - 1], rest[units[|units| - 1]] + 1);
    }
  }

  lemma {:induction false} SumSet(s: seq<int>, i: nat, v: int)
    requires i < |s|
    ensures SumInt(s[i := v]) == SumInt(s) - s[i] + v
  {
    var n := |s| - 1;
    if i == n {
      assert s[i := v][..n] == s[..n];
    } else {
      assert s[i := v][..n] == s[..n][i := v];
      SumSet(s[..n], i, v);
    }
  }

  /** Distinct units land on distinct components. */
  lemma {:induction false} BumpAt(amounts: seq<int>, units: seq<nat>, k: nat)
    requires k < |amounts|
    requires forall i :: 0 <= i < |units| ==> units[i] < |amounts|
    requires forall i, j :: 0 <= i < j < |units| ==> units[i] != units[j]
    ensures Bump(amounts, units)[k] == amounts[k] + if k in units then 1 else 0
  {
    if units != [] {
      var rest := units[..|units| - 1];
      assert units == rest + [units[|units| - 1]];
      BumpAt(amounts, rest, k);
    }
  }

  // ----- the order

  lemma {:induction false} InsertSorted(fracs: seq<real>, order: seq<nat>, x: nat)
    requires Indices(fracs, order) && x < |fracs| && Sorted(fracs, order)
    requires forall i :: 0 <= i < |order| ==> order[i] < x
    ensures Sorted(fracs, Insert(fracs, order, x))
  {
    if order != [] {
      var rest, last := order[..|order| - 1], order[|order| - 1];
      if fracs[last] < fracs[x] {
        InsertSorted(fracs, rest, x);
        var r := Insert(fracs, rest, x);
        forall i | 0 <= i < |r| ensures Before(fracs, r[i], last) {
          assert r[i] in r;
          if r[i] != x {
            var j :| 0 <= j < |rest| && rest[j] == r[i];
            assert order[j] == r[i];
          }
        }
      }
    }
  }

  lemma {:induction false} OrderSorted(fracs: seq<real>, n: nat)
    requires n <= |fracs|
    ensures Sorted(fracs, Order(fracs, n))
  {
    if n > 0 {
      OrderSorted(fracs, n - 1);
      var rest := Order(fracs, n - 1);
      forall i | 0 <= i < n - 1 ensures rest[i] < n - 1 { assert rest[i] in rest; }
      InsertSorted(fracs, rest, n - 1);
    }
  }

  function SumBy(fracs: seq<real>, order: seq<nat>): real
    requires Indices(fracs, order)
  {
    if order == [] then 0.0 else SumBy(fracs, order[..|order| - 1]) + fracs[order[|order| - 1]]
  }

  lemma {:induction false} InsertSum(fracs: seq<real>, order: seq<nat>, x: nat)
    requires Indices(fracs, order) && x < |fracs|
    ensures SumBy(fracs, Insert(fracs, order, x)) == SumBy(fracs, order) + fracs[x]
  {
    if order != [] {
      var rest, last := order[..|order| - 1], order[|order| - 1];
      var r := Insert(fracs, order, x);
      if fracs[last] >= fracs[x] {
        assert r[..|order|] == order;
      } else {
        InsertSum(fracs, rest, x);
        assert r[..|order|] == Insert(fracs, rest, x);
      }
    }
  }

  lemma {:induction false} OrderSum(fracs: seq<real>, n: nat)
    requires n <= |fracs|
    ensures SumBy(fracs, Order(fracs, n)) == SumReal(fracs[..n])
  {
    if n > 0 {
      OrderSum(fracs, n - 1);
      InsertSum(fracs, Order(fracs, n - 1), n - 1);
      assert fracs[..n][..n - 1] == fracs[..n - 1];
    }
  }

  /** m entries below one, and nothing beyond them, add up to less than m (or to zero). */
  lemma {:induction false} SumByBound(fracs: seq<real>, order: seq<nat>, m: nat)
    requires Indices(fracs, order) && m <= |order|
    requires forall i :: 0 <= i < |fracs| ==> 0.0 <= fracs[i] < 1.0
    requires forall i :: m <= i < |order| ==> fracs[order[i]] == 0.0
    ensures 0.0 <= SumBy(fracs, order) <= m as real
    ensures SumBy(fracs, order) < m as real || m == 0
  {
    if order != [] {
      SumByBound(fracs, order[..|order| - 1], if m < |order| then m else m - 1);
    }
  }

  // ----- correctness of the apportionment

  /** A sum below m (or zero) rounds to at most m. */
  lemma RoundBound(s: real, m: nat)
    requires 0.0 <= s <= m as real && (s < m as real || m == 0)
    ensures 0 <= RoundHalfUp(s) <= m
  {
    if s < m as real { assert s.Floor < m; }
  }

  lemma RemainderIs(raw: seq<real>)
    ensures Remaining(raw) == RoundHalfUp(SumBy(Fracs(raw), Order(Fracs(raw), |raw|)))
  {
    SumSplit(raw);
    RoundShift(SumInt(Floors(raw)), SumReal(Fracs(raw)));
    OrderSum(Fracs(raw), |raw|);
    assert Fracs(raw)[..|raw|] == Fracs(raw);
  }

  /** The remainder is always between zero and the number of components, so that error is unreachable. */
  lemma RemainderFits(raw: seq<real>)
    ensures 0 <= Remaining(raw) <= |raw|
  {
    var fracs := Fracs(raw);
    RemainderIs(raw);
    SumByBound(fracs, Order(fracs, |raw|), |raw|);
    RoundBound(SumBy(fracs, Order(fracs, |raw|)), |raw|);
  }

  /** Every unit goes to a component with a positive remainder. */
  lemma UnitsArePositive(raw: seq<real>, j: nat)
    requires j < Remaining(raw) <= |raw|
    ensures Fracs(raw)[Order(Fracs(raw), |raw|)[j]] > 0.0
  {
    var fracs := Fracs(raw);
    var order := Order(fracs, |raw|);
    if fracs[order[j]] == 0.0 {
      ZeroTail(fracs, order, j) by { OrderSorted(fracs, |raw|); }
      SumByBound(fracs, order, j);
      RoundBound(SumBy(fracs, order), j);
      RemainderIs(raw);
    }
  }

  lemma ZeroTail(fracs: seq<real>, order: seq<nat>, j: nat)
    requires Indices(fracs, order) && Sorted(fracs, order) && j < |order|
    requires forall i :: 0 <= i < |fracs| ==> fracs[i] >= 0.0
    requires fracs[order[j]] == 0.0
    ensures forall i :: j <= i < |order| ==> fracs[order[i]] == 0.0
  {
    forall i | j <= i < |order| ensures fracs[order[i]] == 0.0 {
      if i > j { assert Before(fracs, order[j], order[i]); }
    }
  }

  lemma DistinctUnits(raw: seq<real>)
    requires 0 <= Remaining(raw) <= |raw|
    ensures forall i, j :: 0 <= i < j < |Units(raw)| ==> Units(raw)[i] != Units(raw)[j]
  {
    var order := Order(Fracs(raw), |raw|);
    OrderSorted(Fracs(raw), |raw|);
    forall i, j | 0 <= i < j < |Units(raw)| ensures Units(raw)[i] != Units(raw)[j] {
      assert Before(Fracs(raw), order[i], order[j]);
    }
  }

  /** Each amount is the floor of its cost or one more, and a whole cost never gets the extra unit. */
  lemma AmountAt(raw: seq<real>, k: nat)
    requires k < |raw| && 0 <= Remaining(raw) <= |raw|
    ensures Apportion(raw)[k] == raw[k].Floor + if k in Units(raw) then 1 else 0
  {
    DistinctUnits(raw);
    BumpAt(Floors(raw), Units(raw), k);
  }

  lemma WholeCostKept(raw: seq<real>, k: nat)
    requires k < |raw| && 0 <= Remaining(raw) <= |raw| && Frac(raw[k]) == 0.0
    ensures k !in Units(raw)
  {
    if k in Units(raw) {
      var j :| 0 <= j < |Units(raw)| && Units(raw)[j] == k;
      UnitsArePositive(raw, j);
    }
  }

  /** The nearest whole number, the upper one half way between two. */
  lemma HalfUp(v: real)
    ensures RoundHalfUp(v) as real <= v + 0.5 < RoundHalfUp(v) as real + 1.0
  {
  }

  /** The rounded components always add up to the rounded total; the only failures are a negative cost and a total
      beyond 64 bits. */
  lemma RoundCorrect(raw: seq<real>)
    ensures Round(raw).Ok? ==> Round(raw).value.total == RoundHalfUp(SumReal(raw))
    ensures Round(raw) == Err(NegativeCost) <==> exists i :: 0 <= i < |raw| && raw[i] < 0.0
    ensures (forall i :: 0 <= i < |raw| ==> raw[i] >= 0.0) ==>
      (Round(raw).Ok? <==> SumReal(raw) + 0.5 < (MAX_INT64 + 1) as real) &&
      (Round(raw).Err? ==> Round(raw) == Err(Overflow))
    ensures Round(raw).Ok? ==>
      var r := Round(raw).value;
      && |r.amounts| == |raw|
      && r.total == SumInt(r.amounts)
      && r.total as real <= SumReal(raw) + 0.5 < r.total as real + 1.0
      && forall k :: 0 <= k < |raw| ==>
        && raw[k].Floor <= r.amounts[k] <= raw[k].Floor + 1
        && (r.amounts[k] - 1) as real < raw[k] < (r.amounts[k] + 1) as real
  {
    HalfUp(SumReal(raw));
    RemainderFits(raw);
    DistinctUnits(raw);
    BumpSum(Floors(raw), Units(raw));
    forall k | 0 <= k < |raw|
      ensures raw[k].Floor <= Apportion(raw)[k] <= raw[k].Floor + 1
      ensures Frac(raw[k]) == 0.0 ==> Apportion(raw)[k] == raw[k].Floor
    {
      AmountAt(raw, k);
      if Frac(raw[k]) == 0.0 { WholeCostKept(raw, k); }
    }
    if forall i :: 0 <= i < |raw| ==> raw[i] >= 0.0 {
      forall k | 0 <= k < |raw| ensures Apportion(raw)[k] <= RoundHalfUp(SumReal(raw)) {
        PartBelowSum(Apportion(raw), k);
      }
    }
  }

  lemma {:induction false} PartBelowSum(s: seq<int>, k: nat)
    requires k < |s| && forall i :: 0 <= i < |s| ==> s[i] >= 0
    ensures 0 <= s[k] <= SumInt(s)
  {
    var n := |s| - 1;
    if k < n {
      PartBelowSum(s[..n], k);
    } else if n > 0 {
      PartBelowSum(s[..n], 0);
    }
  }

  // ----- optimality

  function Abs(x: real): real { if x < 0.0 then -x else x }

  /** The total absolute rounding error of an assignment of whole amounts. */
  function Error(raw: seq<real>, amounts: seq<int>): real
    requires |raw| == |amounts|
  {
    if raw == [] then 0.0
    else Error(raw[..|raw| - 1], amounts[..|raw| - 1]) + Abs(amounts[|raw| - 1] as real - raw[|raw| - 1])
  }

  lemma Scale(x: real, y: real, k: real)
    requires k >= 0.0 && x <= y
    ensures x * k <= y * k
  {
  }

  /** Leaving the floor f below the cost, or the ceiling 1 - f above it, by e whole units. */
  lemma StepAway(f: real, e: real, price: real)
    requires 0.0 <= f <= 1.0 && e >= 1.0 && price <= 1.0 - 2.0 * f
    ensures e - 2.0 * f >= price * e
  {
    Scale(price, 1.0 - 2.0 * f, e);
    Scale(1.0, e, 2.0 * f);
    assert (1.0 - 2.0 * f) * e == e - e * (2.0 * f);
  }

  /** Moving a component away from its amount costs at least `price` per unit. */
  lemma UnitPrice(raw: real, a: int, b: int, price: real)
    requires -1.0 <= price <= 1.0
    requires a == raw.Floor ==> price <= 1.0 - 2.0 * Frac(raw)
    requires a == raw.Floor + 1 ==> price >= 1.0 - 2.0 * Frac(raw)
    requires a == raw.Floor || a == raw.Floor + 1
    ensures Abs(b as real - raw) - Abs(a as real - raw) >= price * (b - a) as real
  {
    var d, f := (b - a) as real, Frac(raw);
    var gap := Abs(b as real - raw) - Abs(a as real - raw);
    assert price * d == -price * -d;
    if b > a && a == raw.Floor {
      assert gap == d - 2.0 * f;
      StepAway(f, d, price);
    } else if b > a {
      assert gap == d;
      Scale(price, 1.0, d);
    } else if b < a && a == raw.Floor {
      assert gap == -d;
      Scale(-price, 1.0, -d);
    } else if b < a {
      assert gap == -d - 2.0 * (1.0 - f);
      StepAway(1.0 - f, -d, -price);
    }
  }

  lemma {:induction false} ErrorGap(raw: seq<real>, a: seq<int>, b: seq<int>, costs: seq<real>)
    requires |raw| == |a| == |b| == |costs|
    requires forall k :: 0 <= k < |raw| ==> Abs(b[k] as real - raw[k]) - Abs(a[k] as real - raw[k]) >= costs[k]
    ensures Error(raw, b) - Error(raw, a) >= SumReal(costs)
  {
    if raw != [] {
      var n := |raw| - 1;
      ErrorGap(raw[..n], a[..n], b[..n], costs[..n]);
    }
  }

  function Costs(a: seq<int>, b: seq<int>, price: real): (c: seq<real>)
    requires |a| == |b|
    ensures |c| == |a|
  {
    seq(|a|, k requires 0 <= k < |a| => price * (b[k] - a[k]) as real)
  }

  lemma {:induction false} CostsSum(a: seq<int>, b: seq<int>, price: real)
    requires |a| == |b|
    ensures SumReal(Costs(a, b, price)) == price * (SumInt(b) - SumInt(a)) as real
  {
    if a != [] {
      var n := |a| - 1;
      CostsSum(a[..n], b[..n], price);
      CostsPrefix(a, b, price, n);
      Distribute(price, SumInt(b[..n]) - SumInt(a[..n]), b[n] - a[n]);
    }
  }

  lemma CostsPrefix(a: seq<int>, b: seq<int>, price: real, n: nat)
    requires |a| == |b| && n <= |a|
    ensures Costs(a, b, price)[..n] == Costs(a[..n], b[..n], price)
  {
    var costs, rest := Costs(a, b, price), Costs(a[..n], b[..n], price);
    forall k | 0 <= k < n ensures costs[k] == rest[k] {
      assert b[..n][k] - a[..n][k] == b[k] - a[k];
    }
  }

  lemma Distribute(price: real, x: int, y: int)
    ensures price * (x + y) as real == price * x as real + price * y as real
  {
    assert (x + y) as real == x as real + y as real;
  }

  /** The price that separates the components with an extra unit from the others: it comes from the remainder of
      the last one that got a unit. */
  function Price(raw: seq<real>): real
    requires 0 <= Remaining(raw) <= |raw|
  {
    var units := Units(raw);
    if units == [] then -1.0 else 1.0 - 2.0 * Frac(raw[units[|units| - 1]])
  }

  lemma Threshold(raw: seq<real>, k: nat)
    requires k < |raw| && 0 <= Remaining(raw) <= |raw|
    ensures -1.0 <= Price(raw) <= 1.0
    ensures k !in Units(raw) ==> Price(raw) <= 1.0 - 2.0 * Frac(raw[k])
    ensures k in Units(raw) ==> Price(raw) >= 1.0 - 2.0 * Frac(raw[k])
  {
    var fracs, units := Fracs(raw), Units(raw);
    var order, m := Order(fracs, |raw|), |units|;
    OrderSorted(fracs, |raw|);
    if k in units {
      var j :| 0 <= j < m && units[j] == k;
      if j < m - 1 { assert Before(fracs, order[j], order[m - 1]); }
    } else if m > 0 {
      assert k in order;
      var j :| 0 <= j < |raw| && order[j] == k;
      assert forall i :: 0 <= i < m ==> order[i] == units[i] && units[i] in units;
      assert Before(fracs, order[m - 1], order[j]);
    }
  }

  lemma PaysItsPrice(raw: seq<real>, other: seq<int>, k: nat)
    requires k < |raw| == |other| && 0 <= Remaining(raw) <= |raw|
    ensures var a := Apportion(raw);
      Abs(other[k] as real - raw[k]) - Abs(a[k] as real - raw[k]) >= Costs(a, other, Price(raw))[k]
  {
    AmountAt(raw, k);
    Threshold(raw, k);
    UnitPrice(raw[k], Apportion(raw)[k], other[k], Price(raw));
  }

  lemma BalancedCosts(a: seq<int>, b: seq<int>, price: real)
    requires |a| == |b| && SumInt(a) == SumInt(b)
    ensures SumReal(Costs(a, b, price)) == 0.0
  {
    CostsSum(a, b, price);
    NoUnits(price, SumInt(b) - SumInt(a));
  }

  lemma NoUnits(price: real, units: int)
    requires units == 0
    ensures price * units as real == 0.0
  {
  }

  lemma ApportionIsOptimal(raw: seq<real>, other: seq<int>)
    requires 0 <= Remaining(raw) <= |raw| && |other| == |raw|
    requires SumInt(other) == SumInt(Apportion(raw))
    ensures Error(raw, Apportion(raw)) <= Error(raw, other)
  {
    var a := Apportion(raw);
    forall k | 0 <= k < |raw|
      ensures Abs(other[k] as real - raw[k]) - Abs(a[k] as real - raw[k]) >= Costs(a, other, Price(raw))[k]
    {
      PaysItsPrice(raw, other, k);
    }
    ErrorGap(raw, a, other, Costs(a, other, Price(raw)));
    BalancedCosts(a, other, Price(raw));
  }

  /** No other assignment of whole amounts with the same total has a smaller total absolute error. */
  lemma LargestRemainderIsOptimal(raw: seq<real>, other: seq<int>)
    requires Round(raw).Ok? && |other| == |raw|
    requires SumInt(other) == Round(raw).value.total
    ensures Error(raw, Round(raw).value.amounts) <= Error(raw, other)
  {
    RoundCorrect(raw);
    RemainderFits(raw);
    ApportionIsOptimal(raw, other);
  }
}

/**
 Pricing of paid turns in whole microdollars.

 A turn is reserved with two rounded-up terms (all input at one cache mode's rate, all output at
 the output rate) and settled with five (one for each reported category). Rates are exact
 non-negative numbers of dollars per million tokens, i.e. microdollars per token.
*/
module Pricing {
  import opened Basics

  type Rate = r: real | 0.0 <= r witness 0.0

  datatype CacheMode = NoCache | Write5m | Write1h | Read

  datatype Snapshot = Snapshot(baseInput: Rate, write5m: Rate, write1h: Rate, read: Rate, output: Rate)

  /** Token counts as a provider reports them; nothing is known of their signs. */
  datatype Report = Report(input: int, write5m: int, write1h: int, read: int, output: int)

  /** Token counts that have passed validation. */
  datatype Usage = Usage(input: nat, write5m: nat, write1h: nat, read: nat, output: nat) {
    function TotalInput(): nat {
      input + write5m + write1h + read
    }
  }

  function Validate(r: Report): Option<Usage> {
    if r.input < 0 || r.write5m < 0 || r.write1h < 0 || r.read < 0 || r.output < 0 then None
    else Some(Usage(r.input, r.write5m, r.write1h, r.read, r.output))
  }

  function InputRate(p: Snapshot, mode: CacheMode): Rate {
    match mode
    case NoCache => p.baseInput
    case Write5m => p.write5m
    case Write1h => p.write1h
    case Read => p.read
  }

  /** The exact price of `tokens` at `rate`: the product, written as repeated addition. */
  function Price(tokens: nat, rate: Rate): Rate {
    if tokens == 0 then 0.0 else Price(tokens - 1, rate) + rate
  }

  /** The least whole number of microdollars that covers `tokens` at `rate`. */
  function Microdollars(tokens: nat, rate: Rate): (m: nat)
    ensures Price(tokens, rate) <= m as real < Price(tokens, rate) + 1.0
  {
    var floor := Price(tokens, rate).Floor;
    if floor as real == Price(tokens, rate) then floor else floor + 1
  }

  function ReservedCost(p: Snapshot, mode: CacheMode, inputUpper: nat, maxOutput: nat): nat {
    Microdollars(inputUpper, InputRate(p, mode)) + Microdollars(maxOutput, p.output)
  }

  function UsageCost(p: Snapshot, u: Usage): nat {
    Microdollars(u.input, p.baseInput)
    + Microdollars(u.write5m, p.write5m)
    + Microdollars(u.write1h, p.write1h)
    + Microdollars(u.read, p.read)
    + Microdollars(u.output, p.output)
  }

  ghost predicate WithinTokens(u: Usage, inputUpper: nat, maxOutput: nat) {
    u.TotalInput() <= inputUpper && u.output <= maxOutput
  }

  /** The reserved cache mode is at least as dear as every input category. */
  predicate Dominates(p: Snapshot, mode: CacheMode) {
    var r := InputRate(p, mode);
    p.baseInput <= r && p.write5m <= r && p.write1h <= r && p.read <= r
  }

  predicate Whole(r: Rate) {
    r.Floor as real == r
  }

  lemma {:induction false} PriceIsProduct(n: nat, r: Rate)
    ensures Price(n, r) == n as real * r
  {
    if n > 0 {
      PriceIsProduct(n - 1, r);
      assert n as real * r == (n - 1) as real * r + r;
    }
  }

  /** `Microdollars` is the product of tokens and rate, rounded up. */
  lemma MicrodollarsIsCeiling(n: nat, r: Rate)
    ensures n as real * r <= Microdollars(n, r) as real < n as real * r + 1.0
  {
    PriceIsProduct(n, r);
  }

  /** The least whole number that is not below the product. */
  predicate IsCeiling(m: nat, tokens: nat, rate: Rate) {
    tokens as real * rate <= m as real < tokens as real * rate + 1.0
  }

  lemma IsItsCeiling(tokens: nat, rate: Rate)
    ensures IsCeiling(Microdollars(tokens, rate), tokens, rate)
  {
    MicrodollarsIsCeiling(tokens, rate);
  }

  /** What a turn is reserved at: all input at the rate of its cache mode and all output at the output rate, each
      rounded up. */
  lemma ReservedCostIs(p: Snapshot, mode: CacheMode, inputUpper: nat, maxOutput: nat)
    returns (input: nat, output: nat)
    ensures ReservedCost(p, mode, inputUpper, maxOutput) == input + output
    ensures IsCeiling(output, maxOutput, p.output)
    ensures match mode
            case NoCache => IsCeiling(input, inputUpper, p.baseInput)
            case Write5m => IsCeiling(input, inputUpper, p.write5m)
            case Write1h => IsCeiling(input, inputUpper, p.write1h)
            case Read => IsCeiling(input, inputUpper, p.read)
  {
    input, output := Microdollars(inputUpper, InputRate(p, mode)), Microdollars(maxOutput, p.output);
    IsItsCeiling(inputUpper, InputRate(p, mode));
    IsItsCeiling(maxOutput, p.output);
  }

  /** What a turn is settled at: each category at its own rate, rounded up. */
  lemma UsageCostIs(p: Snapshot, u: Usage) returns (input: nat, w5m: nat, w1h: nat, read: nat, output: nat)
    ensures UsageCost(p, u) == input + w5m + w1h + read + output
    ensures IsCeiling(input, u.input, p.baseInput) && IsCeiling(w5m, u.write5m, p.write5m)
    ensures IsCeiling(w1h, u.write1h, p.write1h) && IsCeiling(read, u.read, p.read)
    ensures IsCeiling(output, u.output, p.output)
  {
    input, w5m := Microdollars(u.input, p.baseInput), Microdollars(u.write5m, p.write5m);
    w1h, read := Microdollars(u.write1h, p.write1h), Microdollars(u.read, p.read);
    output := Microdollars(u.output, p.output);
    IsItsCeiling(u.input, p.baseInput);
    IsItsCeiling(u.write5m, p.write5m);
    IsItsCeiling(u.write1h, p.write1h);
    IsItsCeiling(u.read, p.read);
    IsItsCeiling(u.output, p.output);
  }

  lemma {:induction false} PriceAdds(m: nat, n: nat, r: Rate)
    ensures Price(m + n, r) == Price(m, r) + Price(n, r)
  {
    if n > 0 {
      PriceAdds(m, n - 1, r);
    }
  }

  lemma {:induction false} PriceMonotone(m: nat, n: nat, r: Rate, q: Rate)
    requires m <= n && r <= q
    ensures Price(m, r) <= Price(n, q)
  {
    if m > 0 {
      PriceMonotone(m - 1, n - 1, r, q);
    }
  }

  lemma {:induction false} WholeIsExact(n: nat, r: Rate)
    requires Whole(r)
    ensures Whole(Price(n, r)) && Microdollars(n, r) as real == Price(n, r)
  {
    if n > 0 {
      WholeIsExact(n - 1, r);
      assert Price(n, r) == (Price(n - 1, r).Floor + r.Floor) as real;
    }
  }

  /** The four input categories, priced without rounding, cost no more than the reserved input. */
  lemma ExactInputCost(p: Snapshot, mode: CacheMode, u: Usage, inputUpper: nat)
    requires Dominates(p, mode) && u.TotalInput() <= inputUpper
    ensures Price(u.input, p.baseInput) + Price(u.write5m, p.write5m)
            + Price(u.write1h, p.write1h) + Price(u.read, p.read)
            <= Price(inputUpper, InputRate(p, mode))
  {
    var r := InputRate(p, mode);
    PriceMonotone(u.input, u.input, p.baseInput, r);
    PriceMonotone(u.write5m, u.write5m, p.write5m, r);
    PriceMonotone(u.write1h, u.write1h, p.write1h, r);
    PriceMonotone(u.read, u.read, p.read, r);
    PriceOfTotal(u, r);
    PriceMonotone(u.TotalInput(), inputUpper, r, r);
  }

  lemma PriceOfTotal(u: Usage, r: Rate)
    ensures Price(u.TotalInput(), r)
         == Price(u.input, r) + Price(u.write5m, r) + Price(u.write1h, r) + Price(u.read, r)
  {
    PriceAdds(u.input, u.write5m, r);
    PriceAdds(u.input + u.write5m, u.write1h, r);
    PriceAdds(u.input + u.write5m + u.write1h, u.read, r);
  }

  lemma MicrodollarsMonotone(m: nat, n: nat, r: Rate, q: Rate)
    requires m <= n && r <= q
    ensures Microdollars(m, r) <= Microdollars(n, q)
  {
    PriceMonotone(m, n, r, q);
  }

  /** Four roundings up instead of one: at most three microdollars above the reservation. */
  lemma SettlementExcess(p: Snapshot, mode: CacheMode, u: Usage, inputUpper: nat, maxOutput: nat)
    requires Dominates(p, mode) && WithinTokens(u, inputUpper, maxOutput)
    ensures UsageCost(p, u) <= ReservedCost(p, mode, inputUpper, maxOutput) + 3
  {
    ExactInputCost(p, mode, u, inputUpper);
    MicrodollarsMonotone(u.output, maxOutput, p.output, p.output);
  }

  /** With whole microdollar rates nothing is rounded, and the reservation is never exceeded. */
  lemma WholeRatesNeverExceed(p: Snapshot, mode: CacheMode, u: Usage, inputUpper: nat, maxOutput: nat)
    requires Dominates(p, mode) && WithinTokens(u, inputUpper, maxOutput)
    requires Whole(p.baseInput) && Whole(p.write5m) && Whole(p.write1h) && Whole(p.read)
    ensures UsageCost(p, u) <= ReservedCost(p, mode, inputUpper, maxOutput)
  {
    ExactInputCost(p, mode, u, inputUpper);
    MicrodollarsMonotone(u.output, maxOutput, p.output, p.output);
    WholeIsExact(u.input, p.baseInput);
    WholeIsExact(u.write5m, p.write5m);
    WholeIsExact(u.write1h, p.write1h);
    WholeIsExact(u.read, p.read);
    WholeIsExact(inputUpper, InputRate(p, mode));
  }

  ghost predicate OneInputCategory(u: Usage) {
    || (u.write5m == u.write1h == u.read == 0)
    || (u.input == u.write1h == u.read == 0)
    || (u.input == u.write5m == u.read == 0)
    || (u.input == u.write5m == u.write1h == 0)
  }

  /** A turn that uses one input category is rounded as often as its reservation. */
  lemma OneCategoryNeverExceeds(p: Snapshot, mode: CacheMode, u: Usage, inputUpper: nat, maxOutput: nat)
    requires Dominates(p, mode) && WithinTokens(u, inputUpper, maxOutput) && OneInputCategory(u)
    ensures UsageCost(p, u) <= ReservedCost(p, mode, inputUpper, maxOutput)
  {
    var r := InputRate(p, mode);
    MicrodollarsMonotone(u.input, inputUpper, p.baseInput, r);
    MicrodollarsMonotone(u.write5m, inputUpper, p.write5m, r);
    MicrodollarsMonotone(u.write1h, inputUpper, p.write1h, r);
    MicrodollarsMonotone(u.read, inputUpper, p.read, r);
    MicrodollarsMonotone(u.output, maxOutput, p.output, p.output);
  }

  /** Three microdollars is attained: one token of each category at a quarter of a microdollar. */
  lemma ExcessOfThreeIsAttained()
    ensures exists p: Snapshot, u: Usage ::
      && Dominates(p, NoCache) && WithinTokens(u, 4, 0)
      && UsageCost(p, u) == ReservedCost(p, NoCache, 4, 0) + 3
  {
    var p := Snapshot(0.25, 0.25, 0.25, 0.25, 0.25);
    var u := Usage(1, 1, 1, 1, 0);
    assert Microdollars(1, 0.25) == 1 && Microdollars(4, 0.25) == 1 && Microdollars(0, 0.25) == 0;
    assert UsageCost(p, u) == ReservedCost(p, NoCache, 4, 0) + 3;
  }

  function AllIn(mode: CacheMode, n: nat): Usage {
    match mode
    case NoCache => Usage(n, 0, 0, 0, 0)
    case Write5m => Usage(0, n, 0, 0, 0)
    case Write1h => Usage(0, 0, n, 0, 0)
    case Read => Usage(0, 0, 0, n, 0)
  }

  lemma CheapModeIsExceeded(p: Snapshot, mode: CacheMode, dear: CacheMode) returns (n: nat)
    requires InputRate(p, mode) < InputRate(p, dear)
    ensures UsageCost(p, AllIn(dear, n)) > ReservedCost(p, mode, n, 0) + 3
  {
    var cheap, costly := InputRate(p, mode), InputRate(p, dear);
    n := StepsPast(5.0, costly - cheap);
    PriceAddsRates(n, cheap, costly - cheap);
    assert UsageCost(p, AllIn(dear, n)) == Microdollars(n, costly);
  }

  lemma {:induction false} PriceAddsRates(n: nat, r: Rate, q: Rate)
    ensures Price(n, r + q) == Price(n, r) + Price(n, q)
  {
    if n > 0 {
      PriceAddsRates(n - 1, r, q);
    }
  }

  lemma ProductIsNonNegative(a: real, b: real)
    requires 0.0 <= a && 0.0 <= b
    ensures 0.0 <= a * b
  {
  }

  /** Any positive gap, repeated often enough, passes any target. */
  lemma StepsPast(target: real, gap: Rate) returns (n: nat)
    requires 0.0 < gap && 0.0 <= target
    ensures target <= Price(n, gap)
  {
    var q := target / gap;
    assert q * gap == target;
    n := q.Floor + 1;
    PriceIsProduct(n, gap);
    ProductIsNonNegative(n as real - q, gap);
    assert (n as real - q) * gap == n as real * gap - q * gap;
  }

  /** The exact condition: the excess is bounded for every turn iff the reserved mode is the dearest. */
  lemma {:induction false} ExcessBoundedExactly(p: Snapshot, mode: CacheMode)
    ensures Dominates(p, mode) <==>
            forall u: Usage, inputUpper: nat, maxOutput: nat :: WithinTokens(u, inputUpper, maxOutput) ==>
              UsageCost(p, u) <= ReservedCost(p, mode, inputUpper, maxOutput) + 3
  {
    if Dominates(p, mode) {
      forall u: Usage, inputUpper: nat, maxOutput: nat | WithinTokens(u, inputUpper, maxOutput)
        ensures UsageCost(p, u) <= ReservedCost(p, mode, inputUpper, maxOutput) + 3
      {
        SettlementExcess(p, mode, u, inputUpper, maxOutput);
      }
    } else {
      var dear :| InputRate(p, mode) < InputRate(p, dear);
      var n := CheapModeIsExceeded(p, mode, dear);
      assert WithinTokens(AllIn(dear, n), n, 0);
    }
  }
}

/**
 Exact API pricing: the 128-bit ceiling computation and the usage accounting that feeds it.
 */
module Pricing {
  import opened Prelude

  const TOKEN_RATE_DENOMINATOR := 1_000_000

  /** Rates in currency micros per million tokens. */
  datatype Rates = Rates(input: U64, cachedInput: U64, cacheCreationInput: U64, output: U64)

  datatype PricingError =
    | UsageOverflow
    | UsageInconsistent
    | MultiplicationOverflow
    | RoundingOverflow
    | CostExceedsU64

  function CheckedMul128(a: nat, b: nat): Option<nat> {
    if a * b <= U128_MAX then Some(a * b) else None
  }

  /** value + a * b, with an overflow check on the product and on the sum. */
  function MulAdd128(value: Option<nat>, a: nat, b: nat): Option<nat> {
    match value
    case None => None
    case Some(v) =>
      match CheckedMul128(a, b)
      case None => None
      case Some(product) => if v + product <= U128_MAX then Some(v + product) else None
  }

  function CalculateApiCostMicros(price: Rates, input: U64, cached: U64, cacheCreation: U64, output: U64)
    : Result<U64, PricingError>
  {
    if cached + cacheCreation > U64_MAX then Err(UsageOverflow)
    else if cached + cacheCreation > input then Err(UsageInconsistent)
    else
      var uncached := input - (cached + cacheCreation);
      var numerator :=
        MulAdd128(
          MulAdd128(
            MulAdd128(
              CheckedMul128(uncached, price.input),
              cached, price.cachedInput),
            cacheCreation, price.cacheCreationInput),
          output, price.output);
      match numerator
      case None => Err(MultiplicationOverflow)
      case Some(n) =>
        if n + (TOKEN_RATE_DENOMINATOR - 1) > U128_MAX then Err(RoundingOverflow)
        else
          var rounded := (n + (TOKEN_RATE_DENOMINATOR - 1)) / TOKEN_RATE_DENOMINATOR;
          if rounded <= U64_MAX then Ok(rounded) else Err(CostExceedsU64)
  }

  /** Token counts by billing category. */
  datatype Usage = Usage(uncached: nat, cached: nat, cacheCreation: nat, output: nat) {
    function Plus(other: Usage): Usage {
      Usage(uncached + other.uncached, cached + other.cached,
            cacheCreation + other.cacheCreation, output + other.output)
    }

    predicate AtMost(other: Usage) {
      && uncached <= other.uncached
      && cached <= other.cached
      && cacheCreation <= other.cacheCreation
      && output <= other.output
    }
  }

  /** The rational cost of a usage, as a number of millionths of a micro. */
  function RationalCost(price: Rates, u: Usage): nat {
    u.uncached * price.input + u.cached * price.cachedInput
    + u.cacheCreation * price.cacheCreationInput + u.output * price.output
  }

  /** The least number of whole micros covering a rational cost. */
  ghost predicate IsCeiling(cost: int, rational: nat) {
    && rational <= cost * TOKEN_RATE_DENOMINATOR
    && forall c: int :: rational <= c * TOKEN_RATE_DENOMINATOR ==> cost <= c
  }

  lemma CeilingByDivision(rational: nat)
    ensures IsCeiling((rational + (TOKEN_RATE_DENOMINATOR - 1)) / TOKEN_RATE_DENOMINATOR, rational)
  {
    var cost := (rational + (TOKEN_RATE_DENOMINATOR - 1)) / TOKEN_RATE_DENOMINATOR;
    forall c: int | rational <= c * TOKEN_RATE_DENOMINATOR
      ensures cost <= c
    {
    }
  }

  /** Some ceiling of a cost fits in 64 bits: the condition under which pricing can succeed at all. */
  ghost predicate FitsU64(rational: nat) {
    rational <= U64_MAX * TOKEN_RATE_DENOMINATOR
  }

  lemma NumeratorIsRationalCost(price: Rates, input: U64, cached: U64, cacheCreation: U64, output: U64)
    requires cached + cacheCreation <= input
    ensures
      var u := Usage(input - (cached + cacheCreation), cached, cacheCreation, output);
      var numerator :=
        MulAdd128(
          MulAdd128(
            MulAdd128(
              CheckedMul128(u.uncached, price.input),
              cached, price.cachedInput),
            cacheCreation, price.cacheCreationInput),
          output, price.output);
      numerator == if RationalCost(price, u) <= U128_MAX then Some(RationalCost(price, u)) else None
  {
    var u := Usage(input - (cached + cacheCreation), cached, cacheCreation, output);
    NonNegativeProducts(price, u);
  }

  lemma NonNegativeProducts(price: Rates, u: Usage)
    ensures u.uncached * price.input >= 0 && u.cached * price.cachedInput >= 0
    ensures u.cacheCreation * price.cacheCreationInput >= 0 && u.output * price.output >= 0
  {
  }

  /**
   Pricing succeeds exactly when the categories fit inside the input and the ceiling fits in 64
   bits, and then it is exactly the ceiling of the rational cost.
   */
  lemma CostIsExactCeiling(price: Rates, input: U64, cached: U64, cacheCreation: U64, output: U64)
    ensures
      var r := CalculateApiCostMicros(price, input, cached, cacheCreation, output);
      && (r.Ok? <==> cached + cacheCreation <= input
                     && FitsU64(RationalCost(price, Usage(input - cached - cacheCreation, cached, cacheCreation, output))))
      && (r.Ok? ==> IsCeiling(r.value,
                              RationalCost(price, Usage(input - cached - cacheCreation, cached, cacheCreation, output))))
  {
    if cached + cacheCreation <= input {
      var u := Usage(input - cached - cacheCreation, cached, cacheCreation, output);
      NumeratorIsRationalCost(price, input, cached, cacheCreation, output);
      CeilingByDivision(RationalCost(price, u));
    }
  }

  lemma RationalCostMonotone(price: Rates, u: Usage, v: Usage)
    requires u.AtMost(v)
    ensures RationalCost(price, u) <= RationalCost(price, v)
  {
    MulMonotone(u.uncached, v.uncached, price.input);
    MulMonotone(u.cached, v.cached, price.cachedInput);
    MulMonotone(u.cacheCreation, v.cacheCreation, price.cacheCreationInput);
    MulMonotone(u.output, v.output, price.output);
  }

  lemma MulMonotone(a: nat, b: nat, c: nat)
    requires a <= b
    ensures a * c <= b * c
  {
    assert b * c == a * c + (b - a) * c;
  }

  lemma RationalCostAdds(price: Rates, u: Usage, v: Usage)
    ensures RationalCost(price, u.Plus(v)) == RationalCost(price, u) + RationalCost(price, v)
  {
    MulDistributes(u.uncached, v.uncached, price.input);
    MulDistributes(u.cached, v.cached, price.cachedInput);
    MulDistributes(u.cacheCreation, v.cacheCreation, price.cacheCreationInput);
    MulDistributes(u.output, v.output, price.output);
  }

  lemma MulDistributes(a: nat, b: nat, c: nat)
    ensures (a + b) * c == a * c + b * c
  {
  }

  /** The cost the code charges for a usage, when its total input fits in 64 bits. */
  function Charge(price: Rates, u: Usage): Result<U64, PricingError>
    requires u.uncached + u.cached + u.cacheCreation <= U64_MAX && u.output <= U64_MAX
  {
    CalculateApiCostMicros(price, u.uncached + u.cached + u.cacheCreation, u.cached, u.cacheCreation, u.output)
  }

  lemma ChargeIsCeiling(price: Rates, u: Usage)
    requires u.uncached + u.cached + u.cacheCreation <= U64_MAX && u.output <= U64_MAX
    ensures Charge(price, u).Ok? <==> FitsU64(RationalCost(price, u))
    ensures Charge(price, u).Ok? ==> IsCeiling(Charge(price, u).value, RationalCost(price, u))
  {
    var input := u.uncached + u.cached + u.cacheCreation;
    CostIsExactCeiling(price, input, u.cached, u.cacheCreation, u.output);
    assert Usage(input - u.cached - u.cacheCreation, u.cached, u.cacheCreation, u.output) == u;
  }

  /** A usage that is no larger in any category is never dearer, and never fails when the larger one is priced. */
  lemma ChargeMonotone(price: Rates, u: Usage, v: Usage)
    requires v.uncached + v.cached + v.cacheCreation <= U64_MAX && v.output <= U64_MAX
    requires u.AtMost(v) && Charge(price, v).Ok?
    ensures Charge(price, u).Ok? && Charge(price, u).value <= Charge(price, v).value
  {
    ChargeIsCeiling(price, u);
    ChargeIsCeiling(price, v);
    RationalCostMonotone(price, u, v);
  }

  /** Splitting a usage in two never makes it cheaper, and costs at most one extra micro. */
  lemma ChargeSubadditive(price: Rates, u: Usage, v: Usage)
    requires var w := u.Plus(v); w.uncached + w.cached + w.cacheCreation <= U64_MAX && w.output <= U64_MAX
    requires Charge(price, u.Plus(v)).Ok?
    ensures Charge(price, u).Ok? && Charge(price, v).Ok?
    ensures
      var whole, parts := Charge(price, u.Plus(v)).value, Charge(price, u).value + Charge(price, v).value;
      whole <= parts <= whole + 1
  {
    ChargeMonotone(price, u, u.Plus(v));
    ChargeMonotone(price, v, u.Plus(v));
    ChargeIsCeiling(price, u);
    ChargeIsCeiling(price, v);
    ChargeIsCeiling(price, u.Plus(v));
    RationalCostAdds(price, u, v);
    var a, b := Charge(price, u).value, Charge(price, v).value;
    var ra, rb := RationalCost(price, u), RationalCost(price, v);
    assert ra + rb <= (a + b) * TOKEN_RATE_DENOMINATOR;
    assert !(ra <= (a - 1) * TOKEN_RATE_DENOMINATOR) && !(rb <= (b - 1) * TOKEN_RATE_DENOMINATOR);
    var whole := Charge(price, u.Plus(v)).value;
    assert (a - 1 + b - 1) * TOKEN_RATE_DENOMINATOR < ra + rb <= whole * TOKEN_RATE_DENOMINATOR;
  }

  /** No cost exceeds the ceiling with every input token billed at the highest input rate. */
  lemma ChargeBelowHighestRate(price: Rates, u: Usage, highest: U64)
    requires u.uncached + u.cached + u.cacheCreation <= U64_MAX && u.output <= U64_MAX
    requires price.input <= highest && price.cachedInput <= highest && price.cacheCreationInput <= highest
    requires Charge(price, u).Ok?
    ensures forall c: int ::
              ((u.uncached + u.cached + u.cacheCreation) * highest + u.output * price.output
               <= c * TOKEN_RATE_DENOMINATOR) ==> Charge(price, u).value <= c
  {
    ChargeIsCeiling(price, u);
    MulMonotone(price.input, highest, u.uncached);
    MulMonotone(price.cachedInput, highest, u.cached);
    MulMonotone(price.cacheCreationInput, highest, u.cacheCreation);
    MulDistributes(u.uncached, u.cached, highest);
    MulDistributes(u.uncached + u.cached, u.cacheCreation, highest);
    assert RationalCost(price, u)
        <= (u.uncached + u.cached + u.cacheCreation) * highest + u.output * price.output;
  }

  /** The rates validate_api_model_price lets through: every rate is a signed 64-bit integer. */
  predicate ValidRates(price: Rates) {
    && 0 < price.input <= I64_MAX
    && price.cachedInput <= I64_MAX
    && price.cacheCreationInput <= I64_MAX
    && 0 < price.output <= I64_MAX
  }

  /** With validated rates the 128-bit arithmetic never overflows, whatever the token counts. */
  lemma ValidatedRatesNeverOverflow(price: Rates, input: U64, cached: U64, cacheCreation: U64, output: U64)
    requires ValidRates(price)
    ensures
      var r := CalculateApiCostMicros(price, input, cached, cacheCreation, output);
      r != Err(MultiplicationOverflow) && r != Err(RoundingOverflow)
  {
    if cached + cacheCreation <= input {
      var u := Usage(input - (cached + cacheCreation), cached, cacheCreation, output);
      NumeratorIsRationalCost(price, input, cached, cacheCreation, output);
      MulMonotone(price.input, I64_MAX, u.uncached);
      MulMonotone(price.cachedInput, I64_MAX, u.cached);
      MulMonotone(price.cacheCreationInput, I64_MAX, u.cacheCreation);
      MulMonotone(price.output, I64_MAX, u.output);
      assert RationalCost(price, u) <= input * I64_MAX + output * I64_MAX;
      assert input * I64_MAX <= U64_MAX * I64_MAX && output * I64_MAX <= U64_MAX * I64_MAX;
    }
  }

  // --- Usage reported by the two providers ---

  datatype UsageError = TotalOverflow | CategoriesExceedInput | TotalMismatch

  datatype InputUsage = InputUsage(total: U64, cached: U64, cacheCreation: U64)

  /** Anthropic reports uncached input; cache reads and cache creation come on top and default to zero. */
  function AnthropicInputUsage(base: U64, cacheCreation: Option<U64>, cached: Option<U64>): Result<InputUsage, UsageError> {
    var creation := if cacheCreation.Some? then cacheCreation.value else 0;
    var read := if cached.Some? then cached.value else 0;
    if base + creation > U64_MAX || base + creation + read > U64_MAX then Err(TotalOverflow)
    else Ok(InputUsage(base + creation + read, read, creation))
  }

  /** OpenAI reports total input with the cached categories inside it, and a total to cross-check. */
  function OpenAiInputUsage(input: U64, cached: Option<U64>, cacheWrite: Option<U64>, output: U64, total: U64)
    : Result<InputUsage, UsageError>
  {
    var read := if cached.Some? then cached.value else 0;
    var write := if cacheWrite.Some? then cacheWrite.value else 0;
    if read + write > U64_MAX || read + write > input then Err(CategoriesExceedInput)
    else if input + output != total then Err(TotalMismatch)
    else Ok(InputUsage(input, read, write))
  }

  /**
   What Anthropic reports is read exactly: the base stays uncached, cache reads are priced as cached input, cache
   writes as cache creation, and nothing is counted twice; it is refused only when the sum leaves 64 bits.
   */
  lemma AnthropicUsageIsRead(base: U64, cacheCreation: Option<U64>, cached: Option<U64>)
    ensures
      var r := AnthropicInputUsage(base, cacheCreation, cached);
      && (r.Ok? <==> base + Reported(cacheCreation) + Reported(cached) <= U64_MAX)
      && (r.Ok? ==>
            && r.value.cached == Reported(cached) && r.value.cacheCreation == Reported(cacheCreation)
            && r.value.total - r.value.cached - r.value.cacheCreation == base)
  {
  }

  /** OpenAI's total already holds its categories, which must fit in it, and must agree with the reported total. */
  lemma OpenAiUsageIsRead(input: U64, cached: Option<U64>, cacheWrite: Option<U64>, output: U64, total: U64)
    ensures
      var r := OpenAiInputUsage(input, cached, cacheWrite, output, total);
      && (r.Ok? <==> Reported(cached) + Reported(cacheWrite) <= input && total == input + output)
      && (r.Ok? ==>
            && r.value.total == input
            && r.value.cached == Reported(cached) && r.value.cacheCreation == Reported(cacheWrite))
  {
  }

  /** A count a provider leaves out is zero. */
  function Reported(count: Option<U64>): nat {
    match count
    case None => 0
    case Some(n) => n
  }

  /** Every usage either parser accepts meets the category precondition of pricing. */
  lemma ParsedUsageIsPriceable(
      price: Rates, base: U64, cacheCreation: Option<U64>, cached: Option<U64>, output: U64, total: U64)
    requires ValidRates(price)
    ensures
      var r := AnthropicInputUsage(base, cacheCreation, cached);
      r.Ok? ==>
        var c := CalculateApiCostMicros(price, r.value.total, r.value.cached, r.value.cacheCreation, output);
        c.Ok? || c == Err(CostExceedsU64)
    ensures
      var r := OpenAiInputUsage(base, cached, cacheCreation, output, total);
      r.Ok? ==>
        var c := CalculateApiCostMicros(price, r.value.total, r.value.cached, r.value.cacheCreation, output);
        c.Ok? || c == Err(CostExceedsU64)
  {
    var a := AnthropicInputUsage(base, cacheCreation, cached);
    if a.Ok? {
      ValidatedRatesNeverOverflow(price, a.value.total, a.value.cached, a.value.cacheCreation, output);
    }
    var o := OpenAiInputUsage(base, cached, cacheCreation, output, total);
    if o.Ok? {
      ValidatedRatesNeverOverflow(price, o.value.total, o.value.cached, o.value.cacheCreation, output);
    }
  }
}

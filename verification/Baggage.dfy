/** Excess-baggage arithmetic (src/baggage/baggage.service.ts) and the decimal columns that store it. */
module Baggage {
  import opened Domain

  datatype Config = Config(maxBaggageKg: real, excessFeePerKg: real)

  datatype FeeResult = FeeResult(
    weight: real,
    maxAllowedWeight: real,
    isOverweight: bool,
    excessWeight: real,
    excessFee: real)

  /** Math.round: the nearest integer, halves upwards. */
  function Round(x: real): int {
    (x + 0.5).Floor
  }

  function ToCents(x: real): real {
    Round(x * 100.0) as real / 100.0
  }

  ghost predicate TwoDecimals(x: real) {
    exists n: int :: IsCents(x, n)
  }

  predicate IsCents(x: real, n: int) {
    x * 100.0 == n as real
  }

  function Charge(excessWeight: real, feePerKg: real): real {
    ToCents(excessWeight * feePerKg)
  }

  function CalculateFee(config: Config, weight: real): FeeResult {
    var isOverweight := weight > config.maxBaggageKg;
    var excessWeight := if isOverweight then weight - config.maxBaggageKg else 0.0;
    FeeResult(
      weight,
      config.maxBaggageKg,
      isOverweight,
      ToCents(excessWeight),
      if isOverweight then Charge(excessWeight, config.excessFeePerKg) else 0.0)
  }

  /** A decimal column with two fractional digits: a non-negative value is rounded to cents, and rejected at `bound`. */
  function Numeric(x: real, bound: real): Option<real> {
    if ToCents(x) < bound then Some(ToCents(x)) else None
  }

  const WEIGHT_BOUND := 1000.0
  const FEE_BOUND := 100000000.0
}

/** What the excess-baggage fee means, and what storing weights to two decimals does to it. */
module Fees {
  import opened Baggage

  /** Rounding to cents gives the nearest value of two decimals, half a cent upwards. */
  lemma CentsRound(x: real)
    ensures IsCents(ToCents(x), Round(x * 100.0)) && TwoDecimals(ToCents(x))
    ensures ToCents(x) - 0.005 <= x < ToCents(x) + 0.005
  {
    assert IsCents(ToCents(x), Round(x * 100.0));
  }

  /** `c` is the cent nearest to `x`, half a cent upwards. */
  predicate Nearest(c: real, x: real) {
    c - 0.005 <= x < c + 0.005
  }

  lemma NearestCent(x: real, c: real)
    requires TwoDecimals(c)
    ensures ToCents(x) == c <==> Nearest(c, x)
  {
    var n :| IsCents(c, n);
    assert Round(x * 100.0) == n <==> -0.5 <= x * 100.0 - n as real < 0.5;
  }

  function Worth(kg: real, feePerKg: real): real {
    kg * feePerKg
  }

  /** The charge before it is rounded. */
  function Exact(config: Config, weight: real): real {
    if weight > config.maxBaggageKg then Worth(weight - config.maxBaggageKg, config.excessFeePerKg) else 0.0
  }

  lemma ChargeRounds(kg: real, feePerKg: real)
    ensures Charge(kg, feePerKg) == ToCents(Worth(kg, feePerKg))
  {
  }

  lemma FeeRoundsExact(config: Config, weight: real)
    ensures CalculateFee(config, weight).excessFee == ToCents(Exact(config, weight))
  {
    assert ToCents(0.0) == 0.0;
    ChargeRounds(weight - config.maxBaggageKg, config.excessFeePerKg);
  }

  /** The fee is the exact charge to the nearest cent, and nothing within the limit. */
  lemma FeeIsNearestCent(config: Config, weight: real)
    ensures var fee := CalculateFee(config, weight).excessFee;
      && TwoDecimals(fee) && Nearest(fee, Exact(config, weight))
      && if weight > config.maxBaggageKg then
           fee - 0.005 <= (weight - config.maxBaggageKg) * config.excessFeePerKg < fee + 0.005
         else fee == 0.0
    ensures var result := CalculateFee(config, weight);
      var excess := if weight > config.maxBaggageKg then weight - config.maxBaggageKg else 0.0;
      && (result.isOverweight <==> weight > config.maxBaggageKg)
      && result.weight == weight && result.maxAllowedWeight == config.maxBaggageKg
      && TwoDecimals(result.excessWeight) && result.excessWeight - 0.005 <= excess < result.excessWeight + 0.005
  {
    FeeRoundsExact(config, weight);
    CentsRound(Exact(config, weight));
    CentsRound(if weight > config.maxBaggageKg then weight - config.maxBaggageKg else 0.0);
    NearestCent(Exact(config, weight), CalculateFee(config, weight).excessFee);
  }

  lemma WorthMonotone(light: real, heavy: real, feePerKg: real)
    requires 0.0 <= light <= heavy && feePerKg >= 0.0
    ensures 0.0 <= Worth(light, feePerKg) <= Worth(heavy, feePerKg)
  {
  }

  lemma ExactMonotone(config: Config, light: real, heavy: real)
    requires light <= heavy && config.excessFeePerKg >= 0.0
    ensures Exact(config, light) <= Exact(config, heavy)
  {
    if heavy > config.maxBaggageKg {
      var kg := if light > config.maxBaggageKg then light - config.maxBaggageKg else 0.0;
      WorthMonotone(kg, heavy - config.maxBaggageKg, config.excessFeePerKg);
    }
  }

  lemma CentsMonotone(x: real, y: real)
    requires x <= y
    ensures ToCents(x) <= ToCents(y)
  {
    assert Round(x * 100.0) <= Round(y * 100.0);
  }

  /** A heavier bag never costs less. */
  lemma FeeMonotone(config: Config, light: real, heavy: real)
    requires light <= heavy && config.excessFeePerKg >= 0.0
    ensures CalculateFee(config, light).excessFee <= CalculateFee(config, heavy).excessFee
  {
    ExactMonotone(config, light, heavy);
    FeeRoundsExact(config, light);
    FeeRoundsExact(config, heavy);
    CentsMonotone(Exact(config, light), Exact(config, heavy));
  }

  /** The fee charged is that of the weight stored. */
  predicate SameFee(config: Config, declared: real) {
    CalculateFee(config, declared).excessFee == CalculateFee(config, ToCents(declared)).excessFee
  }

  /**
   * The column rounds the declared weight to hundredths of a kilogram, but the fee is charged on the declared
   * weight.  It is the stored weight's fee exactly when that fee is the cent nearest to the declared weight's charge.
   */
  lemma StoredFeeExact(config: Config, declared: real)
    ensures SameFee(config, declared) <==>
      Nearest(CalculateFee(config, ToCents(declared)).excessFee, Exact(config, declared))
  {
    FeeRoundsExact(config, declared);
    FeeIsNearestCent(config, ToCents(declared));
    NearestCent(Exact(config, declared), CalculateFee(config, ToCents(declared)).excessFee);
  }

  /** Rounding to cents does not cross a value of two decimals. */
  lemma RoundKeepsSide(x: real, limit: real)
    requires TwoDecimals(limit)
    ensures x <= limit ==> ToCents(x) <= limit
    ensures x > limit ==> ToCents(x) >= limit
  {
    var n :| IsCents(limit, n);
    assert x <= limit ==> Round(x * 100.0) <= n;
    assert x > limit ==> Round(x * 100.0) >= n;
  }

  /** A weight stored over the limit was always declared over it, exactly when the limit is not rounded up itself. */
  lemma StoredOverLimit(limit: real)
    ensures (forall w :: ToCents(w) > limit ==> w > limit) <==> ToCents(limit) <= limit
  {
    if ToCents(limit) <= limit {
      forall w | w <= limit
        ensures ToCents(w) <= limit
      {
        CentsMonotone(w, limit);
      }
    }
  }

  // ---- Limits of two decimals and whole fees, as the defaults are ----

  ghost predicate WholeFees(config: Config) {
    TwoDecimals(config.maxBaggageKg) && config.excessFeePerKg == config.excessFeePerKg.Floor as real
  }

  /** The excess of a stored weight is charged without rounding. */
  lemma WholeCharge(config: Config, stored: real)
    requires WholeFees(config) && TwoDecimals(stored)
    requires stored >= config.maxBaggageKg
    ensures CalculateFee(config, stored).excessFee == Worth(stored - config.maxBaggageKg, config.excessFeePerKg)
  {
    var n :| IsCents(config.maxBaggageKg, n);
    var s :| IsCents(stored, s);
    var due := Worth(stored - config.maxBaggageKg, config.excessFeePerKg);
    ScaleCents(stored - config.maxBaggageKg, s - n, config.excessFeePerKg.Floor);
    NearestCent(due, due);
    FeeRoundsExact(config, stored);
    assert stored == config.maxBaggageKg ==> due == 0.0;
  }

  lemma ScaleCents(x: real, c: int, k: int)
    requires IsCents(x, c)
    ensures IsCents(Worth(x, k as real), c * k)
  {
    assert x * (k as real) * 100.0 == (x * 100.0) * (k as real);
    assert (c as real) * (k as real) == (c * k) as real;
  }

  lemma Distribute(x: real, y: real, r: real)
    ensures Worth(x + y, r) == Worth(x, r) + Worth(y, r)
  {
  }

  /** Then the condition is that the rounded-off part of a kilogram is worth less than half a cent. */
  lemma WholeFeeExact(config: Config, declared: real)
    requires WholeFees(config)
    ensures SameFee(config, declared) <==>
      declared <= config.maxBaggageKg || Nearest(0.0, Worth(declared - ToCents(declared), config.excessFeePerKg))
  {
    var limit, rate, stored := config.maxBaggageKg, config.excessFeePerKg, ToCents(declared);
    CentsRound(declared);
    RoundKeepsSide(declared, limit);
    StoredFeeExact(config, declared);
    if declared > limit {
      WholeCharge(config, stored);
      Distribute(stored - limit, declared - stored, rate);
      assert (stored - limit) + (declared - stored) == declared - limit;
    }
  }

  // ---- The declared and the stored weight ----

  lemma CentsFixed(x: real)
    requires TwoDecimals(x)
    ensures ToCents(x) == x
  {
    NearestCent(x, x);
  }

  lemma ChargedExactly(config: Config, declared: real)
    ensures TwoDecimals(declared) ==> SameFee(config, declared)
    ensures WholeFees(config) ==>
      (SameFee(config, declared) <==>
         declared <= config.maxBaggageKg || Nearest(0.0, Worth(declared - ToCents(declared), config.excessFeePerKg)))
  {
    if TwoDecimals(declared) {
      CentsFixed(declared);
    }
    if WholeFees(config) {
      WholeFeeExact(config, declared);
    }
  }
}

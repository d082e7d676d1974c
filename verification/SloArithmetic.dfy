/** Exact parts-per-million arithmetic on 64-bit words with 128-bit products. */
module SloArithmetic {
  import opened SloTypes

  const WORD := 0x1_0000_0000_0000_0000

  type uint64 = x: int | 0 <= x < 0x1_0000_0000_0000_0000
  type uint32 = x: int | 0 <= x < 0x1_0000_0000

  /** bits.Mul64: the high and the low word of the product. */
  function Mul64(x: uint64, y: uint64): (r: (uint64, uint64))
    ensures r.0 * WORD + r.1 == x * y
  {
    ProductFits(x, y);
    (x * y / WORD, x * y % WORD)
  }

  lemma {:induction false} ProductFits(x: uint64, y: uint64)
    ensures 0 <= x * y / WORD < WORD
  {
    assert 0 <= x * y <= (WORD - 1) * (WORD - 1) by {
      MulMonotone(x, WORD - 1, y);
      MulMonotone(y, WORD - 1, WORD - 1);
    }
  }

  lemma {:induction false} MulMonotone(a: int, b: int, c: int)
    requires a <= b && 0 <= c
    ensures a * c <= b * c
    ensures 0 <= a ==> 0 <= a * c
  {
    assert (b - a) * c >= 0;
  }

  /** bits.Div64 traps exactly when its divisor is at most the high word. */
  predicate Traps(high: uint64, divisor: uint64) { divisor <= high }

  function Div64(high: uint64, low: uint64, divisor: uint64): (quotient: uint64)
    requires !Traps(high, divisor)
    ensures quotient * divisor <= high * WORD + low < (quotient + 1) * divisor
  {
    QuotientFits(high, low, divisor);
    (high * WORD + low) / divisor
  }

  lemma {:induction false} QuotientFits(high: uint64, low: uint64, divisor: uint64)
    requires high < divisor
    ensures 0 <= (high * WORD + low) / divisor < WORD
    ensures var q := (high * WORD + low) / divisor; q * divisor <= high * WORD + low < (q + 1) * divisor
  {
    var n := high * WORD + low;
    DivBounds(n, divisor);
    var q := n / divisor;
    if q >= WORD {
      MulMonotone(WORD, q, divisor);
    }
  }

  lemma {:induction false} DivBounds(n: nat, d: nat)
    requires d > 0
    ensures 0 <= n / d && (n / d) * d <= n < (n / d + 1) * d
  {
    assert n == (n / d) * d + n % d;
    assert (n / d + 1) * d == (n / d) * d + d;
  }

  /** The failure budget's multiplication never makes the division trap, for any 64-bit count. */
  lemma {:induction false} BudgetDivisionSafe(eligible: uint64, rate: uint32)
    requires rate <= PPM
    ensures !Traps(Mul64(eligible, rate).0, PPM)
  {
    var (high, low) := Mul64(eligible, rate);
    MulMonotone(rate, PPM, eligible);
    if high >= PPM {
      MulMonotone(PPM, high, WORD);
    }
  }

  /** The availability ratio's division never traps when there is a sample and successes are samples. */
  lemma {:induction false} RatioDivisionSafe(successful: uint64, eligible: uint64)
    requires 0 < eligible && successful <= eligible
    ensures !Traps(Mul64(successful, PPM).0, eligible)
  {
    var (high, low) := Mul64(successful, PPM);
    MulMonotone(successful, eligible, PPM);
    if high >= eligible {
      MulMonotone(eligible, high, WORD);
    }
  }

  function AllowedFailures(eligible: uint64, rate: uint32): (allowed: uint64)
    requires rate <= PPM
    ensures allowed * PPM <= eligible * rate < (allowed + 1) * PPM
    ensures allowed <= eligible
  {
    BudgetDivisionSafe(eligible, rate);
    var (high, low) := Mul64(eligible, rate);
    var allowed := Div64(high, low, PPM);
    AllowedWithin(eligible, rate, allowed);
    allowed
  }

  lemma {:induction false} AllowedWithin(eligible: nat, rate: nat, allowed: int)
    requires rate <= PPM && allowed * PPM <= eligible * rate
    ensures allowed <= eligible
  {
    MulMonotone(rate, PPM, eligible);
    assert rate * eligible == eligible * rate;
  }

  function RatioPPM(successful: uint64, eligible: uint64): (ratio: uint64)
    requires 0 < eligible && successful <= eligible
    ensures ratio * eligible <= successful * PPM < (ratio + 1) * eligible
    ensures ratio <= PPM
  {
    RatioDivisionSafe(successful, eligible);
    var (high, low) := Mul64(successful, PPM);
    var ratio := Div64(high, low, eligible);
    RatioWithin(successful, eligible, ratio);
    ratio
  }

  lemma {:induction false} RatioWithin(successful: nat, eligible: nat, ratio: nat)
    requires 0 < eligible && successful <= eligible && ratio * eligible <= successful * PPM
    ensures ratio <= PPM
  {
    MulMonotone(successful, eligible, PPM);
    if ratio > PPM {
      MulMonotone(PPM + 1, ratio, eligible);
    }
  }

  lemma {:induction false} ExceedsQuotient(x: int, q: int, d: int, n: int)
    requires d > 0 && q * d <= n < (q + 1) * d
    ensures x > q <==> x * d > n
  {
    if x > q {
      MulMonotone(q + 1, x, d);
    } else {
      MulMonotone(x, q, d);
    }
  }

  /** Exhausting the budget, overrunning the exact rate and reporting too low an availability are one event. */
  lemma {:induction false} BudgetExact(eligible: uint64, successful: uint64, failed: uint64, rate: uint32)
    requires rate <= PPM && 0 < eligible && eligible == successful + failed
    ensures failed > AllowedFailures(eligible, rate) <==> failed * PPM > eligible * rate
    ensures failed * PPM > eligible * rate <==> RatioPPM(successful, eligible) < PPM - rate
  {
    ExceedsQuotient(failed, AllowedFailures(eligible, rate), PPM, eligible * rate);
    ExceedsQuotient(PPM - rate, RatioPPM(successful, eligible), eligible, successful * PPM);
    assert (PPM - rate) * eligible == eligible * PPM - eligible * rate;
  }

  /** Without a sample the budget is empty and nothing can exhaust it. */
  lemma {:induction false} EmptyBudget(rate: uint32)
    requires rate <= PPM
    ensures AllowedFailures(0, rate) == 0
  {
    var allowed := AllowedFailures(0, rate);
  }
}

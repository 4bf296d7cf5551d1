/**
 Rounding of monetary values to integer minor units.

 `usd_minor` and `usdc_minor` quantise an exact decimal with ROUND_HALF_UP, which rounds a tie away
 from zero; decimals are modelled as exact reals.
 */
module Money {

  const MINOR_PER_CENT := 10_000

  function RoundHalfUp(x: real): int {
    if x >= 0.0 then (x + 0.5).Floor else -((0.5 - x).Floor)
  }

  function UsdMinor(x: real): int {
    RoundHalfUp(x * 100.0)
  }

  function UsdAmount(x: real): real {
    UsdMinor(x) as real / 100.0
  }

  function UsdcMinor(x: real): int {
    RoundHalfUp(x * 1_000_000.0)
  }

  function Abs(x: real): real {
    if x >= 0.0 then x else -x
  }

  /** Rounding is to the nearest integer, and a tie goes to the candidate further from zero. */
  lemma RoundsToNearest(x: real, n: int)
    ensures Abs(RoundHalfUp(x) as real - x) <= Abs(n as real - x)
    ensures Abs(RoundHalfUp(x) as real - x) == Abs(n as real - x) && n != RoundHalfUp(x)
            ==> Abs(n as real) < Abs(RoundHalfUp(x) as real)
  {
    var r := RoundHalfUp(x);
    if x >= 0.0 {
      assert r as real <= x + 0.5 < r as real + 1.0;
    } else {
      assert -r as real <= 0.5 - x < -r as real + 1.0;
    }
    if n < r {
      assert n as real <= r as real - 1.0;
    } else if n > r {
      assert n as real >= r as real + 1.0;
    }
  }

  /** Whole cents survive every conversion: to dollars and back, and from dollars to chain units. */
  lemma CentsRoundTrip(cents: int)
    ensures UsdMinor(cents as real / 100.0) == cents
    ensures UsdAmount(UsdAmount(cents as real / 100.0)) == cents as real / 100.0
    ensures UsdcMinor(cents as real / 100.0) == cents * MINOR_PER_CENT
  {
    RoundHalfUpOfInteger(cents);
    RoundHalfUpOfInteger(cents * MINOR_PER_CENT);
    assert cents as real / 100.0 * 100.0 == cents as real;
    assert cents as real / 100.0 * 1_000_000.0 == (cents * MINOR_PER_CENT) as real;
  }

  lemma RoundHalfUpOfInteger(n: int)
    ensures RoundHalfUp(n as real) == n
  {
    if n >= 0 {
      assert (n as real + 0.5).Floor == n;
    } else {
      assert (0.5 - n as real).Floor == -n;
    }
  }

  /** `quote_usd`, in cents: the job's own positive price, or a price derived from its fit. */
  function QuoteCents(price: real, fit: real): int {
    if UsdMinor(price) > 0 then UsdMinor(price)
    else
      var f := if fit == 0.0 then 0.5 else fit;
      UsdMinor(450.0 + f * 900.0)
  }
}

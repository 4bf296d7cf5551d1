/**
 What each strategy's position at a bar means in terms of the closes themselves, and what a certified bar earns.
 */
module Signals {
  import opened Tables
  import opened Money
  import opened Indicators
  import opened Strategies
  import opened WalkForward

  // ---- Windows and their moments -----------------------------------------------------------

  /** The mean of the last `n` values up to and including bar `k`. */
  function WindowMean(x: seq<real>, n: nat, k: nat): real
    requires 0 < n <= k + 1 <= |x|
  {
    Sum(x[k + 1 - n..k + 1]) / (n as real)
  }

  function Squares(x: seq<real>): seq<real> {
    seq(|x|, i requires 0 <= i < |x| => Square(x[i]))
  }

  lemma SquaresOfPrefix(x: seq<real>)
    requires x != []
    ensures Sum(Squares(x)) == Sum(Squares(x[..|x| - 1])) + Square(x[|x| - 1])
  {
    hide Square;
    assert Squares(x)[..|x| - 1] == Squares(x[..|x| - 1]);
  }

  /** Sample variance from the first two moments. */
  function Variance(x: seq<real>): real
    requires |x| > 1
  {
    (Sum(Squares(x)) - Sum(x) * Sum(x) / (|x| as real)) / ((|x| - 1) as real)
  }

  /** The sum of squared distances from `mean`, out of count, sum and sum of squares. */
  function FromMoments(n: real, sum: real, squares: real, mean: real): real {
    squares - 2.0 * mean * sum + n * mean * mean
  }

  lemma {:induction false} DeviationsFromMoments(x: seq<real>, mean: real)
    ensures SquaredDeviations(x, mean) == FromMoments(|x| as real, Sum(x), Sum(Squares(x)), mean)
  {
    if x == [] {
      assert Squares(x) == [];
    } else {
      hide Squares, Square, FromMoments;
      var n, last := |x| - 1, x[|x| - 1];
      DeviationsFromMoments(x[..n], mean);
      SquaresOfPrefix(x);
      OneMoreValue(n as real, Sum(x[..n]), Sum(Squares(x[..n])), last, mean);
    }
  }

  /** The moments with one more value. */
  lemma OneMoreValue(n: real, sum: real, squares: real, last: real, mean: real)
    ensures FromMoments(n, sum, squares, mean) + Square(last - mean)
            == FromMoments(n + 1.0, sum + last, squares + Square(last), mean)
  {
    SquareOfDifference(last, mean);
    Distribute(mean, sum, last, n);
  }

  lemma SquareOfDifference(a: real, b: real)
    ensures (a - b) * (a - b) == Square(a) - 2.0 * b * a + b * b
  {}

  lemma Distribute(mean: real, sum: real, last: real, n: real)
    ensures 2.0 * mean * (sum + last) == 2.0 * mean * sum + 2.0 * mean * last
    ensures (n + 1.0) * mean * mean == n * mean * mean + mean * mean
  {}

  /** The deviations `np.std` sums are those moments. */
  lemma StdFromMoments(math: Math, x: seq<real>)
    requires |x| > 1
    ensures Std(math, Numbers(x)) == Some(math.sqrt(Variance(x)))
  {
    hide Sum, SquaredDeviations;
    var n := |x| as real;
    var mean := Sum(x) / n;
    assert Values(Numbers(x)) == x;
    DeviationsFromMoments(x, mean);
    MeanCancels(Sum(x), n, mean);
    assert SquaredDeviations(x, mean) == Sum(Squares(x)) - Sum(x) * Sum(x) / n;
  }

  lemma MeanCancels(sum: real, n: real, mean: real)
    requires n > 0.0 && mean == sum / n
    ensures 2.0 * mean * sum - n * mean * mean == sum * sum / n
  {
    assert n * mean == sum;
    assert n * mean * mean == sum * mean;
    Quotient(sum * sum, n, mean * sum);
  }

  // ---- Returns -----------------------------------------------------------------------------

  function Floor12(price: real): real {
    if price >= 0.000000000001 then price else 0.000000000001
  }

  /** The log return of a bar that has one before it. */
  function LogChange(math: Math, close: seq<real>, i: nat): real
    requires 0 < i < |close|
  {
    math.log(Floor12(close[i])) - math.log(Floor12(close[i - 1]))
  }

  /** The log returns of the last `n` bars up to and including bar `k`. */
  function LogChanges(math: Math, close: seq<real>, n: nat, k: nat): (r: seq<real>)
    requires n <= k < |close|
    ensures |r| == n
  {
    seq(n, i requires 0 <= i < n => LogChange(math, close, k + 1 - n + i))
  }

  lemma WindowOfReturns(math: Math, close: seq<real>, n: nat, k: nat)
    requires 0 < n <= k < |close|
    ensures LogReturns(math, close)[k + 1 - n..k + 1] == LogChanges(math, close, n, k)
    ensures WithoutFirst(LogReturns(math, close))[k + 1 - n..k + 1] == Numbers(LogChanges(math, close, n, k))
    ensures Numbers(LogReturns(math, close))[k + 1 - n..k + 1] == Numbers(LogChanges(math, close, n, k))
  {
    hide LogChange;
    var r, changes := LogReturns(math, close), LogChanges(math, close, n, k);
    forall i | 0 <= i < n ensures r[k + 1 - n + i] == changes[i] {
      ReturnIsChange(math, close, k + 1 - n + i);
    }
  }

  lemma ReturnIsChange(math: Math, close: seq<real>, i: nat)
    requires 0 < i < |close|
    ensures LogReturns(math, close)[i] == LogChange(math, close, i)
  {}

  // ---- Positions ---------------------------------------------------------------------------

  /** Long while the fast mean is above the slow one, flat otherwise and while warming up. */
  lemma DualMAExactly(math: Math, fast: nat, slow: nat, close: seq<real>, k: nat)
    requires k < |close| && 0 < fast && 0 < slow
    ensures var position := Positions(math, DualMA(fast, slow), close)[k];
            position == if k >= slow && fast <= k + 1 && WindowMean(close, fast, k) > WindowMean(close, slow, k) then 1.0 else 0.0
  {
    hide Sum, RollingMean;
    RollingMeanIsWindowMean(close, fast, k);
    RollingMeanIsWindowMean(close, slow, k);
  }

  lemma CompareQuotient(n: real, d: real, e: real)
    requires d > 0.0
    ensures n / d > e <==> n > e * d
    ensures n / d < e <==> n < e * d
  {
    var q := n / d;
    assert q * d == n;
    if q > e {
      assert (q - e) * d > 0.0;
    } else if q < e {
      assert (e - q) * d > 0.0;
    }
  }

  /** Annualised volatility, with the floor that keeps it off zero. */
  function Annualised(math: Math, vol: real, periods: nat): real {
    vol * math.sqrt(periods as real) + 0.00000001
  }

  /** How much a momentum position weighs: target volatility over realised, never more than two. */
  function Weight(targetVol: real, divisor: real): real
    requires divisor > 0.0
  {
    if targetVol >= 2.0 * divisor then 2.0 else targetVol / divisor
  }

  lemma ClipIsWeight(targetVol: real, divisor: real)
    requires targetVol > 0.0 && divisor > 0.0
    ensures Clip(targetVol / divisor) == Weight(targetVol, divisor)
    ensures 0.0 < Weight(targetVol, divisor) <= 2.0
  {
    CompareQuotient(targetVol, divisor, 0.0);
    CompareQuotient(targetVol, divisor, 2.0);
  }

  lemma AnnualisedIsDivisor(math: Math, vol: real, periods: nat)
    ensures Annualised(math, vol, periods) == Divisor(math, periods, vol)
  {}

  lemma WeightIsLeverage(math: Math, targetVol: real, periods: nat, vol: real)
    requires targetVol > 0.0 && Annualised(math, vol, periods) > 0.0
    ensures var weight := Weight(targetVol, Annualised(math, vol, periods));
            0.0 < weight <= 2.0 && Leverage(math, targetVol, periods, Some(vol)) == Some(weight)
  {
    hide Weight, Clip, Divisor, Annualised;
    AnnualisedIsDivisor(math, vol, periods);
    ClipIsWeight(targetVol, Annualised(math, vol, periods));
  }

  lemma MomentumMeans(math: Math, s: Strategy, price: real, mean: real, vol: real)
    requires s.Momentum? && 0.0 < s.targetVol && Annualised(math, vol, s.periods) > 0.0
    ensures var weight := Weight(s.targetVol, Annualised(math, vol, s.periods));
            && 0.0 < weight <= 2.0
            && MomentumAt(math, s, price, Some(mean), Some(vol))
               == if price > mean then weight else if s.allowShort then -weight else 0.0
  {
    hide Leverage, Weight, Annualised;
    WeightIsLeverage(math, s.targetVol, s.periods, vol);
  }

  lemma WarmMomentum(math: Math, s: Strategy, close: seq<real>, k: nat)
    requires s.Momentum? && k < |close| && 0 < s.lookback <= k && 1 < s.volLookback <= k
    ensures Positions(math, s, close)[k]
            == MomentumAt(math, s, close[k], Some(WindowMean(close, s.lookback, k)),
                          Some(math.sqrt(Variance(LogChanges(math, close, s.volLookback, k)))))
  {
    hide Sum, RollingMean, Variance, Std, MomentumAt, LogReturns;
    RollingMeanIsWindowMean(close, s.lookback, k);
    WindowOfReturns(math, close, s.volLookback, k);
    StdFromMoments(math, LogChanges(math, close, s.volLookback, k));
  }

  /**
   A warm momentum bar is long exactly when its close exceeds the mean of its last closes, and otherwise flat, or short
   where shorting is allowed; its size is the target over the annualised volatility of the last log returns, at most
   two. Warm-up bars are flat.
   */
  lemma MomentumExactly(math: Math, s: Strategy, close: seq<real>, k: nat)
    requires s.Momentum? && k < |close| && 0 < s.lookback && 1 < s.volLookback && 0.0 < s.targetVol
    ensures k < s.lookback || k < s.volLookback ==> Positions(math, s, close)[k] == 0.0
    ensures k >= s.lookback && k >= s.volLookback ==>
              var position := Positions(math, s, close)[k];
              var vol := math.sqrt(Variance(LogChanges(math, close, s.volLookback, k)));
              var divisor := Annualised(math, vol, s.periods);
              divisor > 0.0 ==>
                var weight := Weight(s.targetVol, divisor);
                && 0.0 < weight <= 2.0
                && (position > 0.0 <==> close[k] > WindowMean(close, s.lookback, k))
                && position == if close[k] > WindowMean(close, s.lookback, k) then weight
                               else if s.allowShort then -weight else 0.0
  {
    hide Positions, WindowMean, Variance, LogChanges, MomentumAt, Weight, Annualised;
    if k >= s.lookback && k >= s.volLookback {
      WarmMomentum(math, s, close, k);
      var vol := math.sqrt(Variance(LogChanges(math, close, s.volLookback, k)));
      if Annualised(math, vol, s.periods) > 0.0 {
        MomentumMeans(math, s, close[k], WindowMean(close, s.lookback, k), vol);
      }
    } else {
      ColdMomentum(math, s, close, k);
    }
  }

  lemma ColdMomentum(math: Math, s: Strategy, close: seq<real>, k: nat)
    requires s.Momentum? && k < |close| && (k < s.lookback || k < s.volLookback)
    ensures Positions(math, s, close)[k] == 0.0
  {
    hide RollingMean, RollingStd, MomentumAt;
  }

  lemma FadeMeans(entry: real, r: real, mean: real, std: real)
    requires std + 0.000000000001 > 0.0
    ensures var width := std + 0.000000000001;
            ReversionAt(entry, r, Some(mean), Some(std))
            == if r > mean + entry * width then -1.0 else if r < mean - entry * width then 1.0 else 0.0
  {
    var width := std + 0.000000000001;
    CompareQuotient(r - mean, width, entry);
    CompareQuotient(r - mean, width, -entry);
    assert (-entry) * width == -(entry * width);
  }

  /**
   Mean reversion fades a return that lies more than `entry` deviations from the mean of the last ones: short above,
   long below, flat within and while warming up.
   */
  lemma ReversionExactly(math: Math, lookback: nat, entry: real, close: seq<real>, k: nat)
    requires k < |close| && 1 < lookback
    ensures k < lookback ==> Positions(math, MeanReversion(lookback, entry), close)[k] == 0.0
    ensures k >= lookback ==>
              var position := Positions(math, MeanReversion(lookback, entry), close)[k];
              var changes := LogChanges(math, close, lookback, k);
              var mean := Sum(changes) / (lookback as real);
              var width := math.sqrt(Variance(changes)) + 0.000000000001;
              width > 0.0 ==>
                position == if LogChange(math, close, k) > mean + entry * width then -1.0
                            else if LogChange(math, close, k) < mean - entry * width then 1.0 else 0.0
  {
    hide Sum, RollingMean, Variance, Std, ReversionAt, LogChange, LogReturns;
    if k >= lookback {
      var r := LogReturns(math, close);
      RollingMeanIsWindowMean(r, lookback, k);
      WindowOfReturns(math, close, lookback, k);
      ReturnIsChange(math, close, k);
      var changes := LogChanges(math, close, lookback, k);
      StdFromMoments(math, changes);
      var std, mean := math.sqrt(Variance(changes)), Sum(changes) / (lookback as real);
      if std + 0.000000000001 > 0.0 {
        FadeMeans(entry, r[k], mean, std);
      }
    }
  }

  // ---- What a certified bar earns ----------------------------------------------------------

  /**
   A bar evaluated out of sample, `train + k` in the window that starts at `w`, holds what the strategy decided at the
   bar before from the closes of that window, and earns that position times the bar's relative price change, less half
   a round trip per unit it moved.
   */
  lemma CertifiedBarExactly(c: Setup, close: seq<real>, w: nat, k: nat) returns (cost: real)
    requires 0 < c.train && 0 < c.test && w % c.test == 0 && w <= k < w + c.test && w + c.train + c.test <= |close|
    ensures OutOfSample(c, close, k)
    ensures var t := c.train + k - w; var decided := Positions(c.math, c.strategy, close[w..w + c.train + c.test]);
            && HeldAt(c, close, k) == decided[t - 1]
            && NetAt(c, close, k)
               == decided[t - 1] * ((close[w + t] - close[w + t - 1]) / Floor12(close[w + t - 1])) - cost
            && 2.0 * cost == Abs(decided[t - 1] - (if t > 1 then decided[t - 2] else 0.0)) * c.roundTrip
  {
    hide Positions, HeldPositions, Net, Returns, Start;
    PieceIsItsBars(c, close, w, k);
    var slice := Slice(c, close, w);
    cost := BarEarns(Positions(c.math, c.strategy, slice), slice, c.roundTrip, c.train + (k - w));
  }

  lemma BarEarns(decided: seq<real>, slice: seq<real>, roundTrip: real, t: nat) returns (cost: real)
    requires |decided| == |slice| && 0 < t < |slice|
    ensures HeldPositions(decided, 1)[t] == decided[t - 1]
    ensures Net(HeldPositions(decided, 1), Returns(slice), roundTrip)[t]
            == decided[t - 1] * ((slice[t] - slice[t - 1]) / Floor12(slice[t - 1])) - cost
    ensures 2.0 * cost == Abs(decided[t - 1] - (if t > 1 then decided[t - 2] else 0.0)) * roundTrip
  {
    hide Cost, Abs;
    var held := HeldPositions(decided, 1);
    var move := Abs(held[t] - Indicators.Before(held, t));
    cost := Cost(move, roundTrip);
    CostIsLinear(move, roundTrip);
  }
}

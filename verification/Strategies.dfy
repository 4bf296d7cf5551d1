/**
 The trading strategies' positions, and the proof that none of them looks ahead.
 */
module Strategies {
  import opened Tables
  import opened Indicators

  const VOL_FLOOR := 0.00000001
  const MAX_LEVERAGE := 2.0

  datatype Strategy =
    | DualMA(fast: nat, slow: nat)
    | Momentum(lookback: nat, volLookback: nat, targetVol: real, periods: nat, allowShort: bool)
    | MeanReversion(lookback: nat, entry: real)

  predicate Above(a: Num, b: Num) {
    a.Some? && b.Some? && a.value > b.value
  }

  function LogPrice(math: Math, price: real): real {
    math.log(Max(price, TINY))
  }

  /** Log return of each bar; the first is NaN for one strategy and zero for the other. */
  function LogReturns(math: Math, close: seq<real>): (r: seq<real>)
    ensures |r| == |close|
  {
    seq(|close|, k requires 0 <= k < |close| =>
      if k == 0 then 0.0 else LogPrice(math, close[k]) - LogPrice(math, close[k - 1]))
  }

  function Numbers(x: seq<real>): (w: seq<Num>)
    ensures |w| == |x|
  {
    seq(|x|, k requires 0 <= k < |x| => Some(x[k]))
  }

  function WithoutFirst(x: seq<real>): (w: seq<Num>)
    ensures |w| == |x|
  {
    seq(|x|, k requires 0 <= k < |x| => if k == 0 then None else Some(x[k]))
  }

  /** Annualised volatility plus the floor that keeps the divisor off zero. */
  function Divisor(math: Math, periods: nat, vol: real): real {
    vol * math.sqrt(periods as real) + VOL_FLOOR
  }

  function Clip(raw: real): real {
    if raw < 0.0 then 0.0 else if raw > MAX_LEVERAGE then MAX_LEVERAGE else raw
  }

  /** Inverse-volatility sizing, clipped; NaN when the volatility is. */
  function Leverage(math: Math, targetVol: real, periods: nat, vol: Num): Num {
    if vol.None? || Divisor(math, periods, vol.value) == 0.0 then None
    else Some(Clip(targetVol / Divisor(math, periods, vol.value)))
  }

  function MomentumAt(math: Math, s: Strategy, price: real, mean: Num, vol: Num): real
    requires s.Momentum?
  {
    var signal := if Above(Some(price), mean) then 1.0 else if s.allowShort then -1.0 else 0.0;
    var leverage := Leverage(math, s.targetVol, s.periods, vol);
    if leverage.None? then 0.0 else signal * leverage.value
  }

  function ReversionAt(entry: real, r: real, mean: Num, std: Num): real {
    if mean.None? || std.None? || std.value + TINY == 0.0 then 0.0
    else
      var z := (r - mean.value) / (std.value + TINY);
      if z > entry then -1.0 else if z < -entry then 1.0 else 0.0
  }

  function Larger(a: nat, b: nat): nat {
    if a >= b then a else b
  }

  /** `positions`, bar by bar; the warm-up bars are flat. */
  function Positions(math: Math, s: Strategy, close: seq<real>): (p: seq<real>)
    ensures |p| == |close|
  {
    match s
    case DualMA(fast, slow) =>
      var f, m := RollingMean(close, fast), RollingMean(close, slow);
      seq(|close|, k requires 0 <= k < |close| => if k >= slow && Above(f[k], m[k]) then 1.0 else 0.0)
    case Momentum(lookback, volLookback, _, _, _) =>
      var mean := RollingMean(close, lookback);
      var vol := RollingStd(math, WithoutFirst(LogReturns(math, close)), volLookback);
      seq(|close|, k requires 0 <= k < |close| =>
        if k < Larger(lookback, volLookback) then 0.0 else MomentumAt(math, s, close[k], mean[k], vol[k]))
    case MeanReversion(lookback, entry) =>
      var r := LogReturns(math, close);
      var mean, std := RollingMean(r, lookback), RollingStd(math, Numbers(r), lookback);
      seq(|close|, k requires 0 <= k < |close| =>
        if k < lookback then 0.0 else ReversionAt(entry, r[k], mean[k], std[k]))
  }

  // ---- No look-ahead -----------------------------------------------------------------------

  /** Two series of one length that agree up to and including bar `k`. */
  predicate Agree<T(==)>(a: seq<T>, b: seq<T>, k: nat) {
    |a| == |b| && k < |a| && a[..k + 1] == b[..k + 1]
  }

  lemma AgreeAt<T>(a: seq<T>, b: seq<T>, k: nat, i: nat)
    requires Agree(a, b, k) && i <= k
    ensures a[i] == b[i]
  {
    assert a[..k + 1][i] == b[..k + 1][i];
  }

  lemma AgreeWindow<T>(a: seq<T>, b: seq<T>, k: nat, i: nat)
    requires Agree(a, b, k) && i <= k + 1
    ensures a[i..k + 1] == b[i..k + 1]
  {
    assert a[i..k + 1] == a[..k + 1][i..] && b[i..k + 1] == b[..k + 1][i..];
  }

  lemma MeanCausal(a: seq<real>, b: seq<real>, n: nat, k: nat)
    requires Agree(a, b, k)
    ensures RollingMean(a, n)[k] == RollingMean(b, n)[k]
  {
    hide Sum, RollingMean;
    RollingMeanIsWindowMean(a, n, k);
    RollingMeanIsWindowMean(b, n, k);
    if 0 < n <= k + 1 {
      AgreeWindow(a, b, k, k + 1 - n);
    }
  }

  lemma StdCausal(math: Math, a: seq<Num>, b: seq<Num>, n: nat, k: nat)
    requires Agree(a, b, k)
    ensures RollingStd(math, a, n)[k] == RollingStd(math, b, n)[k]
  {
    hide Std;
    if 0 < n <= k + 1 {
      AgreeWindow(a, b, k, k + 1 - n);
    }
  }

  lemma LogReturnsCausal(math: Math, a: seq<real>, b: seq<real>, k: nat)
    requires Agree(a, b, k)
    ensures Agree(LogReturns(math, a), LogReturns(math, b), k)
    ensures Agree(WithoutFirst(LogReturns(math, a)), WithoutFirst(LogReturns(math, b)), k)
    ensures Agree(Numbers(LogReturns(math, a)), Numbers(LogReturns(math, b)), k)
  {
    hide LogPrice;
    forall i | 0 <= i <= k ensures LogReturns(math, a)[i] == LogReturns(math, b)[i] {
      AgreeAt(a, b, k, i);
      if i > 0 {
        AgreeAt(a, b, k, i - 1);
      }
    }
  }

  /** The position decided at bar `k` depends only on prices up to bar `k`. */
  lemma PositionsCausal(math: Math, s: Strategy, a: seq<real>, b: seq<real>, k: nat)
    requires Agree(a, b, k)
    ensures Positions(math, s, a)[k] == Positions(math, s, b)[k]
  {
    hide RollingMean, RollingStd, LogReturns, MomentumAt, ReversionAt;
    AgreeAt(a, b, k, k);
    LogReturnsCausal(math, a, b, k);
    AgreeAt(LogReturns(math, a), LogReturns(math, b), k, k);
    match s {
      case DualMA(fast, slow) =>
        MeanCausal(a, b, fast, k);
        MeanCausal(a, b, slow, k);
      case Momentum(lookback, volLookback, _, _, _) =>
        MeanCausal(a, b, lookback, k);
        StdCausal(math, WithoutFirst(LogReturns(math, a)), WithoutFirst(LogReturns(math, b)), volLookback, k);
      case MeanReversion(lookback, _) =>
        MeanCausal(LogReturns(math, a), LogReturns(math, b), lookback, k);
        StdCausal(math, Numbers(LogReturns(math, a)), Numbers(LogReturns(math, b)), lookback, k);
    }
  }

  /**
   No look-ahead: two price series that agree before bar `g` give the same held position at bar `g`, for
   every strategy and every positive lag.
   */
  lemma NoLookAhead(math: Math, s: Strategy, a: seq<real>, b: seq<real>, lag: int, g: nat)
    requires |a| == |b| && g < |a| && a[..g] == b[..g] && 1 <= lag
    ensures HeldPositions(Positions(math, s, a), lag)[g] == HeldPositions(Positions(math, s, b), lag)[g]
  {
    hide Positions;
    if lag <= g {
      var k := g - lag;
      assert a[..k + 1] == a[..g][..k + 1] && b[..k + 1] == b[..g][..k + 1];
      PositionsCausal(math, s, a, b, k);
    }
  }

  /** Without a lag the position held at a bar does depend on that bar's own close. */
  lemma ZeroLagLooksAhead(math: Math)
    ensures var a, b := [1.0, 1.0, 2.0], [1.0, 1.0, 1.0]; var s := DualMA(1, 2);
            a[..2] == b[..2] && HeldPositions(Positions(math, s, a), 0)[2] != HeldPositions(Positions(math, s, b), 0)[2]
  {
    var a, b := [1.0, 1.0, 2.0], [1.0, 1.0, 1.0];
    RollingMeanIsWindowMean(a, 1, 2);
    RollingMeanIsWindowMean(a, 2, 2);
    RollingMeanIsWindowMean(b, 1, 2);
    RollingMeanIsWindowMean(b, 2, 2);
    assert a[2..3] == [2.0] && a[1..3] == [1.0, 2.0] && b[2..3] == [1.0] && b[1..3] == [1.0, 1.0];
    assert [2.0][..0] == [] && [1.0][..0] == [] && [1.0, 2.0][..1] == [1.0] && [1.0, 1.0][..1] == [1.0];
    assert Sum([2.0]) == 2.0 && Sum([1.0]) == 1.0 && Sum([1.0, 2.0]) == 3.0 && Sum([1.0, 1.0]) == 2.0;
  }
}

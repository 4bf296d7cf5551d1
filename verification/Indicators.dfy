/**
 Price statistics over exact reals. `None` stands for NaN; `log` and `sqrt` are whatever the caller's are.
 */
module Indicators {
  import opened Tables
  import opened Money

  type Num = Option<real>

  const TINY := 0.000000000001

  datatype Math = Math(log: real -> real, sqrt: real -> real)

  function Max(a: real, b: real): real {
    if a >= b then a else b
  }

  function Sum(x: seq<real>): real {
    if x == [] then 0.0 else Sum(x[..|x| - 1]) + x[|x| - 1]
  }

  // ---- Rolling mean ------------------------------------------------------------------------

  /** Cumulative sums, starting with an inserted zero. */
  function CumSum(x: seq<real>): (c: seq<real>)
    ensures |c| == |x| + 1
  {
    if x == [] then [0.0]
    else
      var c := CumSum(x[..|x| - 1]);
      c + [c[|x| - 1] + x[|x| - 1]]
  }

  /** `rolling_mean`, by differences of cumulative sums. */
  function RollingMean(x: seq<real>, n: int): (out: seq<Num>)
    ensures |out| == |x|
  {
    var c := CumSum(x);
    seq(|x|, k requires 0 <= k < |x| =>
      if n <= 0 || |x| < n || k < n - 1 then None else Some((c[k + 1] - c[k + 1 - n]) / (n as real)))
  }

  lemma {:induction false} CumSumAt(x: seq<real>, i: nat)
    requires i <= |x|
    ensures CumSum(x)[i] == Sum(x[..i])
  {
    if i == |x| {
      assert x[..i] == x;
      if x != [] {
        CumSumAt(x[..i - 1], i - 1);
        assert x[..i - 1][..i - 1] == x[..i - 1];
      }
    } else {
      CumSumAt(x[..|x| - 1], i);
      assert x[..|x| - 1][..i] == x[..i];
    }
  }

  lemma {:induction false} SumConcat(a: seq<real>, b: seq<real>)
    ensures Sum(a + b) == Sum(a) + Sum(b)
  {
    if b == [] {
      assert a + b == a;
    } else {
      var n := |a + b| - 1;
      assert (a + b)[..n] == a + b[..|b| - 1] && (a + b)[n] == b[|b| - 1];
      SumConcat(a, b[..|b| - 1]);
    }
  }

  lemma DifferenceIsSum(x: seq<real>, i: nat, j: nat)
    requires i <= j <= |x|
    ensures CumSum(x)[j] - CumSum(x)[i] == Sum(x[i..j])
  {
    hide Sum, CumSum;
    CumSumAt(x, i);
    CumSumAt(x, j);
    SumConcat(x[..i], x[i..j]);
    assert x[..i] + x[i..j] == x[..j];
  }

  /** The fast rolling mean is the mean of each window, and is missing exactly where the window is. */
  lemma RollingMeanIsWindowMean(x: seq<real>, n: int, k: nat)
    requires k < |x|
    ensures RollingMean(x, n)[k].None? <==> n <= 0 || k < n - 1
    ensures 0 < n <= k + 1 ==> RollingMean(x, n)[k] == Some(Sum(x[k + 1 - n..k + 1]) / (n as real))
  {
    hide Sum, CumSum;
    if 0 < n <= k + 1 {
      DifferenceIsSum(x, k + 1 - n, k + 1);
    }
  }

  // ---- Rolling standard deviation ----------------------------------------------------------

  predicate AllNumbers(w: seq<Num>) {
    forall i :: 0 <= i < |w| ==> w[i].Some?
  }

  function Values(w: seq<Num>): seq<real>
    requires AllNumbers(w)
  {
    seq(|w|, i requires 0 <= i < |w| => w[i].value)
  }

  function Square(a: real): real {
    a * a
  }

  function SquaredDeviations(x: seq<real>, mean: real): real {
    if x == [] then 0.0
    else SquaredDeviations(x[..|x| - 1], mean) + Square(x[|x| - 1] - mean)
  }

  /** Sample standard deviation of one window; NaN when a value is, or when there is only one. */
  function Std(math: Math, w: seq<Num>): Num {
    if |w| <= 1 || !AllNumbers(w) then None
    else
      var x := Values(w);
      Some(math.sqrt(SquaredDeviations(x, Sum(x) / (|x| as real)) / ((|x| - 1) as real)))
  }

  function RollingStd(math: Math, x: seq<Num>, n: int): (out: seq<Num>)
    ensures |out| == |x|
  {
    seq(|x|, k requires 0 <= k < |x| =>
      if n <= 0 || |x| < n || k < n - 1 then None else Std(math, x[k + 1 - n..k + 1]))
  }

  // ---- Drawdown ----------------------------------------------------------------------------

  /** The running peak of the curve. */
  function Peaks(equity: seq<real>): (p: seq<real>)
    ensures |p| == |equity|
  {
    if equity == [] then []
    else
      var p := Peaks(equity[..|equity| - 1]);
      var last := equity[|equity| - 1];
      p + [if p == [] then last else Max(p[|p| - 1], last)]
  }

  /** The relative fall from a level to a value. */
  function Fall(level: real, value: real): real {
    (value - level) / Max(level, TINY)
  }

  function Drawdowns(equity: seq<real>): (d: seq<real>)
    ensures |d| == |equity|
  {
    var p := Peaks(equity);
    seq(|equity|, i requires 0 <= i < |equity| => Fall(p[i], equity[i]))
  }

  function Least(x: seq<real>): real
    requires x != []
  {
    if |x| == 1 then x[0]
    else
      var rest := Least(x[..|x| - 1]);
      if rest <= x[|x| - 1] then rest else x[|x| - 1]
  }

  /** `max_drawdown`: one pass against the running peak. */
  function MaxDrawdown(equity: seq<real>): real {
    if equity == [] then 0.0 else Least(Drawdowns(equity))
  }

  /** The peak is the highest value so far, and is reached. */
  lemma {:induction false} PeakIsHighest(equity: seq<real>, j: nat) returns (i: nat)
    requires j < |equity|
    ensures i <= j && Peaks(equity)[j] == equity[i]
    ensures forall k :: 0 <= k <= j ==> equity[k] <= equity[i]
  {
    var n := |equity| - 1;
    if j < n {
      i := PeakIsHighest(equity[..n], j);
      assert forall k :: 0 <= k <= j ==> equity[..n][k] == equity[k];
    } else if n == 0 {
      i := 0;
    } else {
      i := PeakIsHighest(equity[..n], n - 1);
      assert forall k :: 0 <= k < n ==> equity[..n][k] == equity[k];
      if equity[i] < equity[n] {
        i := n;
      }
    }
  }

  lemma {:induction false} LeastIsReached(x: seq<real>) returns (i: nat)
    requires x != []
    ensures i < |x| && Least(x) == x[i]
    ensures forall k :: 0 <= k < |x| ==> x[i] <= x[k]
  {
    if |x| == 1 {
      i := 0;
    } else {
      var init := x[..|x| - 1];
      i := LeastIsReached(init);
      assert forall k :: 0 <= k < |init| ==> init[k] == x[k];
      if x[|x| - 1] < x[i] {
        i := |x| - 1;
      }
    }
  }

  lemma Quotient(n: real, d: real, q: real)
    requires 0.0 < d && q * d == n
    ensures n / d == q
  {}

  lemma SameSign(z: real, b: real)
    requires 0.0 < b && 0.0 <= z * b
    ensures 0.0 <= z
  {}

  lemma StrictSign(z: real, b: real)
    requires 0.0 < b && 0.0 < z * b
    ensures 0.0 < z
  {}

  lemma RatioFalls(x: real, a: real, b: real)
    requires 0.0 <= x && 0.0 < a <= b
    ensures x / b <= x / a
  {
    var u, v := x / a, x / b;
    assert u * a == x && v * b == x;
    assert 0.0 <= u;
    assert 0.0 <= u * (b - a);
    assert (u - v) * b == u * b - u * a == u * (b - a);
    SameSign(u - v, b);
  }

  /** From a higher level a non-negative value is a deeper relative fall. */
  lemma FallDeepens(low: real, high: real, value: real)
    requires low <= high && 0.0 <= low && 0.0 <= value
    ensures Fall(high, value) <= Fall(low, value)
  {
    if low >= TINY {
      RatioFalls(value, low, high);
      FallFromAbove(low, value);
      FallFromAbove(high, value);
    } else if high < TINY {
      assert (value - high) / TINY <= (value - low) / TINY;
    } else {
      RatioFalls(value, TINY, high);
      FallFromAbove(high, value);
      FallFromAbove(TINY, value);
      assert (value - TINY) / TINY <= (value - low) / TINY;
    }
  }

  lemma FallFromAbove(level: real, value: real)
    requires TINY <= level
    ensures Fall(level, value) == value / level - 1.0
  {
    var q := value / level;
    assert q * level == value;
    assert (q - 1.0) * level == value - level;
    Quotient(value - level, level, q - 1.0);
  }

  /**
   On a curve that is never negative the one-pass drawdown is the worst relative fall over all pairs of an
   earlier and a later bar: no pair falls further, and some pair falls that far.
   */
  lemma DrawdownIsWorstFall(equity: seq<real>) returns (i: nat, j: nat)
    requires equity != [] && forall k :: 0 <= k < |equity| ==> 0.0 <= equity[k]
    ensures i <= j < |equity| && MaxDrawdown(equity) == Fall(equity[i], equity[j])
    ensures forall p, q :: 0 <= p <= q < |equity| ==> MaxDrawdown(equity) <= Fall(equity[p], equity[q])
    ensures MaxDrawdown(equity) <= 0.0
  {
    hide Fall;
    j := LeastIsReached(Drawdowns(equity));
    i := PeakIsHighest(equity, j);
    forall p, q | 0 <= p <= q < |equity| ensures MaxDrawdown(equity) <= Fall(equity[p], equity[q]) {
      var peak := PeakIsHighest(equity, q);
      FallDeepens(equity[p], equity[peak], equity[q]);
      assert Drawdowns(equity)[j] <= Drawdowns(equity)[q];
    }
    NoFall(equity[0]);
    assert MaxDrawdown(equity) <= Fall(equity[0], equity[0]);
  }

  lemma NoFall(level: real)
    ensures Fall(level, level) == 0.0
  {}

  /** On any curve a pair that ends on a value that is not negative falls no further than the one-pass value. */
  lemma NonNegativeEndsAreCovered(equity: seq<real>, p: nat, q: nat)
    requires p <= q < |equity| && 0.0 <= equity[q]
    ensures MaxDrawdown(equity) <= Fall(equity[p], equity[q])
  {
    hide Fall;
    var j := LeastIsReached(Drawdowns(equity));
    var peak := PeakIsHighest(equity, q);
    if 0.0 <= equity[p] {
      FallDeepens(equity[p], equity[peak], equity[q]);
    } else {
      FallsOrNot(equity[p], equity[peak], equity[q]);
    }
    assert Drawdowns(equity)[j] <= Drawdowns(equity)[q];
  }

  lemma FallsOrNot(low: real, high: real, value: real)
    requires low < 0.0 <= value <= high
    ensures Fall(high, value) <= 0.0 <= Fall(low, value)
  {
    Shrinks(value - high, Max(high, TINY));
    Shrinks(low - value, Max(low, TINY));
  }

  lemma Shrinks(gap: real, level: real)
    requires gap <= 0.0 < level
    ensures gap / level <= 0.0 <= (-gap) / level
  {}

  /**
   From a lower level a negative value is a further fall than from the peak: the level lies strictly between
   `value * (1 - TINY / peak) + TINY` and a peak of at least `TINY`. Here the bound is multiplied out.
   */
  predicate FurtherFrom(level: real, peak: real, value: real) {
    value < 0.0 && TINY <= peak && level < peak && (TINY + value - level) * peak < value * TINY
  }

  /** Two levels big enough to be divided by. */
  lemma LowerDividesFurther(level: real, peak: real, value: real)
    requires 0.0 < TINY <= level < peak && value < 0.0
    ensures value / level < value / peak && (TINY + value - level) * peak < value * TINY
  {
    var x, y := value / peak, value / level;
    assert x * peak == value && y * level == value;
    assert x < 0.0;
    assert (x - y) * level == x * level - x * peak == (-x) * (peak - level) > 0.0;
    StrictSign(x - y, level);
    assert (level - TINY) * peak >= 0.0 && (-value) * (peak - TINY) > 0.0;
  }

  /** A level so small that the divisor is not. */
  lemma TinyDividesFurther(level: real, peak: real, value: real)
    requires level < TINY <= peak
    ensures (value - level) / TINY < value / peak - 1.0 <==> (TINY + value - level) * peak < value * TINY
  {
    var x := value / peak;
    assert x * peak == value;
    var gap := TINY + value - level - x * TINY;
    assert (value - level) / TINY < x - 1.0 <==> gap < 0.0;
    assert gap * peak == (TINY + value - level) * peak - value * TINY;
    if gap < 0.0 {
      assert gap * peak < 0.0;
    } else {
      assert gap * peak >= 0.0;
    }
  }

  lemma FallsFurther(level: real, peak: real, value: real)
    requires level <= peak && value <= peak
    ensures Fall(level, value) < Fall(peak, value) <==> FurtherFrom(level, peak, value)
  {
    if 0.0 <= value {
      if 0.0 <= level {
        FallDeepens(level, peak, value);
      } else {
        FallsOrNot(level, peak, value);
      }
    } else if TINY <= peak && level < peak {
      FallFromAbove(peak, value);
      if TINY <= level {
        FallFromAbove(level, value);
        LowerDividesFurther(level, peak, value);
      } else {
        TinyDividesFurther(level, peak, value);
      }
    }
  }

  /** Bar by bar, on any curve: a fall to this bar beats its drawdown exactly from the levels `FurtherFrom` names. */
  lemma DrawdownAtBarExactly(equity: seq<real>, q: nat)
    requires q < |equity|
    ensures forall p :: 0 <= p <= q ==>
              (Fall(equity[p], equity[q]) < Drawdowns(equity)[q] <==> FurtherFrom(equity[p], Peaks(equity)[q], equity[q]))
  {
    hide Fall, FurtherFrom;
    var peak := PeakIsHighest(equity, q);
    forall p | 0 <= p <= q
      ensures Fall(equity[p], equity[q]) < Drawdowns(equity)[q] <==> FurtherFrom(equity[p], Peaks(equity)[q], equity[q])
    {
      FallsFurther(equity[p], equity[peak], equity[q]);
    }
  }

  /** No pair of bars falls further than the one-pass value. */
  predicate WorstOf(equity: seq<real>) {
    forall p, q :: 0 <= p <= q < |equity| ==> MaxDrawdown(equity) <= Fall(equity[p], equity[q])
  }

  lemma DrawdownBounds(equity: seq<real>, q: nat)
    requires q < |equity|
    ensures MaxDrawdown(equity) <= Drawdowns(equity)[q]
  {
    var j := LeastIsReached(Drawdowns(equity));
  }

  /**
   On any curve the one-pass value is the worst fall over all pairs if and only if no pair that ends below zero
   falls further; so in particular when no bar has a level before it of those `FurtherFrom` names.
   */
  lemma DrawdownIsWorstFallExactly(equity: seq<real>)
    ensures WorstOf(equity) <==>
              forall p, q :: 0 <= p <= q < |equity| && equity[q] < 0.0 ==> MaxDrawdown(equity) <= Fall(equity[p], equity[q])
    ensures (forall p, q :: 0 <= p <= q < |equity| ==> !FurtherFrom(equity[p], Peaks(equity)[q], equity[q])) ==>
              WorstOf(equity)
  {
    hide Fall, MaxDrawdown, FurtherFrom;
    if forall p, q :: 0 <= p <= q < |equity| ==> !FurtherFrom(equity[p], Peaks(equity)[q], equity[q]) {
      forall p, q | 0 <= p <= q < |equity| ensures MaxDrawdown(equity) <= Fall(equity[p], equity[q]) {
        DrawdownAtBarExactly(equity, q);
        DrawdownBounds(equity, q);
      }
    }
    forall p, q | 0 <= p <= q < |equity| && 0.0 <= equity[q] ensures MaxDrawdown(equity) <= Fall(equity[p], equity[q]) {
      NonNegativeEndsAreCovered(equity, p, q);
    }
  }

  /**
   Two curves on which a pair away from the peak falls further: from a lower positive bar, and, once a bar is at
   zero, from that bar, although no pair from a positive bar does.
   */
  lemma NegativeCurvesDiffer()
    ensures var equity := [1.0, 2.0, -1.0];
            MaxDrawdown(equity) == Fall(2.0, -1.0) == -1.5 && Fall(1.0, -1.0) == -2.0
    ensures var equity := [10.0, 0.0, -5.0];
            MaxDrawdown(equity) == Fall(10.0, -5.0) == -1.5 && Fall(0.0, -5.0) < -1000.0
  {
    ThreeBars(1.0, 2.0, -1.0);
    ThreeBars(10.0, 0.0, -5.0);
    Quotient(-15.0, 10.0, -1.5);
    Quotient(-3.0, 2.0, -1.5);
    Quotient(-10.0, 10.0, -1.0);
    Quotient(-2.0, 1.0, -2.0);
    Quotient(-5.0, TINY, -5.0 * 1000000000000.0);
    NoFall(1.0);
    NoFall(2.0);
    NoFall(10.0);
  }

  lemma ThreeBars(a: real, b: real, c: real)
    ensures var peak := Max(a, b);
            MaxDrawdown([a, b, c]) == Min(Min(Fall(a, a), Fall(peak, b)), Fall(Max(peak, c), c))
  {
    hide Fall, Max;
    var equity := [a, b, c];
    assert equity[..2] == [a, b] && equity[..2][..1] == [a] && [a][..0] == [];
    assert Peaks([a]) == [a] && Peaks([a, b]) == [a, Max(a, b)];
    assert Peaks(equity) == [a, Max(a, b), Max(Max(a, b), c)];
    var d := Drawdowns(equity);
    assert d[..2][..1] == [d[0]] && d[..2] == [d[0], d[1]];
    assert Least([d[0]]) == d[0];
    assert Least(d[..2]) == Min(d[0], d[1]);
  }

  function Min(a: real, b: real): real {
    if a <= b then a else b
  }

  // ---- Returns and execution ---------------------------------------------------------------

  /** `returns_from_close`: the relative change of each bar, none for the first. */
  function Returns(close: seq<real>): (ret: seq<real>)
    ensures |ret| == |close|
  {
    seq(|close|, k requires 0 <= k < |close| =>
      if k == 0 then 0.0 else (close[k] - close[k - 1]) / Max(close[k - 1], TINY))
  }

  /** The position held during a bar is the one decided `lag` bars before. */
  function HeldPositions(position: seq<real>, lag: int): (held: seq<real>)
    ensures |held| == |position|
  {
    seq(|position|, k requires 0 <= k < |position| =>
      if lag <= 0 then position[k] else if k < lag then 0.0 else position[k - lag])
  }

  function Gross(position: real, ret: real): real {
    position * ret
  }

  /** Half the round-trip cost per unit of turnover. */
  function Cost(move: real, roundTrip: real): real {
    move * (roundTrip / 2.0)
  }

  /** What was held before bar `k`. */
  function Before(held: seq<real>, k: nat): real
    requires k < |held|
  {
    if k == 0 then 0.0 else held[k - 1]
  }

  /** The net return of one bar. */
  function NetOf(position: real, before: real, ret: real, roundTrip: real): real {
    Gross(position, ret) - Cost(Abs(position - before), roundTrip)
  }

  function Net(held: seq<real>, ret: seq<real>, roundTrip: real): (net: seq<real>)
    requires |held| == |ret|
    ensures |net| == |held|
  {
    seq(|held|, k requires 0 <= k < |held| =>
      NetOf(held[k], Before(held, k), ret[k], roundTrip))
  }

  datatype Execution = Execution(net: seq<real>, held: seq<real>)

  /** `execute`. */
  function Execute(position: seq<real>, ret: seq<real>, roundTrip: real, lag: int): Result<Execution> {
    if roundTrip < 0.0 || |position| != |ret| then Err(ValueError)
    else Ok(Execution(Net(HeldPositions(position, lag), ret, roundTrip), HeldPositions(position, lag)))
  }

  lemma CostIsLinear(move: real, roundTrip: real)
    ensures 2.0 * Cost(move, roundTrip) == move * roundTrip
  {
    var half := roundTrip / 2.0;
    assert half + half == roundTrip;
    assert move * half + move * half == move * (half + half);
  }

  /**
   What a change of position costs: half a round trip per unit of it, whatever the direction. So an entry or an
   exit of one unit pays half a round trip and a flip between long and short a whole one.
   */
  lemma CostOfTurns(position: seq<real>, ret: seq<real>, roundTrip: real, lag: int, k: nat) returns (cost: real)
    requires Execute(position, ret, roundTrip, lag).Ok? && k < |position|
    ensures var e := Execute(position, ret, roundTrip, lag).value;
            var move := Abs(e.held[k] - Before(e.held, k));
            && e.net[k] == Gross(e.held[k], ret[k]) - cost
            && 2.0 * cost == move * roundTrip
            && (move == 1.0 ==> 2.0 * cost == roundTrip) && (move == 2.0 ==> cost == roundTrip)
  {
    hide Cost, Gross, HeldPositions;
    var held := HeldPositions(position, lag);
    var move := Abs(held[k] - Before(held, k));
    cost := Cost(move, roundTrip);
    CostIsLinear(move, roundTrip);
  }

  /** Total absolute change of position, from flat. */
  function Turnover(held: seq<real>): real {
    if held == [] then 0.0
    else Turnover(held[..|held| - 1]) + Abs(held[|held| - 1] - Before(held, |held| - 1))
  }

  function GrossSum(held: seq<real>, ret: seq<real>): real
    requires |held| == |ret|
  {
    if held == [] then 0.0
    else GrossSum(held[..|held| - 1], ret[..|ret| - 1]) + Gross(held[|held| - 1], ret[|ret| - 1])
  }

  lemma NetOfPrefix(held: seq<real>, ret: seq<real>, roundTrip: real)
    requires |held| == |ret| && held != []
    ensures var n := |held| - 1; var net := Net(held, ret, roundTrip);
            && net[..n] == Net(held[..n], ret[..n], roundTrip)
            && net[n] == NetOf(held[n], Before(held, n), ret[n], roundTrip)
  {
    hide NetOf;
  }

  lemma TotalStep(gross: real, net: real, turnover: real, gain: real, cost: real, move: real, roundTrip: real)
    requires 2.0 * (gross - net) == turnover * roundTrip && 2.0 * cost == move * roundTrip
    ensures 2.0 * ((gross + gain) - (net + (gain - cost))) == (turnover + move) * roundTrip
  {}

  /** Over a whole series the costs add up to half a round trip per unit of turnover. */
  lemma {:induction false} TotalCost(held: seq<real>, ret: seq<real>, roundTrip: real)
    requires |held| == |ret|
    ensures 2.0 * (GrossSum(held, ret) - Sum(Net(held, ret, roundTrip))) == Turnover(held) * roundTrip
  {
    hide Gross, Cost, Net;
    if held == [] {
      assert Net(held, ret, roundTrip) == [];
    } else {
      var n := |held| - 1;
      TotalCost(held[..n], ret[..n], roundTrip);
      NetOfPrefix(held, ret, roundTrip);
      var move := Abs(held[n] - Before(held, n));
      CostIsLinear(move, roundTrip);
      TotalStep(GrossSum(held[..n], ret[..n]), Sum(Net(held[..n], ret[..n], roundTrip)), Turnover(held[..n]),
                Gross(held[n], ret[n]), Cost(move, roundTrip), move, roundTrip);
      assert Sum(Net(held, ret, roundTrip)) == Sum(Net(held, ret, roundTrip)[..n]) + Net(held, ret, roundTrip)[n];
    }
  }
}

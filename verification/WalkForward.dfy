/**
 Walk-forward certification: rolling windows whose out-of-sample pieces are laid end to end.
 */
module WalkForward {
  import opened Tables
  import opened Indicators
  import opened Strategies

  predicate ValidCloses(close: seq<real>) {
    forall i :: 0 <= i < |close| ==> close[i] > 0.0
  }

  /** The out-of-sample net returns and held positions, end to end. */
  datatype Report = Report(windows: nat, rets: seq<real>, held: seq<real>, sufficient: bool)

  datatype Setup = Setup(math: Math, strategy: Strategy, train: int, test: int, roundTrip: real)

  // ---- Whole windows -----------------------------------------------------------------------

  lemma Sign(z: int, d: int)
    requires 0 < d && 0 < z * d
    ensures 0 < z
  {}

  lemma Between(a: int, b: int, d: int)
    requires 0 < d && a * d < b * d + d
    ensures a <= b
  {
    assert (b + 1 - a) * d == b * d + d - a * d;
    Sign(b + 1 - a, d);
  }

  lemma WholeWindows(w: int, rest: int, d: int)
    requires 0 <= rest < d
    ensures (w * d + rest) / d == w && (w * d + rest) % d == rest
  {
    var x := w * d + rest;
    var q := x / d;
    assert x == q * d + x % d;
    Between(w, q, d);
    Between(q, w, d);
  }

  /** Bar `train + k` belongs to window `k / test`, which starts this many bars in. */
  function Start(test: int, k: nat): nat
    requires 0 < test
  {
    k / test * test
  }

  function Slice(c: Setup, close: seq<real>, i: nat): seq<real>
    requires 0 < c.train && 0 < c.test && i + c.train + c.test <= |close|
  {
    close[i..i + c.train + c.test]
  }

  predicate OutOfSample(c: Setup, close: seq<real>, k: nat) {
    0 < c.train && 0 < c.test && Start(c.test, k) + c.train + c.test <= |close|
  }

  lemma StartBounds(test: int, k: nat)
    requires 0 < test
    ensures Start(test, k) <= k < Start(test, k) + test && k - Start(test, k) == k % test
  {}

  /** The position held in the bar `train + k`, from the bars of its own window. */
  function HeldAt(c: Setup, close: seq<real>, k: nat): real
    requires OutOfSample(c, close, k)
  {
    StartBounds(c.test, k);
    HeldPositions(Positions(c.math, c.strategy, Slice(c, close, Start(c.test, k))), 1)[c.train + k % c.test]
  }

  /** The net return of the bar `train + k`. */
  function NetAt(c: Setup, close: seq<real>, k: nat): real
    requires OutOfSample(c, close, k)
  {
    StartBounds(c.test, k);
    var slice := Slice(c, close, Start(c.test, k));
    Net(HeldPositions(Positions(c.math, c.strategy, slice), 1), Returns(slice), c.roundTrip)[c.train + k % c.test]
  }

  /** A whole window's out-of-sample piece consists of the bars that belong to it. */
  lemma PieceIsItsBars(c: Setup, close: seq<real>, i: nat, k: nat)
    requires 0 < c.train && 0 < c.test && i + c.train + c.test <= |close|
    requires i % c.test == 0 && i <= k < i + c.test
    ensures OutOfSample(c, close, k)
    ensures var slice := Slice(c, close, i);
            && HeldAt(c, close, k) == HeldPositions(Positions(c.math, c.strategy, slice), 1)[c.train + (k - i)]
            && NetAt(c, close, k)
               == Net(HeldPositions(Positions(c.math, c.strategy, slice), 1), Returns(slice), c.roundTrip)[c.train + (k - i)]
  {
    hide Positions;
    SameWindow(c.test, i, k);
  }

  lemma SameWindow(test: int, i: nat, k: nat)
    requires 0 < test && i % test == 0 && i <= k < i + test
    ensures Start(test, k) == i && k % test == k - i
  {
    var w := i / test;
    assert i == w * test;
    WholeWindows(w, k - i, test);
  }

  predicate Covers(c: Setup, close: seq<real>, rets: seq<real>, held: seq<real>) {
    |rets| == |held|
    && forall k :: 0 <= k < |rets| ==> OutOfSample(c, close, k) && rets[k] == NetAt(c, close, k) && held[k] == HeldAt(c, close, k)
  }

  /**
   `walk_forward`: the report has as many windows as fit, and its returns and positions are those of the
   bars from `train` on, once each and in order.
   */
  method WalkForward(c: Setup, close: seq<real>) returns (r: Result<Report>)
    ensures r.Err? <==> c.train <= 0 || c.test <= 0 || !ValidCloses(close)
                        || (c.roundTrip < 0.0 && c.train + c.test <= |close|)
    ensures r.Err? ==> r.error == ValueError
    ensures r.Ok? ==>
              var n := |close|;
              && r.value.sufficient == (c.train + c.test <= n)
              && r.value.windows == (if r.value.sufficient then (n - c.train) / c.test else 0)
              && |r.value.rets| == r.value.windows * c.test
              && Covers(c, close, r.value.rets, r.value.held)
  {
    hide ValidCloses, Positions, HeldAt, NetAt, Start;
    if c.train <= 0 || c.test <= 0 || !ValidCloses(close) {
      return Err(ValueError);
    }
    var n := |close|;
    if n < c.train + c.test {
      return Ok(Report(0, [], [], false));
    }
    var rets, held: seq<real> := [], [];
    var windows, i := 0, 0;
    while i + c.train + c.test <= n
      invariant 0 <= windows && i == windows * c.test && i % c.test == 0 && i + c.train <= n
      invariant |rets| == i && Covers(c, close, rets, held)
      invariant i > 0 ==> 0.0 <= c.roundTrip
      decreases n - i
    {
      var slice := Slice(c, close, i);
      var run := Execute(Positions(c.math, c.strategy, slice), Returns(slice), c.roundTrip, 1);
      if run.Err? {
        return Err(run.error);
      }
      forall k | i <= k < i + c.test
        ensures OutOfSample(c, close, k)
        ensures run.value.net[c.train + (k - i)] == NetAt(c, close, k)
        ensures run.value.held[c.train + (k - i)] == HeldAt(c, close, k)
      {
        PieceIsItsBars(c, close, i, k);
      }
      rets := rets + run.value.net[c.train..c.train + c.test];
      held := held + run.value.held[c.train..c.train + c.test];
      NextMultiple(windows, c.test);
      windows := windows + 1;
      i := i + c.test;
    }
    WindowsThatFit(n - c.train, c.test, windows);
    r := Ok(Report(windows, rets, held, true));
  }

  lemma NextMultiple(w: nat, test: int)
    requires 0 < test
    ensures (w + 1) * test == w * test + test && (w * test + test) % test == 0
  {
    WholeWindows(w + 1, 0, test);
  }

  lemma WindowsThatFit(room: int, test: int, windows: nat)
    requires 0 < test && windows * test <= room < windows * test + test
    ensures windows == room / test
  {
    WholeWindows(windows, room - windows * test, test);
  }

  // ---- Main results ------------------------------------------------------------------------

  /** Window `w` evaluates bar `bar` out of sample. */
  predicate Evaluates(c: Setup, w: nat, bar: int) {
    w * c.test + c.train <= bar < w * c.test + c.train + c.test
  }

  lemma Evaluated(c: Setup, windows: nat, bar: int) returns (w: nat)
    requires 0 < c.test && c.train <= bar < c.train + windows * c.test
    ensures w < windows && Evaluates(c, w, bar)
  {
    w := (bar - c.train) / c.test;
    assert w * c.test <= bar - c.train < w * c.test + c.test;
    assert (windows - 1) * c.test + c.test == windows * c.test;
    Between(w, windows - 1, c.test);
  }

  lemma EvaluatedInside(c: Setup, windows: nat, w: nat, bar: int)
    requires 0 < c.test && w < windows && Evaluates(c, w, bar)
    ensures c.train <= bar < c.train + windows * c.test
  {
    Fits(w, windows, c.test);
  }

  lemma EvaluatedOnce(c: Setup, v: nat, w: nat, bar: int)
    requires 0 < c.test && Evaluates(c, v, bar) && Evaluates(c, w, bar)
    ensures v == w
  {
    WindowsThatFit(bar - c.train, c.test, v);
    WindowsThatFit(bar - c.train, c.test, w);
  }

  /** The windows tile the bars from `train` on: each is evaluated once, and fewer than `test` are left over. */
  lemma EveryBarOnce(c: Setup, n: nat, windows: nat, bar: int)
    requires 0 < c.train && 0 < c.test && c.train + c.test <= n && windows == (n - c.train) / c.test
    ensures 0 <= n - (c.train + windows * c.test) < c.test
    ensures c.train <= bar < c.train + windows * c.test <==> exists w: nat :: w < windows && Evaluates(c, w, bar)
    ensures forall v: nat, w: nat :: Evaluates(c, v, bar) && Evaluates(c, w, bar) ==> v == w
  {
    hide Evaluates;
    if c.train <= bar < c.train + windows * c.test {
      var w := Evaluated(c, windows, bar);
    }
    forall w: nat | w < windows && Evaluates(c, w, bar) ensures c.train <= bar < c.train + windows * c.test {
      EvaluatedInside(c, windows, w, bar);
    }
    forall v: nat, w: nat | Evaluates(c, v, bar) && Evaluates(c, w, bar) ensures v == w {
      EvaluatedOnce(c, v, w, bar);
    }
  }

  lemma Fits(w: nat, windows: nat, test: int)
    requires 0 < test && w < windows
    ensures 0 <= w * test && w * test + test <= windows * test
  {
    assert (windows - w - 1) * test >= 0;
    assert (windows - w - 1) * test == windows * test - w * test - test;
  }

  /**
   Certification does not look ahead either: when two price histories agree before bar `g`, every
   out-of-sample position up to that bar and every return before it is the same.
   */
  lemma CertificationDoesNotLookAhead(c: Setup, a: seq<real>, b: seq<real>, g: nat, k: nat)
    requires |a| == |b| && g <= |a| && a[..g] == b[..g] && OutOfSample(c, a, k) && c.train + k <= g
    ensures HeldAt(c, a, k) == HeldAt(c, b, k)
    ensures c.train + k < g ==> NetAt(c, a, k) == NetAt(c, b, k)
  {
    hide Positions, Start, HeldPositions, Net, Returns;
    StartBounds(c.test, k);
    var i, t := Start(c.test, k), c.train + k % c.test;
    var x, y := Slice(c, a, i), Slice(c, b, i);
    SlicesAgree(a, b, g, i, c.train + c.test, t);
    NoLookAhead(c.math, c.strategy, x, y, 1, t);
    assert x[..t - 1] == x[..t][..t - 1] && y[..t - 1] == y[..t][..t - 1];
    NoLookAhead(c.math, c.strategy, x, y, 1, t - 1);
    if c.train + k < g {
      SlicesAgree(a, b, g, i, c.train + c.test, t + 1);
      ReturnCausal(x, y, t);
      NetCausal(HeldPositions(Positions(c.math, c.strategy, x), 1), HeldPositions(Positions(c.math, c.strategy, y), 1),
                Returns(x), Returns(y), c.roundTrip, t);
    }
  }

  lemma ReturnCausal(x: seq<real>, y: seq<real>, t: nat)
    requires |x| == |y| && 0 < t < |x| && x[..t + 1] == y[..t + 1]
    ensures Returns(x)[t] == Returns(y)[t]
  {
    assert x[t] == x[..t + 1][t] && y[t] == y[..t + 1][t];
    assert x[t - 1] == x[..t + 1][t - 1] && y[t - 1] == y[..t + 1][t - 1];
  }

  lemma NetCausal(p: seq<real>, q: seq<real>, r: seq<real>, s: seq<real>, roundTrip: real, t: nat)
    requires |p| == |q| == |r| == |s| && 0 < t < |p|
    requires p[t] == q[t] && p[t - 1] == q[t - 1] && r[t] == s[t]
    ensures Net(p, r, roundTrip)[t] == Net(q, s, roundTrip)[t]
  {
    hide NetOf;
  }

  lemma SlicesAgree(a: seq<real>, b: seq<real>, g: nat, i: nat, length: nat, t: nat)
    requires |a| == |b| && g <= |a| && a[..g] == b[..g] && i + length <= |a| && t <= length && i + t <= g
    ensures a[i..i + length][..t] == b[i..i + length][..t]
  {
    assert a[i..i + length][..t] == a[..g][i..i + t] && b[i..i + length][..t] == b[..g][i..i + t];
  }
}

/** The velocity/acceleration signal of one symbol: shifted-difference series
    over the whole close series, smoothed by trailing means and read at the
    last bar of a day. A value that pandas would leave as NaN is `None`. */
module Signal {
  import opened MarketData

  /** Percentage change of the close over `lookback` rows,
      `100 * (c[t] - c[t - lookback]) / c[t]`; undefined for the first `lookback` rows. */
  function Velocity(s: Series, lookback: nat, t: nat): (r: Option<real>)
    requires ValidSeries(s) && t < |s|
    ensures r.Some? <==> t >= lookback
    ensures r.Some? ==> (r.value > 0.0 <==> s[t].close > s[t - lookback].close)
    ensures r.Some? ==> (r.value == 0.0 <==> s[t].close == s[t - lookback].close)
  {
    if t < lookback then None
    else
      assert s[t] in s;
      var c, p := s[t].close, s[t - lookback].close;
      assert 100.0 * (c - p) / c == 100.0 * ((c - p) / c);
      Some(100.0 * (c - p) / c)
  }

  /** The velocity the source rebuilds from the closes shifted by
      `accLookback` and `accLookback + velLookback`: it is the velocity
      `accLookback` rows earlier. */
  function PrevVelocity(s: Series, velLookback: nat, accLookback: nat, t: nat): (r: Option<real>)
    requires ValidSeries(s) && t < |s|
    ensures r == if t >= accLookback then Velocity(s, velLookback, t - accLookback) else None
  {
    if t < accLookback + velLookback then None
    else
      assert s[t - accLookback] in s;
      Some(100.0 * (s[t - accLookback].close - s[t - accLookback - velLookback].close)
           / s[t - accLookback].close)
  }

  /** `(velocity - prev_velocity) / velocity`; undefined where either operand
      is, and where the velocity is zero. */
  function Acceleration(s: Series, velLookback: nat, accLookback: nat, t: nat): (r: Option<real>)
    requires ValidSeries(s) && t < |s|
    ensures r.Some? <==> t >= accLookback + velLookback && Velocity(s, velLookback, t).value != 0.0
    ensures r.Some? ==>
      var v := Velocity(s, velLookback, t).value;
      r.value == (v - Velocity(s, velLookback, t - accLookback).value) / v
  {
    var v := Velocity(s, velLookback, t);
    var p := PrevVelocity(s, velLookback, accLookback, t);
    if v.Some? && p.Some? && v.value != 0.0 then Some((v.value - p.value) / v.value) else None
  }

  /** The `velocity` column: one value per row, NaN on the first `lookback` rows. */
  function VelocitySeries(s: Series, velLookback: nat): (r: seq<Option<real>>)
    requires ValidSeries(s)
    ensures |r| == |s| && forall t :: 0 <= t < |s| ==> r[t] == Velocity(s, velLookback, t)
    ensures forall t :: 0 <= t < |s| ==> (r[t].None? <==> t < velLookback)
  {
    seq(|s|, t requires 0 <= t < |s| => Velocity(s, velLookback, t))
  }

  /** The `acceleration` column: NaN until both velocities exist. */
  function AccelerationSeries(s: Series, velLookback: nat, accLookback: nat): (r: seq<Option<real>>)
    requires ValidSeries(s)
    ensures |r| == |s|
    ensures forall t :: 0 <= t < |s| ==> r[t] == Acceleration(s, velLookback, accLookback, t)
    ensures forall t :: 0 <= t < |s| && t < velLookback + accLookback ==> r[t].None?
  {
    seq(|s|, t requires 0 <= t < |s| => Acceleration(s, velLookback, accLookback, t))
  }

  /** Sum of a window; undefined as soon as one of its values is. */
  function SumAll(xs: seq<Option<real>>): (r: Option<real>)
    ensures r.Some? <==> forall k :: 0 <= k < |xs| ==> xs[k].Some?
    decreases |xs|
  {
    if xs == [] then Some(0.0)
    else
      var init := SumAll(xs[..|xs| - 1]);
      assert forall k :: 0 <= k < |xs| - 1 ==> xs[..|xs| - 1][k] == xs[k];
      if init.Some? && xs[|xs| - 1].Some? then Some(init.value + xs[|xs| - 1].value) else None
  }

  /** `rolling(window=w).mean()` read at row `t`: the mean of rows
      `t - w + 1 .. t`, undefined until the window is full of defined values. */
  function RollingMean(xs: seq<Option<real>>, w: nat, t: nat): (r: Option<real>)
    requires t < |xs|
    ensures r.Some? <==> 1 <= w <= t + 1 && forall k :: t + 1 - w <= k <= t ==> xs[k].Some?
  {
    if w == 0 || t + 1 < w then None
    else
      var window := xs[t + 1 - w .. t + 1];
      assert forall k :: t + 1 - w <= k <= t ==> xs[k] == window[k - (t + 1 - w)];
      var total := SumAll(window);
      if total.Some? then Some(total.value / (w as real)) else None
  }

  /** `calculate_vel_acc`: the smoothed velocity and acceleration at the last
      bar of day `d`, or `(None, None)` when the symbol has no bar that day. */
  function CalculateVelAcc(s: Series, d: int, cfg: Config): (r: (Option<real>, Option<real>))
    requires ValidSeries(s)
    ensures !HasBarOn(s, d) ==> r == (None, None)
    ensures r.0.Some? || r.1.Some? ==> HasBarOn(s, d)
  {
    match LastIndexOn(s, d)
    case None => (None, None)
    case Some(t) =>
      (RollingMean(VelocitySeries(s, cfg.velocityLookback), cfg.velocitySma, t),
       RollingMean(AccelerationSeries(s, cfg.velocityLookback, cfg.accelerationLookback),
                   cfg.accelerationSma, t))
  }

  // ---------------------------------------------------------------------------
  // Properties of the trailing mean

  lemma {:induction false} SumOfConstant(xs: seq<Option<real>>, v: real)
    requires forall k :: 0 <= k < |xs| ==> xs[k] == Some(v)
    ensures SumAll(xs) == Some((|xs| as real) * v)
    decreases |xs|
  {
    if xs != [] {
      var init := xs[..|xs| - 1];
      SumOfConstant(init, v);
      var n := |init| as real;
      assert SumAll(init).Some? && xs[|xs| - 1].Some?;
      calc {
        SumAll(xs).value;
        SumAll(init).value + xs[|xs| - 1].value;
        n * v + v;
        (n + 1.0) * v;
        (|xs| as real) * v;
      }
    }
  }

  lemma {:induction false} SumBounds(xs: seq<Option<real>>, lo: real, hi: real)
    requires forall k :: 0 <= k < |xs| ==> xs[k].Some? && lo <= xs[k].value <= hi
    ensures SumAll(xs).Some?
    ensures (|xs| as real) * lo <= SumAll(xs).value <= (|xs| as real) * hi
    decreases |xs|
  {
    if xs != [] {
      var init := xs[..|xs| - 1];
      SumBounds(init, lo, hi);
      var n := |init| as real;
      var last := xs[|xs| - 1].value;
      assert SumAll(init).Some? && xs[|xs| - 1].Some?;
      assert SumAll(xs).value == SumAll(init).value + last;
      assert n * lo <= SumAll(init).value <= n * hi;
      assert (|xs| as real) * lo == n * lo + lo;
      assert (|xs| as real) * hi == n * hi + hi;
    }
  }

  /** A window of `w` identical values has exactly that value as its mean. */
  lemma MeanOfConstantWindow(xs: seq<Option<real>>, w: nat, t: nat, v: real)
    requires t < |xs| && 1 <= w <= t + 1
    requires forall k :: t + 1 - w <= k <= t ==> xs[k] == Some(v)
    ensures RollingMean(xs, w, t) == Some(v)
  {
    var window := xs[t + 1 - w .. t + 1];
    assert forall k :: 0 <= k < |window| ==> window[k] == xs[t + 1 - w + k];
    SumOfConstant(window, v);
    var n := w as real;
    assert (|window| as real) == n;
    var total := SumAll(window).value;
    assert total == (|window| as real) * v;
    assert total == n * v;
    assert n >= 1.0;
    assert (n * v) / n == v;
    assert RollingMean(xs, w, t) == Some(total / n);
  }

  /** The mean lies between the smallest and the largest value of its window. */
  lemma MeanWithinWindow(xs: seq<Option<real>>, w: nat, t: nat, lo: real, hi: real)
    requires t < |xs| && 1 <= w <= t + 1
    requires forall k :: t + 1 - w <= k <= t ==> xs[k].Some? && lo <= xs[k].value <= hi
    ensures RollingMean(xs, w, t).Some?
    ensures lo <= RollingMean(xs, w, t).value <= hi
  {
    var window := xs[t + 1 - w .. t + 1];
    assert forall k :: 0 <= k < |window| ==> window[k] == xs[t + 1 - w + k];
    SumBounds(window, lo, hi);
    var total := SumAll(window).value;
    var n := w as real;
    assert n * lo <= total <= n * hi;
    assert total / n - lo == (total - n * lo) / n;
    assert hi - total / n == (n * hi - total) / n;
  }

  // ---------------------------------------------------------------------------
  // Properties of calculate_vel_acc

  /** The signal is read at the day's last bar and stays undefined while the
      velocity lookback plus the smoothing window is not yet filled; the
      lookback runs over the whole series, across day boundaries. */
  lemma VelAccAvailability(s: Series, d: int, cfg: Config)
    requires ValidSeries(s) && HasBarOn(s, d)
    ensures var t := LastIndexOn(s, d).value;
      && (CalculateVelAcc(s, d, cfg).0.Some? <==>
            1 <= cfg.velocitySma && cfg.velocityLookback + cfg.velocitySma <= t + 1)
      && (CalculateVelAcc(s, d, cfg).1.Some? ==>
            1 <= cfg.accelerationSma
            && cfg.velocityLookback + cfg.accelerationLookback + cfg.accelerationSma <= t + 1)
  {
    var t := LastIndexOn(s, d).value;
    var vs := VelocitySeries(s, cfg.velocityLookback);
    var acc := AccelerationSeries(s, cfg.velocityLookback, cfg.accelerationLookback);
    var w := cfg.velocitySma;
    if 1 <= w && cfg.velocityLookback + w <= t + 1 {
      assert forall k :: t + 1 - w <= k <= t ==> vs[k].Some?;
    }
    if 1 <= w <= t + 1 && cfg.velocityLookback + w > t + 1 {
      assert !vs[t + 1 - w].Some?;
    }
    var a := cfg.accelerationSma;
    if 1 <= a <= t + 1 && cfg.velocityLookback + cfg.accelerationLookback + a > t + 1 {
      assert !acc[t + 1 - a].Some?;
    }
  }

  /** When the velocity over the whole smoothing window ending at the day's
      last bar is one value, the smoothed velocity is exactly that value. */
  lemma SteadyVelocity(s: Series, d: int, cfg: Config, v: real)
    requires ValidSeries(s) && HasBarOn(s, d)
    requires var t := LastIndexOn(s, d).value;
      1 <= cfg.velocitySma <= t + 1
      && forall k :: t + 1 - cfg.velocitySma <= k <= t ==> Velocity(s, cfg.velocityLookback, k) == Some(v)
    ensures CalculateVelAcc(s, d, cfg).0 == Some(v)
  {
    var t := LastIndexOn(s, d).value;
    MeanOfConstantWindow(VelocitySeries(s, cfg.velocityLookback), cfg.velocitySma, t, v);
  }

  /** No look-ahead: the signal for day `d` reads no bar after the day's last
      bar, so cutting the series right after that bar leaves it unchanged. */
  lemma NoLookAhead(s: Series, d: int, cfg: Config, n: nat)
    requires ValidSeries(s) && HasBarOn(s, d)
    requires LastIndexOn(s, d).value < n <= |s|
    ensures ValidSeries(s[..n])
    ensures CalculateVelAcc(s[..n], d, cfg) == CalculateVelAcc(s, d, cfg)
  {
    var p := s[..n];
    var t := LastIndexOn(s, d).value;
    assert forall b :: b in p ==> b in s;
    LastIndexOnPrefix(s, d, n);
    var vl, al := cfg.velocityLookback, cfg.accelerationLookback;
    forall k | 0 <= k < n
      ensures Velocity(p, vl, k) == Velocity(s, vl, k)
      ensures Acceleration(p, vl, al, k) == Acceleration(s, vl, al, k)
    {
      PrefixSameSignal(s, n, vl, al, k);
    }
    SamePrefixSameMean(VelocitySeries(p, vl), VelocitySeries(s, vl), cfg.velocitySma, t);
    SamePrefixSameMean(AccelerationSeries(p, vl, al), AccelerationSeries(s, vl, al), cfg.accelerationSma, t);
  }

  /** The last bar of a day is the one with that day after which no bar has it. */
  lemma LastIndexOnIs(s: Series, d: int, t: nat)
    requires t < |s| && s[t].day == d
    requires forall k :: t < k < |s| ==> s[k].day != d
    ensures LastIndexOn(s, d) == Some(t)
  {
    assert s[t] in s;
    var t' := LastIndexOn(s, d).value;
    assert s[t'].day == d;
  }

  lemma LastIndexOnPrefix(s: Series, d: int, n: nat)
    requires HasBarOn(s, d) && LastIndexOn(s, d).value < n <= |s|
    ensures LastIndexOn(s[..n], d) == LastIndexOn(s, d)
  {
    var p := s[..n];
    var t := LastIndexOn(s, d).value;
    assert forall k :: t <= k < n ==> p[k] == s[k];
    LastIndexOnIs(p, d, t);
  }

  lemma PrefixSameSignal(s: Series, n: nat, vl: nat, al: nat, k: nat)
    requires ValidSeries(s) && k < n <= |s| && ValidSeries(s[..n])
    ensures Velocity(s[..n], vl, k) == Velocity(s, vl, k)
    ensures Acceleration(s[..n], vl, al, k) == Acceleration(s, vl, al, k)
  {
    var p := s[..n];
    if k >= al {
      assert Velocity(p, vl, k - al) == Velocity(s, vl, k - al);
    }
  }

  lemma SamePrefixSameMean(xs: seq<Option<real>>, ys: seq<Option<real>>, w: nat, t: nat)
    requires t < |xs| && t < |ys|
    requires forall k :: 0 <= k <= t ==> xs[k] == ys[k]
    ensures RollingMean(xs, w, t) == RollingMean(ys, w, t)
  {
    if 1 <= w <= t + 1 {
      assert xs[t + 1 - w .. t + 1] == ys[t + 1 - w .. t + 1];
    }
  }
}

/** The exit rules `check_sell` applies to one open position over one day's
    bars: a morning-cutoff exit, a trailing floor that only ratchets up, and a
    take-profit that is tested before the stop-loss in the same bar. */
module ExitEvaluator {
  import opened MarketData

  datatype Reason = MorningExit | TakeProfit | StopLoss

  /** An exit decision: the sell price, why, and the index of the day bar that fired. */
  datatype Exit = Exit(price: real, reason: Reason, at: nat)

  function Max(a: real, b: real): (r: real)
    ensures r >= a && r >= b && (r == a || r == b)
  {
    if a >= b then a else b
  }

  /** `buy_price * (1 + profit_target_pct)`: above the buy price exactly when
      the target percentage is positive. */
  function TakeProfitPrice(buyPrice: real, cfg: Config): (r: real)
    ensures buyPrice > 0.0 ==> (r > buyPrice <==> cfg.profitTargetPct > 0.0)
  {
    assert buyPrice * (1.0 + cfg.profitTargetPct) == buyPrice + buyPrice * cfg.profitTargetPct;
    buyPrice * (1.0 + cfg.profitTargetPct)
  }

  /** `buy_price * (1 - trailing_stop_pct)`, reseeded from the buy price on
      every call of `check_sell`: below the buy price exactly when the stop
      percentage is positive, and still a positive price exactly when it is
      under 1. */
  function InitialFloor(buyPrice: real, cfg: Config): (r: real)
    ensures buyPrice > 0.0 ==> (r < buyPrice <==> cfg.trailingStopPct > 0.0)
    ensures buyPrice > 0.0 ==> (r > 0.0 <==> cfg.trailingStopPct < 1.0)
  {
    var k := 1.0 - cfg.trailingStopPct;
    assert buyPrice * k == buyPrice - buyPrice * cfg.trailingStopPct;
    assert buyPrice > 0.0 && cfg.trailingStopPct > 0.0 ==> buyPrice * cfg.trailingStopPct > 0.0;
    assert buyPrice > 0.0 && cfg.trailingStopPct <= 0.0 ==> buyPrice * cfg.trailingStopPct <= 0.0;
    assert buyPrice > 0.0 && k > 0.0 ==> buyPrice * k > 0.0;
    assert buyPrice > 0.0 && k <= 0.0 ==> buyPrice * k <= 0.0;
    buyPrice * k
  }

  /** The level a bar lets the floor rise to: `high * (1 - trailing_stop_pct)`. */
  function TrailLevel(b: Bar, cfg: Config): real {
    b.high * (1.0 - cfg.trailingStopPct)
  }

  /** One ratchet step: `max(floor, high * (1 - trailing_stop_pct))`. */
  function Ratchet(floor: real, b: Bar, cfg: Config): (r: real)
    ensures r >= floor && r >= TrailLevel(b, cfg)
    ensures r == floor || r == TrailLevel(b, cfg)
  {
    Max(floor, TrailLevel(b, cfg))
  }

  /** The floor after ratcheting over the first `k` bars, starting from `seed`. */
  function FloorAfter(bars: Series, k: nat, seed: real, cfg: Config): (r: real)
    requires k <= |bars|
    ensures r >= seed
    decreases k
  {
    if k == 0 then seed
    else Ratchet(FloorAfter(bars, k - 1, seed, cfg), bars[k - 1], cfg)
  }

  /** The loop of `check_sell` from bar `i` on, with the floor as it stands
      before bar `i`. */
  function Walk(bars: Series, i: nat, floor: real, takeProfit: real, cfg: Config): (r: Option<Exit>)
    requires i <= |bars|
    ensures r.Some? ==> i <= r.value.at < |bars|
    ensures r.Some? && r.value.reason == MorningExit ==>
      bars[r.value.at].hour >= cfg.morningSellTime && r.value.price == bars[r.value.at].close
    ensures r.Some? && r.value.reason == TakeProfit ==>
      r.value.price == takeProfit && bars[r.value.at].high >= takeProfit
    ensures r.Some? && r.value.reason == StopLoss ==>
      r.value.price >= floor && bars[r.value.at].low <= r.value.price
    decreases |bars| - i
  {
    if i == |bars| then None
    else
      var b := bars[i];
      if b.hour >= cfg.morningSellTime then Some(Exit(b.close, MorningExit, i))
      else
        var f := Ratchet(floor, b, cfg);
        if b.high >= takeProfit then Some(Exit(takeProfit, TakeProfit, i))
        else if b.low <= f then Some(Exit(f, StopLoss, i))
        else Walk(bars, i + 1, f, takeProfit, cfg)
  }

  /** The exit `check_sell` takes over one day's bars for a position bought at
      `buyPrice`, or None when the bars run out without one. */
  function ExitOf(bars: Series, buyPrice: real, cfg: Config): (r: Option<Exit>)
    ensures bars == [] ==> r.None?
    ensures r.Some? ==> r.value.at < |bars|
    ensures r.Some? && r.value.reason == MorningExit ==>
      bars[r.value.at].hour >= cfg.morningSellTime && r.value.price == bars[r.value.at].close
    ensures r.Some? && r.value.reason == TakeProfit ==>
      r.value.price == TakeProfitPrice(buyPrice, cfg) && bars[r.value.at].high >= r.value.price
    ensures r.Some? && r.value.reason == StopLoss ==>
      r.value.price >= InitialFloor(buyPrice, cfg) && bars[r.value.at].low <= r.value.price
  {
    Walk(bars, 0, InitialFloor(buyPrice, cfg), TakeProfitPrice(buyPrice, cfg), cfg)
  }

  // ---------------------------------------------------------------------------
  // A non-recursive description of the same decision

  /** Bar `k` makes the position exit when it reaches the morning cutoff, its
      high reaches the take-profit price, or its low reaches the floor as
      ratcheted up to and including bar `k`. */
  predicate Fires(bars: Series, k: nat, buyPrice: real, cfg: Config)
    requires k < |bars|
  {
    || bars[k].hour >= cfg.morningSellTime
    || bars[k].high >= TakeProfitPrice(buyPrice, cfg)
    || bars[k].low <= FloorAfter(bars, k + 1, InitialFloor(buyPrice, cfg), cfg)
  }

  /** The exit a firing bar produces: cutoff first, then take-profit, then stop-loss. */
  function ExitAt(bars: Series, k: nat, buyPrice: real, cfg: Config): Exit
    requires k < |bars|
  {
    if bars[k].hour >= cfg.morningSellTime then Exit(bars[k].close, MorningExit, k)
    else if bars[k].high >= TakeProfitPrice(buyPrice, cfg) then Exit(TakeProfitPrice(buyPrice, cfg), TakeProfit, k)
    else Exit(FloorAfter(bars, k + 1, InitialFloor(buyPrice, cfg), cfg), StopLoss, k)
  }

  lemma {:induction false} WalkIsFirstFiring(bars: Series, i: nat, buyPrice: real, cfg: Config)
    requires i <= |bars|
    ensures var r := Walk(bars, i, FloorAfter(bars, i, InitialFloor(buyPrice, cfg), cfg),
                          TakeProfitPrice(buyPrice, cfg), cfg);
      && (r.None? <==> forall k :: i <= k < |bars| ==> !Fires(bars, k, buyPrice, cfg))
      && (r.Some? ==>
            && Fires(bars, r.value.at, buyPrice, cfg)
            && (forall k :: i <= k < r.value.at ==> !Fires(bars, k, buyPrice, cfg))
            && r.value == ExitAt(bars, r.value.at, buyPrice, cfg))
    decreases |bars| - i
  {
    if i < |bars| {
      var seed, tp := InitialFloor(buyPrice, cfg), TakeProfitPrice(buyPrice, cfg);
      var f := FloorAfter(bars, i, seed, cfg);
      var f' := FloorAfter(bars, i + 1, seed, cfg);
      assert f' == Ratchet(f, bars[i], cfg);
      var b := bars[i];
      if b.hour >= cfg.morningSellTime || b.high >= tp || b.low <= f' {
        assert Fires(bars, i, buyPrice, cfg);
        assert Walk(bars, i, f, tp, cfg) == Some(ExitAt(bars, i, buyPrice, cfg));
      } else {
        assert !Fires(bars, i, buyPrice, cfg);
        assert Walk(bars, i, f, tp, cfg) == Walk(bars, i + 1, f', tp, cfg);
        WalkIsFirstFiring(bars, i + 1, buyPrice, cfg);
      }
    }
  }

  /** `check_sell` exits at the first bar that fires, at the price and for the
      reason that bar gives; it exits nowhere only if no bar of the day fires. */
  lemma ExitIsFirstFiringBar(bars: Series, buyPrice: real, cfg: Config)
    ensures ExitOf(bars, buyPrice, cfg).None? <==>
      forall k :: 0 <= k < |bars| ==> !Fires(bars, k, buyPrice, cfg)
    ensures ExitOf(bars, buyPrice, cfg).Some? ==>
      var e := ExitOf(bars, buyPrice, cfg).value;
      && e.at < |bars|
      && Fires(bars, e.at, buyPrice, cfg)
      && (forall k :: 0 <= k < e.at ==> !Fires(bars, k, buyPrice, cfg))
      && e == ExitAt(bars, e.at, buyPrice, cfg)
  {
    WalkIsFirstFiring(bars, 0, buyPrice, cfg);
  }

  // ---------------------------------------------------------------------------
  // Consequences

  /** A day that reaches the morning cutoff always closes the position, at
      the latest at the first cutoff bar: the "did not sell" error path needs
      a day whose bars all lie before the cutoff. */
  lemma CutoffForcesExit(bars: Series, buyPrice: real, cfg: Config, k: nat)
    requires k < |bars| && bars[k].hour >= cfg.morningSellTime
    ensures ExitOf(bars, buyPrice, cfg).Some?
    ensures ExitOf(bars, buyPrice, cfg).value.at <= k
  {
    ExitIsFirstFiringBar(bars, buyPrice, cfg);
    assert Fires(bars, k, buyPrice, cfg);
  }

  /** What each exit reason means: a morning exit sells at the cutoff bar's
      close; a take-profit sells at exactly `buy_price * (1 + profit_target_pct)`
      and wins whenever the bar's high reaches it, even if the low also reached
      the floor in the same bar; a stop-loss sells at the ratcheted floor, which
      is never below `buy_price * (1 - trailing_stop_pct)` and never below the
      bar's low. */
  lemma ExitReasons(bars: Series, buyPrice: real, cfg: Config)
    requires ExitOf(bars, buyPrice, cfg).Some?
    ensures var e := ExitOf(bars, buyPrice, cfg).value;
      && e.at < |bars|
      && (e.reason == MorningExit <==> bars[e.at].hour >= cfg.morningSellTime)
      && (e.reason == MorningExit ==> e.price == bars[e.at].close)
      && (e.reason == TakeProfit <==>
            bars[e.at].hour < cfg.morningSellTime && bars[e.at].high >= TakeProfitPrice(buyPrice, cfg))
      && (e.reason == TakeProfit ==> e.price == buyPrice * (1.0 + cfg.profitTargetPct))
      && (e.reason == StopLoss ==>
            && bars[e.at].high < TakeProfitPrice(buyPrice, cfg)
            && e.price == FloorAfter(bars, e.at + 1, InitialFloor(buyPrice, cfg), cfg)
            && bars[e.at].low <= e.price
            && e.price >= buyPrice * (1.0 - cfg.trailingStopPct))
  {
    ExitIsFirstFiringBar(bars, buyPrice, cfg);
    ExitAtReasons(bars, ExitOf(bars, buyPrice, cfg).value.at, buyPrice, cfg);
  }

  /** The reason and price of the exit a firing bar produces. */
  lemma ExitAtReasons(bars: Series, k: nat, buyPrice: real, cfg: Config)
    requires k < |bars| && Fires(bars, k, buyPrice, cfg)
    ensures var e, b := ExitAt(bars, k, buyPrice, cfg), bars[k];
      && (e.reason == MorningExit <==> b.hour >= cfg.morningSellTime)
      && (e.reason == MorningExit ==> e.price == b.close)
      && (e.reason == TakeProfit <==> b.hour < cfg.morningSellTime && b.high >= TakeProfitPrice(buyPrice, cfg))
      && (e.reason == TakeProfit ==> e.price == buyPrice * (1.0 + cfg.profitTargetPct))
      && (e.reason == StopLoss ==>
            && b.high < TakeProfitPrice(buyPrice, cfg)
            && e.price == FloorAfter(bars, k + 1, InitialFloor(buyPrice, cfg), cfg)
            && b.low <= e.price
            && e.price >= buyPrice * (1.0 - cfg.trailingStopPct))
  {
    var b, tp := bars[k], TakeProfitPrice(buyPrice, cfg);
    var f := FloorAfter(bars, k + 1, InitialFloor(buyPrice, cfg), cfg);
    assert tp == buyPrice * (1.0 + cfg.profitTargetPct);
    assert f >= InitialFloor(buyPrice, cfg) == buyPrice * (1.0 - cfg.trailingStopPct);
    if b.hour >= cfg.morningSellTime {
      assert ExitAt(bars, k, buyPrice, cfg) == Exit(b.close, MorningExit, k);
    } else if b.high >= tp {
      assert ExitAt(bars, k, buyPrice, cfg) == Exit(tp, TakeProfit, k);
    } else {
      assert ExitAt(bars, k, buyPrice, cfg) == Exit(f, StopLoss, k);
      assert b.low <= f;
    }
  }

  /** The trailing floor never moves down from one bar to a later one. */
  lemma {:induction false} FloorMonotone(bars: Series, seed: real, cfg: Config, j: nat, k: nat)
    requires j <= k <= |bars|
    ensures FloorAfter(bars, j, seed, cfg) <= FloorAfter(bars, k, seed, cfg)
    decreases k - j
  {
    if j < k {
      FloorMonotone(bars, seed, cfg, j, k - 1);
    }
  }

  /** The floor is at least `high * (1 - trailing_stop_pct)` of every bar seen so far. */
  lemma {:induction false} FloorCoversHighs(bars: Series, seed: real, cfg: Config, k: nat)
    requires k <= |bars|
    ensures forall j :: 0 <= j < k ==>
      FloorAfter(bars, k, seed, cfg) >= TrailLevel(bars[j], cfg)
    decreases k
  {
    if k > 0 {
      FloorCoversHighs(bars, seed, cfg, k - 1);
      FloorMonotone(bars, seed, cfg, k - 1, k);
    }
  }

  /** The floor only ever takes a level the seed or some bar's high has set:
      it never rises above what the prices justify. */
  lemma {:induction false} FloorIsReached(bars: Series, seed: real, cfg: Config, k: nat)
    requires k <= |bars|
    ensures FloorAfter(bars, k, seed, cfg) == seed
      || exists j :: 0 <= j < k && FloorAfter(bars, k, seed, cfg) == TrailLevel(bars[j], cfg)
    decreases k
  {
    if k > 0 {
      var prev := FloorAfter(bars, k - 1, seed, cfg);
      var cur := FloorAfter(bars, k, seed, cfg);
      assert cur == Ratchet(prev, bars[k - 1], cfg);
      if cur == TrailLevel(bars[k - 1], cfg) {
        assert 0 <= k - 1 < k;
      } else {
        assert cur == prev;
        FloorIsReached(bars, seed, cfg, k - 1);
        if prev != seed {
          var j :| 0 <= j < k - 1 && prev == TrailLevel(bars[j], cfg);
          assert 0 <= j < k;
        }
      }
    }
  }

  /** The worked example: bought at 100 with a 4% target and a 2% trailing
      stop, the target is 104 and the first floor 98; a bar with high 103
      lifts the floor to 100.94, and a later bar with low 100.5 stops the
      position out at 100.94. */
  lemma WorkedExample()
    ensures var cfg := DefaultConfig;
      var bars := [Bar(1, 9, 101.0, 103.0, 101.0, 102.0), Bar(1, 10, 101.0, 102.0, 100.5, 101.0)];
      && TakeProfitPrice(100.0, cfg) == 104.0
      && InitialFloor(100.0, cfg) == 98.0
      && FloorAfter(bars, 1, InitialFloor(100.0, cfg), cfg) == 100.94
      && ExitOf(bars, 100.0, cfg) == Some(Exit(100.94, StopLoss, 1))
  {
  }
}

/** The data the backtest consumes: hourly OHLC bars per symbol, the strategy's
    configuration constants, and the grouping of bars into trading days. */
module MarketData {

  datatype Option<T> = None | Some(value: T)

  /** One hourly OHLC bar. `day` numbers the bar's calendar date; `hour` is the
      hour of the bar's timestamp in exchange-local (US/Eastern) time. */
  datatype Bar = Bar(day: int, hour: int, open: real, high: real, low: real, close: real)

  /** The bars of one symbol, in timestamp order. */
  type Series = seq<Bar>

  /** The downloaded frame: the symbols of its column level, in order, and the
      bars of each symbol. */
  datatype Market = Market(symbols: seq<string>, series: map<string, Series>)

  /** The constants of config.py that the backtest reads. */
  datatype Config = Config(
    topGainersLookbackDays: nat,
    numberOfTopGainers: nat,
    velocityLookback: nat,
    accelerationLookback: nat,
    velocitySma: nat,
    accelerationSma: nat,
    velocityThresholdMin: real,
    velocityThresholdMax: real,
    accelerationThreshold: real,
    profitTargetPct: real,
    trailingStopPct: real,
    morningSellTime: int)

  /** The values the repository ships with. */
  const DefaultConfig: Config := Config(5, 20, 2, 2, 5, 5, -0.5, 0.0, 0.2, 0.04, 0.02, 11)

  /** Prices are positive and the open and close lie within the bar's range. */
  predicate ValidBar(b: Bar) {
    0.0 < b.low <= b.open <= b.high && b.low <= b.close <= b.high
  }

  predicate ValidSeries(s: Series) {
    forall b :: b in s ==> ValidBar(b)
  }

  predicate ValidMarket(m: Market) {
    forall sym :: sym in m.series ==> ValidSeries(m.series[sym])
  }

  predicate Distinct<T(==)>(s: seq<T>) {
    forall i, j :: 0 <= i < j < |s| ==> s[i] != s[j]
  }

  function Min(a: nat, b: nat): nat {
    if a <= b then a else b
  }

  /** Position of the first occurrence of `x` in `s` (Python's `list.index`). */
  function IndexOf<T(==)>(s: seq<T>, x: T): (i: nat)
    requires x in s
    ensures i < |s| && s[i] == x && x !in s[..i]
  {
    if s[0] == x then 0 else 1 + IndexOf(s[1..], x)
  }

  lemma IndexOfDistinct<T>(s: seq<T>, i: nat)
    requires Distinct(s) && i < |s|
    ensures IndexOf(s, s[i]) == i
  {
  }

  predicate HasBarOn(s: Series, d: int) {
    exists b :: b in s && b.day == d
  }

  /** The bars of `s` that fall on day `d`, in order (`df.loc[index.date == d]`):
      every bar of the day is kept and no other. */
  function DayBars(s: Series, d: int): (r: Series)
    ensures forall b :: b in r ==> b in s && b.day == d
    ensures r == [] <==> !HasBarOn(s, d)
    decreases |s|
  {
    if s == [] then []
    else
      var init, last := s[..|s| - 1], s[|s| - 1];
      assert s == init + [last];
      assert HasBarOn(s, d) ==> HasBarOn(init, d) || last.day == d;
      DayBars(init, d) + (if last.day == d then [last] else [])
  }

  /** No bar of the day is left out. */
  lemma {:induction false} DayBarsKeepEveryBar(s: Series, d: int, i: nat)
    requires i < |s| && s[i].day == d
    ensures s[i] in DayBars(s, d)
    decreases |s|
  {
    var init, last := s[..|s| - 1], s[|s| - 1];
    if i == |s| - 1 {
      assert DayBars(s, d) == DayBars(init, d) + [last];
    } else {
      assert init[i] == s[i];
      DayBarsKeepEveryBar(init, d, i);
      assert DayBars(s, d)[..|DayBars(init, d)|] == DayBars(init, d);
    }
  }

  /** The last bar selected for a day is the day's last row (`iloc[-1]`). */
  lemma {:induction false} DayBarsEndAtLastRow(s: Series, d: int)
    requires HasBarOn(s, d)
    ensures DayBars(s, d) != []
    ensures LastIndexOn(s, d).Some?
    ensures DayBars(s, d)[|DayBars(s, d)| - 1] == s[LastIndexOn(s, d).value]
    decreases |s|
  {
    var init, last := s[..|s| - 1], s[|s| - 1];
    var r := DayBars(s, d);
    if last.day == d {
      assert r == DayBars(init, d) + [last];
      assert LastIndexOn(s, d) == Some(|s| - 1);
    } else {
      assert r == DayBars(init, d);
      assert LastIndexOn(s, d) == LastIndexOn(init, d);
      assert HasBarOn(init, d) by {
        var b :| b in s && b.day == d;
        assert s == init + [last];
      }
      DayBarsEndAtLastRow(init, d);
      assert init[LastIndexOn(init, d).value] == s[LastIndexOn(s, d).value];
    }
  }

  /** Selecting a day's bars from two consecutive stretches of a series
      selects from each in turn, so the bars keep the series' order. */
  lemma {:induction false} DayBarsAppend(a: Series, b: Series, d: int)
    ensures DayBars(a + b, d) == DayBars(a, d) + DayBars(b, d)
    decreases |b|
  {
    if b == [] {
      assert a + b == a;
      assert DayBars(a, d) + DayBars(b, d) == DayBars(a, d);
    } else {
      var init, last := b[..|b| - 1], b[|b| - 1];
      var tail := if last.day == d then [last] else [];
      assert (a + b)[..|a + b| - 1] == a + init;
      assert (a + b)[|a + b| - 1] == last;
      assert DayBars(a + b, d) == DayBars(a + init, d) + tail;
      assert DayBars(b, d) == DayBars(init, d) + tail;
      DayBarsAppend(a, init, d);
      var x, y := DayBars(a, d), DayBars(init, d);
      assert (x + y) + tail == x + (y + tail);
    }
  }

  /** Row of the last bar of day `d` in `s` (`day_bars.index[-1]`). */
  function LastIndexOn(s: Series, d: int): (r: Option<nat>)
    ensures r.None? <==> !HasBarOn(s, d)
    ensures r.Some? ==> r.value < |s| && s[r.value].day == d
    ensures r.Some? ==> forall k :: r.value < k < |s| ==> s[k].day != d
    decreases |s|
  {
    if s == [] then None
    else
      var init := s[..|s| - 1];
      assert s == init + [s[|s| - 1]];
      assert HasBarOn(s, d) ==> HasBarOn(init, d) || s[|s| - 1].day == d;
      if s[|s| - 1].day == d then Some(|s| - 1)
      else LastIndexOn(init, d)
  }

  /** Close of the last bar of day `d` (`close_price_for_day`), or None when
      the symbol has no bar that day. */
  function CloseOn(s: Series, d: int): (r: Option<real>)
    ensures r.Some? <==> HasBarOn(s, d)
    ensures r.Some? ==> r.value == s[LastIndexOn(s, d).value].close
    ensures ValidSeries(s) && r.Some? ==> r.value > 0.0
  {
    var bars := DayBars(s, d);
    if bars == [] then None
    else
      DayBarsEndAtLastRow(s, d);
      assert bars[|bars| - 1] in bars;
      Some(bars[|bars| - 1].close)
  }

  predicate Increasing(s: seq<int>) {
    forall i, j :: 0 <= i < j < |s| ==> s[i] < s[j]
  }

  /** Adds `d` to a strictly increasing list of days, keeping it strictly increasing. */
  function InsertDay(s: seq<int>, d: int): (r: seq<int>)
    requires Increasing(s)
    ensures Increasing(r)
    ensures forall x :: x in r <==> x in s || x == d
  {
    if s == [] then [d]
    else if d < s[0] then [d] + s
    else if d == s[0] then s
    else
      var rest := InsertDay(s[1..], d);
      assert forall x :: x in rest ==> s[0] < x;
      var r := [s[0]] + rest;
      assert forall i, j :: 0 <= i < j < |r| ==> r[i] < r[j] by {
        forall i, j | 0 <= i < j < |r| ensures r[i] < r[j] {
          assert r[j] == rest[j - 1] && r[j] in rest;
          if i > 0 {
            assert r[i] == rest[i - 1];
          }
        }
      }
      r
  }

  function AddDays(acc: seq<int>, bars: Series): (r: seq<int>)
    requires Increasing(acc)
    ensures Increasing(r)
    ensures forall x :: x in r <==> x in acc || HasBarOn(bars, x)
    decreases |bars|
  {
    if bars == [] then acc
    else
      assert forall x :: HasBarOn(bars, x) <==> bars[0].day == x || HasBarOn(bars[1..], x) by {
        forall x ensures HasBarOn(bars, x) ==> bars[0].day == x || HasBarOn(bars[1..], x) {
          if HasBarOn(bars, x) {
            var b :| b in bars && b.day == x;
            if b != bars[0] {
              assert b in bars[1..];
            }
          }
        }
      }
      AddDays(InsertDay(acc, bars[0].day), bars[1..])
  }

  function DaysOf(m: Market, syms: seq<string>): (r: seq<int>)
    ensures Increasing(r)
    ensures forall d :: d in r <==>
      exists sym :: sym in syms && sym in m.series && HasBarOn(m.series[sym], d)
    decreases |syms|
  {
    if syms == [] then []
    else
      var init := syms[..|syms| - 1];
      var sym := syms[|syms| - 1];
      assert syms == init + [sym];
      var prev := DaysOf(m, init);
      if sym in m.series then AddDays(prev, m.series[sym]) else prev
  }

  /** The distinct trading days of the data, in ascending order
      (`sorted(set(data.index.date))`). */
  function TradingDays(m: Market): (r: seq<int>)
    ensures Increasing(r)
    ensures forall d :: d in r <==>
      exists sym :: sym in m.symbols && sym in m.series && HasBarOn(m.series[sym], d)
  {
    DaysOf(m, m.symbols)
  }
}

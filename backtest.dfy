/** The day-by-day backtest of main.py: the `positions` dict and the trade log
    as the state of a `Simulation`, changed by `buy`, `sell`, `check_buy`,
    `check_sell` and `loop_through_days`. Each method is proved against a step
    function on `Book` values, and the lemmas below are about those functions. */
module Backtest {
  import opened MarketData
  import opened ExitEvaluator
  import Signal
  import Ranking

  /** A `positions` entry. */
  datatype Position = Position(buyDate: int, buyPrice: real, velocity: real, acceleration: real)

  /** A row of the trade log. */
  datatype Trade = Trade(
    symbol: string, buyDate: int, buyPrice: real, sellPrice: real,
    velocity: real, acceleration: real, reason: Reason)

  /** The backtest's state as a value: the `positions` dict, its keys in
      insertion order, and the trade log. */
  datatype Book = Book(positions: map<string, Position>, order: seq<string>, log: seq<Trade>)

  /** `order` lists each key of `positions` exactly once. */
  ghost predicate WellKeyed(b: Book) {
    Distinct(b.order) && forall s :: s in b.order <==> s in b.positions
  }

  /** Every held symbol has a column in the data. */
  predicate Held(b: Book, m: Market) {
    forall s :: s in b.positions ==> s in m.series
  }

  /** The two maps agree on every key other than `sym`. */
  ghost predicate SameExcept(a: map<string, Position>, b: map<string, Position>, sym: string) {
    forall k :: k != sym ==> (k in a <==> k in b) && (k in a ==> a[k] == b[k])
  }

  /** `del positions[x]` on the key order: a key that is absent leaves the
      order alone; otherwise that key goes and the others stay. */
  function Remove(s: seq<string>, x: string): (r: seq<string>)
    ensures forall y :: y in r <==> y in s && y != x
    ensures Distinct(s) ==> Distinct(r)
    ensures x !in s ==> r == s
    decreases |s|
  {
    if s == [] then []
    else
      var rest := Remove(s[1..], x);
      assert s == [s[0]] + s[1..];
      assert Distinct(s) ==> Distinct(s[1..]) && s[0] !in s[1..];
      (if s[0] == x then [] else [s[0]]) + rest
  }

  /** Deleting a key cuts it out of the key order and leaves the other keys
      in their relative order, as `del` does on a dict. */
  lemma RemoveCutsOut(s: seq<string>, x: string)
    requires Distinct(s) && x in s
    ensures Remove(s, x) == s[..IndexOf(s, x)] + s[IndexOf(s, x) + 1..]
  {
    var i := IndexOf(s, x);
    assert x !in s[i + 1..] by {
      forall k | i + 1 <= k < |s| ensures s[k] != x {
        assert s[i] == x;
      }
    }
    RemoveAt(s, x, i);
  }

  /** Removing a key that occurs only at index `i`. */
  lemma {:induction false} RemoveAt(s: seq<string>, x: string, i: nat)
    requires i < |s| && s[i] == x && x !in s[..i] && x !in s[i + 1..]
    ensures Remove(s, x) == s[..i] + s[i + 1..]
    decreases i
  {
    var tail := s[1..];
    if i == 0 {
      assert tail == s[i + 1..];
      assert Remove(s, x) == Remove(tail, x);
    } else {
      assert s[0] == s[..i][0];
      assert tail[..i - 1] == s[1..i];
      assert tail[i..] == s[i + 1..];
      RemoveAt(tail, x, i - 1);
      assert Remove(s, x) == [s[0]] + (tail[..i - 1] + tail[i..]);
      assert s[..i] == [s[0]] + tail[..i - 1];
    }
  }

  // ---------------------------------------------------------------------------
  // buy and sell

  /** `buy`: `positions[symbol] = {...}` inserts the key or overwrites its
      entry; a new key goes last in the dict's order, an overwritten one keeps
      its place. */
  function BuyStep(b: Book, sym: string, p: Position): (r: Book)
    ensures sym in r.positions && r.positions[sym] == p
    ensures SameExcept(r.positions, b.positions, sym)
    ensures r.log == b.log
    ensures sym in b.positions ==> r.order == b.order
    ensures sym !in b.positions ==> r.order == b.order + [sym]
    ensures WellKeyed(b) ==> WellKeyed(r)
  {
    Book(b.positions[sym := p], if sym in b.positions then b.order else b.order + [sym], b.log)
  }

  /** The trade-log row `sell` writes for a position. */
  function TradeOf(sym: string, p: Position, price: real, reason: Reason): (t: Trade)
    ensures t.symbol == sym && t.sellPrice == price && t.reason == reason
    ensures t.buyDate == p.buyDate && t.buyPrice == p.buyPrice
    ensures t.velocity == p.velocity && t.acceleration == p.acceleration
  {
    Trade(sym, p.buyDate, p.buyPrice, price, p.velocity, p.acceleration, reason)
  }

  /** `sell`: logs one row carrying the stored entry of `sym` and deletes only
      that key. */
  function SellStep(b: Book, sym: string, price: real, reason: Reason): (r: Book)
    requires sym in b.positions
    ensures sym !in r.positions
    ensures SameExcept(r.positions, b.positions, sym)
    ensures r.log == b.log + [TradeOf(sym, b.positions[sym], price, reason)]
    ensures r.order == Remove(b.order, sym)
    ensures WellKeyed(b) ==> WellKeyed(r)
  {
    Book(b.positions - {sym}, Remove(b.order, sym), b.log + [TradeOf(sym, b.positions[sym], price, reason)])
  }

  // ---------------------------------------------------------------------------
  // check_sell and check_buy

  /** The exit `check_sell` takes on `day` for position `p` of `sym`, or None
      when it leaves the position open. */
  function ExitOn(m: Market, sym: string, p: Position, day: int, cfg: Config): (r: Option<Exit>)
    requires sym in m.series
    ensures !HasBarOn(m.series[sym], day) ==> r.None?
  {
    ExitOf(DayBars(m.series[sym], day), p.buyPrice, cfg)
  }

  /** `check_sell`: nothing happens for a symbol not held, a day without bars,
      or a day whose bars fire no exit; otherwise the position is sold at the
      exit's price for the exit's reason. */
  function CheckSellStep(b: Book, m: Market, sym: string, day: int, cfg: Config): (r: Book)
    requires Held(b, m)
    ensures sym !in b.positions ==> r == b
    ensures sym in b.positions ==>
      var e := ExitOn(m, sym, b.positions[sym], day, cfg);
      && (e.None? ==> r == b)
      && (e.Some? ==> r == SellStep(b, sym, e.value.price, e.value.reason))
    ensures Held(r, m)
    ensures WellKeyed(b) ==> WellKeyed(r)
  {
    if sym !in b.positions then b
    else
      match ExitOn(m, sym, b.positions[sym], day, cfg)
      case None => b
      case Some(e) => SellStep(b, sym, e.price, e.reason)
  }

  /** The entry test of `check_buy`; every comparison is strict, so a signal
      on a threshold never passes and an empty velocity band admits nothing. */
  predicate EntrySignal(cfg: Config, velocity: real, acceleration: real)
    ensures EntrySignal(cfg, velocity, acceleration) ==> cfg.velocityThresholdMin < cfg.velocityThresholdMax
    ensures (velocity == cfg.velocityThresholdMin || velocity == cfg.velocityThresholdMax
             || acceleration == cfg.accelerationThreshold) ==> !EntrySignal(cfg, velocity, acceleration)
  {
    cfg.velocityThresholdMin < velocity < cfg.velocityThresholdMax && acceleration > cfg.accelerationThreshold
  }

  /** The position `check_buy` opens for `sym` on `day`, or None when it does
      not buy (a signal that is undefined never passes the test). */
  function Entry(m: Market, sym: string, day: int, cfg: Config): (r: Option<Position>)
    requires ValidMarket(m) && sym in m.series
    ensures r.Some? <==>
      var sig := Signal.CalculateVelAcc(m.series[sym], day, cfg);
      sig.0.Some? && sig.1.Some? && EntrySignal(cfg, sig.0.value, sig.1.value)
    ensures r.Some? ==>
      && HasBarOn(m.series[sym], day)
      && r.value.buyDate == day
      && Some(r.value.buyPrice) == CloseOn(m.series[sym], day)
      && r.value.buyPrice > 0.0
      && EntrySignal(cfg, r.value.velocity, r.value.acceleration)
    ensures r.Some? ==>
      var sig := Signal.CalculateVelAcc(m.series[sym], day, cfg);
      r.value.velocity == sig.0.value && r.value.acceleration == sig.1.value
  {
    var (v, a) := Signal.CalculateVelAcc(m.series[sym], day, cfg);
    if v.Some? && a.Some? && EntrySignal(cfg, v.value, a.value) then
      Some(Position(day, CloseOn(m.series[sym], day).value, v.value, a.value))
    else None
  }

  /** `check_buy`: buys `sym` when its signal passes the entry test. */
  function CheckBuyStep(b: Book, m: Market, sym: string, day: int, cfg: Config): (r: Book)
    requires ValidMarket(m) && sym in m.series
    ensures Entry(m, sym, day, cfg).None? ==> r == b
    ensures Entry(m, sym, day, cfg).Some? ==> r == BuyStep(b, sym, Entry(m, sym, day, cfg).value)
    ensures r.log == b.log
    ensures Held(b, m) ==> Held(r, m)
    ensures WellKeyed(b) ==> WellKeyed(r)
  {
    match Entry(m, sym, day, cfg)
    case None => b
    case Some(p) => BuyStep(b, sym, p)
  }

  // ---------------------------------------------------------------------------
  // loop_through_days

  /** `check_sell` over the snapshot `syms` of held symbols, in order. */
  function SellPhase(b: Book, m: Market, syms: seq<string>, day: int, cfg: Config): (r: Book)
    requires Held(b, m)
    ensures Held(r, m)
    ensures WellKeyed(b) ==> WellKeyed(r)
    ensures |b.log| <= |r.log| && r.log[..|b.log|] == b.log
    decreases |syms|
  {
    if syms == [] then b
    else CheckSellStep(SellPhase(b, m, syms[..|syms| - 1], day, cfg), m, syms[|syms| - 1], day, cfg)
  }

  /** `check_buy` over the ranked symbols `syms`, in order. */
  function BuyPhase(b: Book, m: Market, syms: seq<string>, day: int, cfg: Config): (r: Book)
    requires ValidMarket(m) && Held(b, m)
    requires forall s :: s in syms ==> s in m.series
    ensures Held(r, m)
    ensures WellKeyed(b) ==> WellKeyed(r)
    ensures r.log == b.log
    decreases |syms|
  {
    if syms == [] then b
    else
      var init := syms[..|syms| - 1];
      assert forall s :: s in init ==> s in syms;
      CheckBuyStep(BuyPhase(b, m, init, day, cfg), m, syms[|syms| - 1], day, cfg)
  }

  /** Checking one more ranked symbol runs `check_buy` on the state the
      shorter loop reached. */
  lemma BuyPhaseStep(b: Book, m: Market, syms: seq<string>, j: nat, day: int, cfg: Config)
    requires ValidMarket(m) && Held(b, m) && j < |syms|
    requires forall s :: s in syms ==> s in m.series
    ensures forall s :: s in syms[..j] ==> s in m.series
    ensures BuyPhase(b, m, syms[..j + 1], day, cfg)
      == CheckBuyStep(BuyPhase(b, m, syms[..j], day, cfg), m, syms[j], day, cfg)
  {
    assert syms[..j + 1][..j] == syms[..j];
    assert forall s :: s in syms[..j + 1] ==> s in syms;
  }

  /** One simulated day: exits over a snapshot of the held symbols, then
      entries over the day's top gainers. */
  function DayStep(b: Book, m: Market, day: int, cfg: Config): (r: Book)
    requires ValidMarket(m) && Held(b, m)
    ensures Held(r, m)
    ensures WellKeyed(b) ==> WellKeyed(r)
    ensures |b.log| <= |r.log| && r.log[..|b.log|] == b.log
  {
    BuyPhase(SellPhase(b, m, b.order, day, cfg), m, Ranking.TopGainers(m, cfg, day), day, cfg)
  }

  function RunDays(b: Book, m: Market, days: seq<int>, cfg: Config): (r: Book)
    requires ValidMarket(m) && Held(b, m)
    ensures Held(r, m)
    ensures WellKeyed(b) ==> WellKeyed(r)
    ensures |b.log| <= |r.log| && r.log[..|b.log|] == b.log
    decreases |days|
  {
    if days == [] then b
    else
      var prev := RunDays(b, m, days[..|days| - 1], cfg);
      var r := DayStep(prev, m, days[|days| - 1], cfg);
      assert r.log[..|b.log|] == r.log[..|prev.log|][..|b.log|];
      r
  }

  /** Running one more day runs the day step on the state the shorter run reached. */
  lemma RunDaysStep(b: Book, m: Market, days: seq<int>, k: nat, cfg: Config)
    requires ValidMarket(m) && Held(b, m) && k < |days|
    ensures RunDays(b, m, days[..k + 1], cfg) == DayStep(RunDays(b, m, days[..k], cfg), m, days[k], cfg)
  {
    assert days[..k + 1][..k] == days[..k];
  }

  /** The days `loop_through_days` simulates: the trading days from index
      `top_gainers_lookback_days` on. */
  function SimulatedDays(m: Market, cfg: Config): (r: seq<int>)
    ensures Increasing(r)
    ensures forall d :: d in r ==> Ranking.LookbackDay(m, cfg, d).Some?
    ensures |r| + cfg.topGainersLookbackDays == |TradingDays(m)| || (r == [] && |TradingDays(m)| < cfg.topGainersLookbackDays)
  {
    var all := TradingDays(m);
    if cfg.topGainersLookbackDays <= |all| then
      var r := all[cfg.topGainersLookbackDays..];
      assert forall d :: d in r ==> Ranking.LookbackDay(m, cfg, d).Some? by {
        forall d | d in r ensures Ranking.LookbackDay(m, cfg, d).Some? {
          var k :| 0 <= k < |r| && r[k] == d;
          var i := k + cfg.topGainersLookbackDays;
          assert all[i] == d;
        }
      }
      r
    else []
  }

  /** `loop_through_days`: the log starts empty, then every simulated day runs
      in order. */
  function Backtest(b: Book, m: Market, cfg: Config): (r: Book)
    requires ValidMarket(m) && Held(b, m)
    ensures Held(r, m)
    ensures WellKeyed(b) ==> WellKeyed(r)
  {
    RunDays(b.(log := []), m, SimulatedDays(m, cfg), cfg)
  }

  // ---------------------------------------------------------------------------
  // What a day does to the positions

  /** The row a sell phase may log for a position held at its start: the
      stored entry, sold at the price and for the reason `check_sell` finds. */
  predicate LoggedExit(b: Book, m: Market, t: Trade, day: int, cfg: Config) {
    && t.symbol in b.positions && t.symbol in m.series
    && var e := ExitOn(m, t.symbol, b.positions[t.symbol], day, cfg);
       e.Some? && t == TradeOf(t.symbol, b.positions[t.symbol], e.value.price, e.value.reason)
  }

  /** One `check_sell` on a held symbol: it drops that symbol exactly when an
      exit fires, leaves every other entry alone, and logs at most that exit. */
  lemma CheckSellStepEffect(b: Book, m: Market, sym: string, day: int, cfg: Config)
    requires Held(b, m) && sym in b.positions
    ensures var r, e := CheckSellStep(b, m, sym, day, cfg), ExitOn(m, sym, b.positions[sym], day, cfg);
      && (forall s :: s in r.positions <==> s in b.positions && !(s == sym && e.Some?))
      && (forall s :: s in r.positions ==> r.positions[s] == b.positions[s])
      && (e.None? ==> r.log == b.log)
      && (e.Some? ==> r.log == b.log + [TradeOf(sym, b.positions[sym], e.value.price, e.value.reason)])
  {
  }

  /** In a list without repeats, no element occurs before its own position. */
  lemma DistinctHeadNotInPrefix(s: seq<string>, i: nat)
    requires Distinct(s) && i < |s|
    ensures s[i] !in s[..i]
  {
    forall k | 0 <= k < i ensures s[..i][k] != s[i] {
      assert s[..i][k] == s[k];
    }
  }

  lemma PrefixSnoc(s: seq<string>, j: nat)
    requires 0 < j <= |s|
    ensures s[..j] == s[..j - 1] + [s[j - 1]]
  {
  }

  lemma {:induction false} SellPhasePrefix(b: Book, m: Market, j: nat, day: int, cfg: Config)
    requires WellKeyed(b) && Held(b, m) && j <= |b.order|
    ensures var r := SellPhase(b, m, b.order[..j], day, cfg);
      && (forall s :: s in r.positions <==>
            s in b.positions && !(s in b.order[..j] && ExitOn(m, s, b.positions[s], day, cfg).Some?))
      && (forall s :: s in r.positions ==> r.positions[s] == b.positions[s])
      && (forall k :: |b.log| <= k < |r.log| ==> LoggedExit(b, m, r.log[k], day, cfg))
    decreases j
  {
    if j > 0 {
      var syms := b.order[..j];
      assert syms[..j - 1] == b.order[..j - 1];
      SellPhasePrefix(b, m, j - 1, day, cfg);
      var prev := SellPhase(b, m, b.order[..j - 1], day, cfg);
      var sym := b.order[j - 1];
      PrefixSnoc(b.order, j);
      DistinctHeadNotInPrefix(b.order, j - 1);
      assert sym in b.order;
      assert sym in b.positions;
      assert sym !in b.order[..j - 1];
      assert sym in prev.positions;
      var r := CheckSellStep(prev, m, sym, day, cfg);
      assert SellPhase(b, m, syms, day, cfg) == r;
      CheckSellStepEffect(prev, m, sym, day, cfg);
      var e := ExitOn(m, sym, b.positions[sym], day, cfg);
      assert prev.positions[sym] == b.positions[sym];
      forall s ensures s in r.positions <==>
        s in b.positions && !(s in syms && ExitOn(m, s, b.positions[s], day, cfg).Some?)
      {
        assert s in syms <==> s in b.order[..j - 1] || s == sym;
      }
      forall s | s in r.positions ensures r.positions[s] == b.positions[s] {
        assert r.positions[s] == prev.positions[s];
      }
      forall k | |b.log| <= k < |r.log| ensures LoggedExit(b, m, r.log[k], day, cfg) {
        if k >= |prev.log| {
          assert r.log[k] == TradeOf(sym, b.positions[sym], e.value.price, e.value.reason);
        } else {
          assert r.log[k] == prev.log[k];
        }
      }
    }
  }

  /** The sell phase of a day: a position survives it exactly when it was not
      held at the start of the day or `check_sell` finds no exit for it; a
      survivor is unchanged; every row it logs sells a position held at the
      start of the day, with the stored entry and the exit `check_sell` finds. */
  lemma SellPhaseOutcome(b: Book, m: Market, day: int, cfg: Config)
    requires WellKeyed(b) && Held(b, m)
    ensures var r := SellPhase(b, m, b.order, day, cfg);
      && (forall s :: s in r.positions <==> s in b.positions && ExitOn(m, s, b.positions[s], day, cfg).None?)
      && (forall s :: s in r.positions ==> r.positions[s] == b.positions[s])
      && (forall k :: |b.log| <= k < |r.log| ==> LoggedExit(b, m, r.log[k], day, cfg))
  {
    SellPhasePrefix(b, m, |b.order|, day, cfg);
    assert b.order[..|b.order|] == b.order;
  }

  /** The buy phase of a day: afterwards a symbol is held exactly when it was
      held before or it is a ranked symbol that passes the entry test; a
      symbol that passes is held with the entry of this day, overwriting any
      earlier entry, and every other position is unchanged. */
  lemma {:induction false} BuyPhaseOutcome(b: Book, m: Market, syms: seq<string>, day: int, cfg: Config)
    requires ValidMarket(m) && Held(b, m) && forall s :: s in syms ==> s in m.series
    ensures var r := BuyPhase(b, m, syms, day, cfg);
      && (forall s :: s in r.positions <==> s in b.positions || (s in syms && Entry(m, s, day, cfg).Some?))
      && (forall s :: s in syms && Entry(m, s, day, cfg).Some? ==> r.positions[s] == Entry(m, s, day, cfg).value)
      && (forall s :: s in b.positions && !(s in syms && Entry(m, s, day, cfg).Some?) ==>
            r.positions[s] == b.positions[s])
    decreases |syms|
  {
    if syms != [] {
      var init, last := syms[..|syms| - 1], syms[|syms| - 1];
      assert syms == init + [last];
      assert forall s :: s in init ==> s in syms;
      BuyPhaseOutcome(b, m, init, day, cfg);
      var prev := BuyPhase(b, m, init, day, cfg);
      var r := BuyPhase(b, m, syms, day, cfg);
      assert r == CheckBuyStep(prev, m, last, day, cfg);
      forall s ensures s in r.positions <==> s in b.positions || (s in syms && Entry(m, s, day, cfg).Some?) {
        assert s in syms <==> s in init || s == last;
      }
      forall s | s in syms && Entry(m, s, day, cfg).Some? ensures r.positions[s] == Entry(m, s, day, cfg).value {
        if s != last {
          assert s in init;
        }
      }
      forall s | s in b.positions && !(s in syms && Entry(m, s, day, cfg).Some?)
        ensures r.positions[s] == b.positions[s]
      {
        assert !(s in init && Entry(m, s, day, cfg).Some?);
        assert s != last || Entry(m, last, day, cfg).None?;
      }
    }
  }

  /** The bars of `sym` on `day` include one at or after the morning cutoff. */
  predicate ReachesCutoff(m: Market, sym: string, day: int, cfg: Config)
    requires sym in m.series
  {
    exists k :: 0 <= k < |DayBars(m.series[sym], day)| && DayBars(m.series[sym], day)[k].hour >= cfg.morningSellTime
  }

  /** On a day whose bars reach the morning cutoff for every held symbol that
      trades, the sell phase closes every position with bars that day; since
      every top gainer has bars that day, none of them is still held when the
      buy phase runs, and no buy overwrites an open position. */
  lemma FullDayClosesPositions(b: Book, m: Market, day: int, cfg: Config)
    requires ValidMarket(m) && WellKeyed(b) && Held(b, m)
    requires forall s :: s in b.positions && HasBarOn(m.series[s], day) ==> ReachesCutoff(m, s, day, cfg)
    ensures forall s :: s in SellPhase(b, m, b.order, day, cfg).positions ==> !HasBarOn(m.series[s], day)
    ensures forall s :: s in Ranking.TopGainers(m, cfg, day) ==> s !in SellPhase(b, m, b.order, day, cfg).positions
  {
    SellPhaseOutcome(b, m, day, cfg);
    forall s | s in b.positions && HasBarOn(m.series[s], day)
      ensures ExitOn(m, s, b.positions[s], day, cfg).Some?
    {
      var bars := DayBars(m.series[s], day);
      var k :| 0 <= k < |bars| && bars[k].hour >= cfg.morningSellTime;
      CutoffForcesExit(bars, b.positions[s].buyPrice, cfg, k);
    }
  }

  /** Running `check_buy` twice for the same symbol and day changes nothing
      the first run did not: a symbol repeated in the ranking is bought once. */
  lemma CheckBuyIdempotent(b: Book, m: Market, sym: string, day: int, cfg: Config)
    requires ValidMarket(m) && sym in m.series
    ensures CheckBuyStep(CheckBuyStep(b, m, sym, day, cfg), m, sym, day, cfg) == CheckBuyStep(b, m, sym, day, cfg)
  {
  }

  /** A day's trades only append to the log; the log of a whole run extends
      the log of any shorter run over a prefix of its days. */
  lemma {:induction false} LogOnlyGrows(b: Book, m: Market, days: seq<int>, n: nat, cfg: Config)
    requires ValidMarket(m) && Held(b, m) && n <= |days|
    ensures var short, long := RunDays(b, m, days[..n], cfg), RunDays(b, m, days, cfg);
      |short.log| <= |long.log| && long.log[..|short.log|] == short.log
    decreases |days| - n
  {
    if n < |days| {
      var init := days[..|days| - 1];
      assert init[..n] == days[..n];
      LogOnlyGrows(b, m, init, n, cfg);
      var short, mid, long := RunDays(b, m, days[..n], cfg), RunDays(b, m, init, cfg), RunDays(b, m, days, cfg);
      assert long == DayStep(mid, m, days[|days| - 1], cfg);
      assert long.log[..|short.log|] == long.log[..|mid.log|][..|short.log|];
    } else {
      assert days[..n] == days;
    }
  }

  // ---------------------------------------------------------------------------
  // The simulation as the source runs it

  /** The module-level `positions` dict and the trade log, with the
      configuration constants the functions read. */
  class Simulation {
    const cfg: Config
    var positions: map<string, Position>
    var order: seq<string>
    var log: seq<Trade>

    ghost function State(): Book
      reads this
    {
      Book(positions, order, log)
    }

    constructor(cfg: Config)
      ensures this.cfg == cfg
      ensures State() == Book(map[], [], [])
      ensures WellKeyed(State())
    {
      this.cfg := cfg;
      positions := map[];
      order := [];
      log := [];
    }

    /** `buy`: the buy price is the close of the day's last bar. */
    method Buy(m: Market, sym: string, day: int, velocity: real, acceleration: real)
      requires sym in m.series && HasBarOn(m.series[sym], day)
      modifies this
      ensures State() == BuyStep(old(State()), sym, Position(day, CloseOn(m.series[sym], day).value, velocity, acceleration))
    {
      var buyPrice := CloseOn(m.series[sym], day).value;
      if sym !in positions {
        order := order + [sym];
      }
      positions := positions[sym := Position(day, buyPrice, velocity, acceleration)];
    }

    /** `sell`: logs the trade and deletes the position. */
    method Sell(sym: string, price: real, reason: Reason)
      requires sym in positions
      modifies this
      ensures State() == SellStep(old(State()), sym, price, reason)
    {
      var p := positions[sym];
      log := log + [Trade(sym, p.buyDate, p.buyPrice, price, p.velocity, p.acceleration, reason)];
      positions := positions - {sym};
      order := Remove(order, sym);
    }

    /** `check_buy`. */
    method CheckBuy(m: Market, sym: string, day: int)
      requires ValidMarket(m) && sym in m.series
      modifies this
      ensures State() == CheckBuyStep(old(State()), m, sym, day, cfg)
    {
      var (velocity, acceleration) := Signal.CalculateVelAcc(m.series[sym], day, cfg);
      if velocity.Some? && acceleration.Some?
        && cfg.velocityThresholdMin < velocity.value && velocity.value < cfg.velocityThresholdMax
        && acceleration.value > cfg.accelerationThreshold
      {
        Buy(m, sym, day, velocity.value, acceleration.value);
      }
    }

    /** `check_sell`: walks the day's bars, ratcheting the trailing floor, and
      sells at the first exit. */
    method CheckSell(m: Market, sym: string, day: int)
      requires Held(State(), m)
      modifies this
      ensures State() == CheckSellStep(old(State()), m, sym, day, cfg)
    {
      if sym !in positions {
        return;
      }
      var bars := DayBars(m.series[sym], day);
      if bars == [] {
        return;
      }
      var buyPrice := positions[sym].buyPrice;
      ghost var exit := ExitOf(bars, buyPrice, cfg);
      assert exit == ExitOn(m, sym, positions[sym], day, cfg);
      var takeProfit := buyPrice * (1.0 + cfg.profitTargetPct);
      var floor := buyPrice * (1.0 - cfg.trailingStopPct);
      assert takeProfit == TakeProfitPrice(buyPrice, cfg) && floor == InitialFloor(buyPrice, cfg);
      for i := 0 to |bars|
        invariant State() == old(State())
        invariant Walk(bars, i, floor, takeProfit, cfg) == exit
      {
        var bar := bars[i];
        if bar.hour >= cfg.morningSellTime {
          assert exit == Some(Exit(bar.close, MorningExit, i));
          Sell(sym, bar.close, MorningExit);
          return;
        }
        floor := Ratchet(floor, bar, cfg);
        if bar.high >= takeProfit {
          assert exit == Some(Exit(takeProfit, TakeProfit, i));
          Sell(sym, takeProfit, TakeProfit);
          return;
        }
        if bar.low <= floor {
          assert exit == Some(Exit(floor, StopLoss, i));
          Sell(sym, floor, StopLoss);
          return;
        }
      }
      assert exit == None;
    }

    /** The first loop of a day in `loop_through_days`: `check_sell` over a
      snapshot of the held symbols. */
    method CheckSellAll(m: Market, day: int)
      requires Held(State(), m)
      modifies this
      ensures State() == SellPhase(old(State()), m, old(order), day, cfg)
    {
      var snapshot := order;
      for j := 0 to |snapshot|
        invariant Held(State(), m)
        invariant State() == SellPhase(old(State()), m, snapshot[..j], day, cfg)
      {
        assert snapshot[..j + 1][..j] == snapshot[..j];
        CheckSell(m, snapshot[j], day);
      }
      assert snapshot[..|snapshot|] == snapshot;
    }

    /** The second loop of a day in `loop_through_days`: `check_buy` over the
      day's top gainers. */
    method CheckBuyAll(m: Market, symbols: seq<string>, day: int)
      requires ValidMarket(m) && Held(State(), m)
      requires forall s :: s in symbols ==> s in m.series
      modifies this
      ensures State() == BuyPhase(old(State()), m, symbols, day, cfg)
    {
      for j := 0 to |symbols|
        invariant Held(State(), m)
        invariant State() == BuyPhase(old(State()), m, symbols[..j], day, cfg)
      {
        BuyPhaseStep(old(State()), m, symbols, j, day, cfg);
        CheckBuy(m, symbols[j], day);
      }
      assert symbols[..|symbols|] == symbols;
    }

    /** The body of the day loop of `loop_through_days`. */
    method RunDay(m: Market, day: int)
      requires ValidMarket(m) && Held(State(), m)
      modifies this
      ensures State() == DayStep(old(State()), m, day, cfg)
    {
      CheckSellAll(m, day);
      var top := Ranking.GetTopGainers(m, cfg, day);
      CheckBuyAll(m, top, day);
    }

    /** `loop_through_days`: clears the log, then for each simulated day runs
      `check_sell` over a snapshot of the held symbols and `check_buy` over
      the day's top gainers. */
    method LoopThroughDays(m: Market)
      requires ValidMarket(m) && Held(State(), m)
      modifies this
      ensures State() == Backtest(old(State()), m, cfg)
    {
      log := [];
      ghost var start := State();
      var days := SimulatedDays(m, cfg);
      for k := 0 to |days|
        invariant State() == RunDays(start, m, days[..k], cfg)
        invariant Held(State(), m)
      {
        RunDaysStep(start, m, days, k, cfg);
        RunDay(m, days[k]);
      }
      assert days[..|days|] == days;
    }
  }
}

/** Symbol selection in main.py: the partition of requested symbols into those
    with data and those without, and the daily ranking of top gainers by
    percentage close-to-close gain over a lookback counted in trading days. */
module Ranking {
  import opened MarketData

  // ---------------------------------------------------------------------------
  // filter_valid_symbols

  /** A symbol has data when the frame has a non-empty series for it, that
      is, a bar on at least one day. */
  function HasData(m: Market, sym: string): (r: bool)
    ensures r <==> sym in m.series && exists d :: HasBarOn(m.series[sym], d)
  {
    if sym in m.series && m.series[sym] != [] then
      assert HasBarOn(m.series[sym], m.series[sym][0].day);
      true
    else false
  }

  /** The symbols of `syms` whose having data equals `valid`, in input order. */
  function Select(m: Market, syms: seq<string>, valid: bool): (r: seq<string>)
    ensures forall x :: x in r <==> x in syms && HasData(m, x) == valid
    ensures |r| <= |syms|
    decreases |syms|
  {
    if syms == [] then []
    else
      var init, last := syms[..|syms| - 1], syms[|syms| - 1];
      assert syms == init + [last];
      Select(m, init, valid) + (if HasData(m, last) == valid then [last] else [])
  }

  /** Every input symbol lands in exactly one of the two lists, as often as it
      occurs in the input. */
  lemma {:induction false} SelectPartitions(m: Market, syms: seq<string>)
    ensures multiset(Select(m, syms, true)) + multiset(Select(m, syms, false)) == multiset(syms)
    decreases |syms|
  {
    if syms != [] {
      var init, last := syms[..|syms| - 1], syms[|syms| - 1];
      assert syms == init + [last];
      SelectPartitions(m, init);
    }
  }

  /** `filter_valid_symbols`: returns the symbols with data and those without,
      each in input order. */
  method FilterValidSymbols(m: Market, symbols: seq<string>) returns (valid: seq<string>, missing: seq<string>)
    ensures valid == Select(m, symbols, true)
    ensures missing == Select(m, symbols, false)
    ensures forall x :: x in valid <==> x in symbols && HasData(m, x)
    ensures forall x :: x in missing <==> x in symbols && !HasData(m, x)
  {
    valid, missing := [], [];
    for i := 0 to |symbols|
      invariant valid == Select(m, symbols[..i], true)
      invariant missing == Select(m, symbols[..i], false)
    {
      assert symbols[..i + 1][..i] == symbols[..i];
      var sym := symbols[i];
      if sym in m.series && m.series[sym] != [] {
        valid := valid + [sym];
      } else {
        missing := missing + [sym];
      }
    }
    assert symbols[..|symbols|] == symbols;
  }

  // ---------------------------------------------------------------------------
  // get_top_gainers

  /** An entry of the `gainers` list. */
  datatype Gainer = Gainer(symbol: string, gain: real)

  /** Percentage gain relative to today's close. */
  function PctGain(today: real, back: real): (r: real)
    requires today > 0.0
    ensures r > 0.0 <==> today > back
    ensures r == 0.0 <==> today == back
  {
    (today - back) / today
  }

  /** The gainer entry of `sym`, or None when it has no bar on either day. */
  function GainerOf(m: Market, sym: string, day: int, back: int): (r: Option<Gainer>)
    requires ValidMarket(m)
    ensures r.Some? <==> sym in m.series && HasBarOn(m.series[sym], day) && HasBarOn(m.series[sym], back)
    ensures r.Some? ==> r.value.symbol == sym
  {
    if sym !in m.series then None
    else
      var today, past := CloseOn(m.series[sym], day), CloseOn(m.series[sym], back);
      if today.Some? && past.Some? then Some(Gainer(sym, PctGain(today.value, past.value))) else None
  }

  /** The `gainers` list built over `syms`, in the order of `syms`. */
  function Candidates(m: Market, syms: seq<string>, day: int, back: int): (r: seq<Gainer>)
    requires ValidMarket(m)
    ensures forall g :: g in r ==> g.symbol in syms && GainerOf(m, g.symbol, day, back) == Some(g)
    ensures forall sym :: sym in syms && GainerOf(m, sym, day, back).Some? ==>
      GainerOf(m, sym, day, back).value in r
    decreases |syms|
  {
    if syms == [] then []
    else
      var init, last := syms[..|syms| - 1], syms[|syms| - 1];
      assert syms == init + [last];
      var g := GainerOf(m, last, day, back);
      Candidates(m, init, day, back) + (if g.Some? then [g.value] else [])
  }

  /** Inserts `x` after every entry whose gain is at least its own. */
  function InsertByGain(x: Gainer, s: seq<Gainer>): (r: seq<Gainer>)
    ensures multiset(r) == multiset(s) + multiset{x}
  {
    if s == [] then [x]
    else if s[0].gain < x.gain then [x] + s
    else
      assert s == [s[0]] + s[1..];
      [s[0]] + InsertByGain(x, s[1..])
  }

  /** `list.sort(key=gain, reverse=True)`, a stable sort: by non-increasing
      gain, equal gains in their original order. */
  function SortByGain(xs: seq<Gainer>): (r: seq<Gainer>)
    ensures multiset(r) == multiset(xs)
    decreases |xs|
  {
    if xs == [] then []
    else
      var init, last := xs[..|xs| - 1], xs[|xs| - 1];
      assert xs == init + [last];
      InsertByGain(last, SortByGain(init))
  }

  function SymbolsOf(gs: seq<Gainer>): (r: seq<string>)
    ensures |r| == |gs| && forall i :: 0 <= i < |gs| ==> r[i] == gs[i].symbol
    ensures forall x :: x in r ==> exists g :: g in gs && g.symbol == x
  {
    seq(|gs|, i requires 0 <= i < |gs| => gs[i].symbol)
  }

  /** The `gainers` list after the sort, before the cut. */
  function Ranked(m: Market, day: int, back: int): (r: seq<Gainer>)
    requires ValidMarket(m)
    ensures multiset(r) == multiset(Candidates(m, m.symbols, day, back))
  {
    SortByGain(Candidates(m, m.symbols, day, back))
  }

  /** Every sorted entry is the gainer entry of one of the frame's symbols. */
  lemma RankedEntries(m: Market, day: int, back: int)
    requires ValidMarket(m)
    ensures forall g :: g in Ranked(m, day, back) ==>
      g.symbol in m.symbols && GainerOf(m, g.symbol, day, back) == Some(g)
  {
    var cands := Candidates(m, m.symbols, day, back);
    forall g | g in Ranked(m, day, back)
      ensures g.symbol in m.symbols && GainerOf(m, g.symbol, day, back) == Some(g)
    {
      assert g in multiset(cands);
    }
  }

  /** The day `top_gainers_lookback_days` trading days before `day`, or None
      when `day` is not a trading day or fewer trading days precede it. */
  function LookbackDay(m: Market, cfg: Config, day: int): (r: Option<int>)
    ensures r.Some? <==>
      day in TradingDays(m) && IndexOf(TradingDays(m), day) >= cfg.topGainersLookbackDays
    ensures r.Some? ==> r.value in TradingDays(m) && r.value <= day
  {
    var days := TradingDays(m);
    if day !in days then None
    else
      var idx := IndexOf(days, day);
      if idx < cfg.topGainersLookbackDays then None
      else Some(days[idx - cfg.topGainersLookbackDays])
  }

  /** `get_top_gainers`: the first `number_of_top_gainers` symbols of the
      gainers ranked by percentage gain. */
  function TopGainers(m: Market, cfg: Config, day: int): (r: seq<string>)
    requires ValidMarket(m)
    ensures |r| <= cfg.numberOfTopGainers
    ensures LookbackDay(m, cfg, day).None? ==> r == []
    ensures forall sym :: sym in r ==> sym in m.symbols && sym in m.series && HasBarOn(m.series[sym], day)
  {
    match LookbackDay(m, cfg, day)
    case None => []
    case Some(back) =>
      var ranked := Ranked(m, day, back);
      var top := ranked[..Min(cfg.numberOfTopGainers, |ranked|)];
      assert forall g :: g in top ==> g in ranked;
      RankedEntries(m, day, back);
      SymbolsOf(top)
  }

  /** `get_top_gainers` as the source runs it: one pass over the frame's
      symbols appending each one's gain, a stable sort, and a cut to the
      first `number_of_top_gainers`. */
  method GetTopGainers(m: Market, cfg: Config, day: int) returns (top: seq<string>)
    requires ValidMarket(m)
    ensures top == TopGainers(m, cfg, day)
  {
    var days := TradingDays(m);
    if day !in days {
      return [];
    }
    var idx := IndexOf(days, day);
    var lookbackIdx := idx - cfg.topGainersLookbackDays;
    if lookbackIdx < 0 {
      return [];
    }
    var back := days[lookbackIdx];
    assert LookbackDay(m, cfg, day) == Some(back);
    var gainers := CollectCandidates(m, m.symbols, day, back);
    gainers := SortByGain(gainers);
    top := SymbolsOf(gainers[..Min(cfg.numberOfTopGainers, |gainers|)]);
  }

  /** The loop of `get_top_gainers`: appends the gain of every symbol with a
      close on both days, in the order of `syms`. */
  method CollectCandidates(m: Market, syms: seq<string>, day: int, back: int) returns (gainers: seq<Gainer>)
    requires ValidMarket(m)
    ensures gainers == Candidates(m, syms, day, back)
  {
    gainers := [];
    for i := 0 to |syms|
      invariant gainers == Candidates(m, syms[..i], day, back)
    {
      assert syms[..i + 1][..i] == syms[..i];
      var sym := syms[i];
      if sym in m.series {
        var closeToday := CloseOn(m.series[sym], day);
        var closeLookback := CloseOn(m.series[sym], back);
        if closeToday.Some? && closeLookback.Some? {
          var gain := PctGain(closeToday.value, closeLookback.value);
          gainers := gainers + [Gainer(sym, gain)];
        }
      }
    }
    assert syms[..|syms|] == syms;
  }

  // ---------------------------------------------------------------------------
  // Ranking order

  /** Index of `sym` in `universe`; symbols outside it come last. */
  function SymbolIndex(universe: seq<string>, sym: string): nat {
    if sym in universe then IndexOf(universe, sym) else |universe|
  }

  /** `a` goes before `b`: a larger gain, or the same gain and an earlier symbol. */
  predicate Precedes(a: Gainer, b: Gainer, universe: seq<string>) {
    a.gain > b.gain || (a.gain == b.gain && SymbolIndex(universe, a.symbol) < SymbolIndex(universe, b.symbol))
  }

  predicate RankedIn(s: seq<Gainer>, universe: seq<string>) {
    forall i, j :: 0 <= i < j < |s| ==> Precedes(s[i], s[j], universe)
  }

  predicate InOrderOf(s: seq<Gainer>, universe: seq<string>) {
    forall i, j :: 0 <= i < j < |s| ==> SymbolIndex(universe, s[i].symbol) < SymbolIndex(universe, s[j].symbol)
  }

  lemma ConsRanked(a: Gainer, t: seq<Gainer>, universe: seq<string>)
    requires RankedIn(t, universe)
    requires forall k :: 0 <= k < |t| ==> Precedes(a, t[k], universe)
    ensures RankedIn([a] + t, universe)
  {
    var r := [a] + t;
    forall i, j | 0 <= i < j < |r| ensures Precedes(r[i], r[j], universe) {
      assert r[j] == t[j - 1];
      if i > 0 {
        assert r[i] == t[i - 1];
      }
    }
  }

  lemma {:induction false} InsertKeepsRanked(x: Gainer, s: seq<Gainer>, universe: seq<string>)
    requires RankedIn(s, universe)
    requires forall k :: 0 <= k < |s| ==> SymbolIndex(universe, s[k].symbol) < SymbolIndex(universe, x.symbol)
    ensures RankedIn(InsertByGain(x, s), universe)
    decreases |s|
  {
    if s == [] {
    } else if s[0].gain < x.gain {
      forall k | 0 <= k < |s| ensures Precedes(x, s[k], universe) {
        if k > 0 {
          assert Precedes(s[0], s[k], universe);
        }
      }
      ConsRanked(x, s, universe);
    } else {
      var rest := s[1..];
      assert RankedIn(rest, universe) by {
        forall i, j | 0 <= i < j < |rest| ensures Precedes(rest[i], rest[j], universe) {
          assert rest[i] == s[i + 1] && rest[j] == s[j + 1];
        }
      }
      assert forall k :: 0 <= k < |rest| ==> rest[k] == s[k + 1];
      InsertKeepsRanked(x, rest, universe);
      var tail := InsertByGain(x, rest);
      assert tail == InsertByGain(x, s)[1..];
      HeadPrecedesInsert(x, s, universe);
      ConsRanked(s[0], tail, universe);
    }
  }

  /** The head of a ranked list precedes everything after it once `x`, which
      gains no more and comes later in symbol order, is inserted behind it. */
  lemma HeadPrecedesInsert(x: Gainer, s: seq<Gainer>, universe: seq<string>)
    requires RankedIn(s, universe) && s != [] && s[0].gain >= x.gain
    requires SymbolIndex(universe, s[0].symbol) < SymbolIndex(universe, x.symbol)
    ensures forall k :: 0 <= k < |InsertByGain(x, s[1..])| ==> Precedes(s[0], InsertByGain(x, s[1..])[k], universe)
  {
    var rest := s[1..];
    var tail := InsertByGain(x, rest);
    forall k | 0 <= k < |tail| ensures Precedes(s[0], tail[k], universe) {
      assert tail[k] in multiset(tail);
      if tail[k] != x {
        assert tail[k] in multiset(rest);
        var j :| 0 <= j < |rest| && rest[j] == tail[k];
        assert Precedes(s[0], s[j + 1], universe);
      }
    }
  }

  /** The sort orders the gainers by non-increasing gain and, among equal
      gains, keeps the order in which they were appended. */
  lemma {:induction false} SortIsRankedAndStable(xs: seq<Gainer>, universe: seq<string>)
    requires InOrderOf(xs, universe)
    ensures RankedIn(SortByGain(xs), universe)
    decreases |xs|
  {
    if xs != [] {
      var init, last := xs[..|xs| - 1], xs[|xs| - 1];
      assert InOrderOf(init, universe);
      SortIsRankedAndStable(init, universe);
      var sorted := SortByGain(init);
      forall k | 0 <= k < |sorted| ensures SymbolIndex(universe, sorted[k].symbol) < SymbolIndex(universe, last.symbol) {
        assert sorted[k] in multiset(init);
        var j :| 0 <= j < |init| && init[j] == sorted[k];
        assert xs[j] == sorted[k];
      }
      InsertKeepsRanked(last, sorted, universe);
    }
  }

  /** Appending an entry whose symbol comes after every symbol present keeps
      the list in symbol order. */
  lemma SnocInOrder(prev: seq<Gainer>, g: Gainer, universe: seq<string>)
    requires InOrderOf(prev, universe)
    requires forall k :: 0 <= k < |prev| ==> SymbolIndex(universe, prev[k].symbol) < SymbolIndex(universe, g.symbol)
    ensures InOrderOf(prev + [g], universe)
  {
    var r := prev + [g];
    forall i, j | 0 <= i < j < |r|
      ensures SymbolIndex(universe, r[i].symbol) < SymbolIndex(universe, r[j].symbol)
    {
      assert r[i] == prev[i];
      if j < |prev| {
        assert r[j] == prev[j];
      }
    }
  }

  lemma {:induction false} CandidatesInOrder(m: Market, universe: seq<string>, n: nat, day: int, back: int)
    requires ValidMarket(m) && Distinct(universe) && n <= |universe|
    ensures InOrderOf(Candidates(m, universe[..n], day, back), universe)
    ensures forall g :: g in Candidates(m, universe[..n], day, back) ==> SymbolIndex(universe, g.symbol) < n
    decreases n
  {
    if n > 0 {
      var prefix := universe[..n];
      assert prefix[..n - 1] == universe[..n - 1];
      CandidatesInOrder(m, universe, n - 1, day, back);
      var prev := Candidates(m, universe[..n - 1], day, back);
      var g := GainerOf(m, universe[n - 1], day, back);
      assert Candidates(m, prefix, day, back) == prev + (if g.Some? then [g.value] else []);
      if g.Some? {
        IndexOfDistinct(universe, n - 1);
        assert SymbolIndex(universe, g.value.symbol) == n - 1;
        forall k | 0 <= k < |prev|
          ensures SymbolIndex(universe, prev[k].symbol) < SymbolIndex(universe, g.value.symbol)
        {
          assert prev[k] in prev;
        }
        SnocInOrder(prev, g.value, universe);
      }
    }
  }

  /** With distinct symbols, the sorted gainers list is in ranking order. */
  lemma RankedIsRanked(m: Market, day: int, back: int)
    requires ValidMarket(m) && Distinct(m.symbols)
    ensures RankedIn(Ranked(m, day, back), m.symbols)
  {
    var u := m.symbols;
    CandidatesInOrder(m, u, |u|, day, back);
    assert u[..|u|] == u;
    SortIsRankedAndStable(Candidates(m, u, day, back), u);
  }

  /** The gain `get_top_gainers` computes for a symbol it ranked. */
  function GainFor(m: Market, sym: string, day: int, back: int): real
    requires ValidMarket(m) && GainerOf(m, sym, day, back).Some?
  {
    GainerOf(m, sym, day, back).value.gain
  }

  /** `r` lists symbols that all have a gain, by non-increasing gain, equal
      gains in the frame's symbol order. */
  predicate RankedSymbols(m: Market, r: seq<string>, day: int, back: int)
    requires ValidMarket(m)
  {
    && (forall i :: 0 <= i < |r| ==> GainerOf(m, r[i], day, back).Some?)
    && forall i, j :: 0 <= i < j < |r| ==>
         GainFor(m, r[i], day, back) > GainFor(m, r[j], day, back)
         || (GainFor(m, r[i], day, back) == GainFor(m, r[j], day, back)
             && SymbolIndex(m.symbols, r[i]) < SymbolIndex(m.symbols, r[j]))
  }

  /** The symbols of a ranked list of gainer entries: none twice, and ranked. */
  lemma SymbolsRanked(m: Market, s: seq<Gainer>, day: int, back: int)
    requires ValidMarket(m) && RankedIn(s, m.symbols)
    requires forall i :: 0 <= i < |s| ==> GainerOf(m, s[i].symbol, day, back) == Some(s[i])
    ensures Distinct(SymbolsOf(s))
    ensures RankedSymbols(m, SymbolsOf(s), day, back)
  {
    var r := SymbolsOf(s);
    forall i, j | 0 <= i < j < |r|
      ensures r[i] != r[j]
      ensures GainFor(m, r[i], day, back) > GainFor(m, r[j], day, back)
            || (GainFor(m, r[i], day, back) == GainFor(m, r[j], day, back)
                && SymbolIndex(m.symbols, r[i]) < SymbolIndex(m.symbols, r[j]))
    {
      assert Precedes(s[i], s[j], m.symbols);
    }
  }

  /** The top gainers: no symbol twice, every one with a close on both days,
      gains non-increasing, ties in the frame's symbol order. */
  lemma TopGainersOrdered(m: Market, cfg: Config, day: int)
    requires ValidMarket(m) && Distinct(m.symbols) && LookbackDay(m, cfg, day).Some?
    ensures Distinct(TopGainers(m, cfg, day))
    ensures RankedSymbols(m, TopGainers(m, cfg, day), day, LookbackDay(m, cfg, day).value)
  {
    var back := LookbackDay(m, cfg, day).value;
    var ranked := Ranked(m, day, back);
    RankedIsRanked(m, day, back);
    RankedEntries(m, day, back);
    TopGainersIsCut(m, cfg, day);
    var top := ranked[..Min(cfg.numberOfTopGainers, |ranked|)];
    assert forall i :: 0 <= i < |top| ==> top[i] == ranked[i] && ranked[i] in ranked;
    SymbolsRanked(m, top, day, back);
  }

  /** In a ranked list, every entry before position `p` gains at least as much as entry `p`. */
  lemma RankedDominates(s: seq<Gainer>, universe: seq<string>, p: nat)
    requires RankedIn(s, universe) && p < |s|
    ensures forall i :: 0 <= i < p ==> s[i].gain >= s[p].gain
  {
    forall i | 0 <= i < p ensures s[i].gain >= s[p].gain {
      assert Precedes(s[i], s[p], universe);
    }
  }

  /** An entry whose symbol the cut leaves out sits at or after the cut. */
  lemma CutLeavesOutOnlyLater(s: seq<Gainer>, k: nat, p: nat)
    requires k <= |s| && p < |s| && s[p].symbol !in SymbolsOf(s[..k])
    ensures k <= p
  {
  }

  /** Cutting a ranked list to its first `n` entries: an entry left out means
      the cut is full and every entry kept gains at least as much. */
  lemma CutKeepsBest(s: seq<Gainer>, universe: seq<string>, n: nat, p: nat)
    requires RankedIn(s, universe) && p < |s|
    requires s[p].symbol !in SymbolsOf(s[..Min(n, |s|)])
    ensures Min(n, |s|) == n
    ensures forall i :: 0 <= i < n ==> s[i].gain >= s[p].gain
  {
    CutLeavesOutOnlyLater(s, Min(n, |s|), p);
    RankedDominates(s, universe, p);
  }

  lemma TopGainersIsCut(m: Market, cfg: Config, day: int)
    requires ValidMarket(m) && LookbackDay(m, cfg, day).Some?
    ensures var ranked := Ranked(m, day, LookbackDay(m, cfg, day).value);
      TopGainers(m, cfg, day) == SymbolsOf(ranked[..Min(cfg.numberOfTopGainers, |ranked|)])
  {
  }

  /** The symbols kept by cutting a ranked list of gainer entries at `n`, when
      entry `p` is left out: `n` of them, each gaining at least as much. */
  lemma KeptGainsAtLeast(m: Market, s: seq<Gainer>, n: nat, p: nat, day: int, back: int)
    requires ValidMarket(m) && RankedIn(s, m.symbols) && p < |s|
    requires forall i :: 0 <= i < |s| ==> GainerOf(m, s[i].symbol, day, back) == Some(s[i])
    requires s[p].symbol !in SymbolsOf(s[..Min(n, |s|)])
    ensures |SymbolsOf(s[..Min(n, |s|)])| == n
    ensures forall i :: 0 <= i < n ==>
      var x := SymbolsOf(s[..Min(n, |s|)])[i];
      GainerOf(m, x, day, back).Some? && GainFor(m, x, day, back) >= s[p].gain
  {
    CutKeepsBest(s, m.symbols, n, p);
    var r := SymbolsOf(s[..n]);
    forall i | 0 <= i < n ensures GainerOf(m, r[i], day, back) == Some(s[i]) {
      assert r[i] == s[i].symbol;
    }
  }

  /** The cut keeps the best: when a symbol with a gain is left out, the list
      is full and every symbol kept gains at least as much. */
  lemma TopGainersKeepsBest(m: Market, cfg: Config, day: int, sym: string)
    requires ValidMarket(m) && Distinct(m.symbols) && LookbackDay(m, cfg, day).Some?
    requires sym in m.symbols && GainerOf(m, sym, day, LookbackDay(m, cfg, day).value).Some?
    requires sym !in TopGainers(m, cfg, day)
    ensures |TopGainers(m, cfg, day)| == cfg.numberOfTopGainers
    ensures forall i :: 0 <= i < |TopGainers(m, cfg, day)| ==>
      var x, back := TopGainers(m, cfg, day)[i], LookbackDay(m, cfg, day).value;
      GainerOf(m, x, day, back).Some? && GainFor(m, x, day, back) >= GainFor(m, sym, day, back)
  {
    var back := LookbackDay(m, cfg, day).value;
    var ranked := Ranked(m, day, back);
    TopGainersIsCut(m, cfg, day);
    RankedIsRanked(m, day, back);
    RankedEntriesIndexed(m, day, back);
    InRanked(m, sym, day, back);
    var p :| 0 <= p < |ranked| && ranked[p] == GainerOf(m, sym, day, back).value;
    KeptGainsAtLeast(m, ranked, cfg.numberOfTopGainers, p, day, back);
  }

  /** Every symbol with a gain has its entry in the sorted list. */
  lemma InRanked(m: Market, sym: string, day: int, back: int)
    requires ValidMarket(m) && sym in m.symbols && GainerOf(m, sym, day, back).Some?
    ensures GainerOf(m, sym, day, back).value in Ranked(m, day, back)
  {
    var g := GainerOf(m, sym, day, back).value;
    assert g in Candidates(m, m.symbols, day, back);
    assert g in multiset(Ranked(m, day, back));
  }

  lemma RankedEntriesIndexed(m: Market, day: int, back: int)
    requires ValidMarket(m)
    ensures var ranked := Ranked(m, day, back);
      forall i :: 0 <= i < |ranked| ==> GainerOf(m, ranked[i].symbol, day, back) == Some(ranked[i])
  {
    RankedEntries(m, day, back);
    var ranked := Ranked(m, day, back);
    assert forall i :: 0 <= i < |ranked| ==> ranked[i] in ranked;
  }

  /** The lookback counts trading days, not calendar days: the lookback day
      and `day` are exactly `top_gainers_lookback_days` places apart in the
      list of distinct trading days. */
  lemma LookbackCountsTradingDays(m: Market, cfg: Config, day: int)
    requires LookbackDay(m, cfg, day).Some?
    ensures var days := TradingDays(m);
      exists i :: 0 <= i && i + cfg.topGainersLookbackDays < |days|
        && days[i] == LookbackDay(m, cfg, day).value
        && days[i + cfg.topGainersLookbackDays] == day
    ensures cfg.topGainersLookbackDays > 0 ==> LookbackDay(m, cfg, day).value < day
  {
    var days := TradingDays(m);
    var idx := IndexOf(days, day);
    var i := idx - cfg.topGainersLookbackDays;
    assert days[i] == LookbackDay(m, cfg, day).value;
  }
}
